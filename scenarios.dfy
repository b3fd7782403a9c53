/** Clients of the model that replay the repository's unit tests
    (evm_context_test.go) and the three-block resolver scenario. Each method
    builds its own state and states what the calls return. */
module Scenarios {
  import opened Types
  import opened BlockHashes
  import opened Ledgers
  import opened EvmContext

  /** A hash made of 31 zero bytes followed by `k`. */
  function HashNumbered(k: byte): (h: Hash)
    ensures h[31] == k
  {
    Zeros(31) + [k]
  }

  function Header0(): Header { Header(0, 0, ZeroHash) }

  /** Blocks 0, 1 and 2, each recording the hash `HashNumbered(k)` of block `k`
      as the parent hash of block `k + 1`. */
  function ThreeBlocks(): Chain
  {
    map[0 := Block(Some(Header0())),
        1 := Block(Some(Header(1, 1, HashNumbered(0)))),
        2 := Block(Some(Header(2, 2, HashNumbered(1))))]
  }

  /** The reference header of block 3, above the three blocks. */
  function Reference(): Header { Header(3, 3, HashNumbered(2)) }

  /** Resolving 2, then 1, then 0 against the reference header of block 3:
      the first answer is the seed, the second reads block 2, and the third
      walks again from the top, reading block 2 and then block 1. Asking for 1
      a second time is answered from the cache. */
  method ResolveThreeBlocks() returns (h2: Hash, h1: Hash, h0: Hash, again: Hash)
    ensures h2 == HashNumbered(2) && h1 == HashNumbered(1) && h0 == HashNumbered(0)
    ensures again == h1
  {
    var getHash := new HashFn(Reference(), ThreeBlocks());
    h2 := getHash.GetHash(2);
    assert getHash.fetches == [];
    h1 := getHash.GetHash(1);
    assert getHash.fetches == [2];
    h0 := getHash.GetHash(0);
    assert getHash.fetches == [2, 2, 1];
    again := getHash.GetHash(1);
    assert getHash.fetches == [2, 2, 1];
  }

  /** A height no block leads to: block 5 is missing, so resolving 1 against a
      reference header of height 6 gives the zero hash after one read. */
  method ResolveBrokenChain() returns (h: Hash)
    ensures h == ZeroHash
  {
    var getHash := new HashFn(Header(6, 6, HashNumbered(5)), ThreeBlocks());
    h := getHash.GetHash(1);
    assert getHash.fetches == [5];
  }

  /** TestCanTransfer: a balance of 50 covers an amount of 10. */
  method CanTransferFifty(addr: Address) returns (ok: bool)
    ensures ok
  {
    var db := new Ledger(map[]);
    db.SetBalance(addr, 50);
    ok := CanTransfer(db, addr, 10);
  }

  /** TestTransfer: from 100 and 100, moving 50 gives 50 and 150. */
  method TransferFifty(a1: Address, a2: Address) returns (b1: int, b2: int)
    requires a1 != a2
    ensures b1 == 50 && b2 == 150
  {
    var db := new Ledger(map[]);
    db.SetBalance(a1, 100);
    db.SetBalance(a2, 100);
    Transfer(db, a1, a2, 50);
    b1 := db.GetBalance(a1);
    b2 := db.GetBalance(a2);
  }

  /** TestNewEVMContext: a block-1 header and the zero author. */
  method ContextForZeroAuthor(msg: Message) returns (coinbase: Address, blockNumber: int)
    ensures coinbase == ZeroAddress && blockNumber == 1
  {
    var ctx := NewEVMContext(msg, Header(1, 1, ZeroHash), ThreeBlocks(), ZeroAddress);
    coinbase, blockNumber := ctx.coinbase, ctx.blockNumber;
  }
}
