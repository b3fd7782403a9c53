/** Values shared by the execution-context model: Go's uint64 with its
    wrap-around, addresses and hashes as fixed-width byte strings, block
    headers and the read-only block store that the hash resolver consults. */
module Types {

  datatype Option<+T> = None | Some(value: T)

  datatype Result<+T, +E> = Success(value: T) | Failure(error: E)

  const TWO64: int := 0x1_0000_0000_0000_0000

  /** Go's uint64. */
  newtype U64 = x: int | 0 <= x < 0x1_0000_0000_0000_0000

  const MaxU64: U64 := 0xFFFF_FFFF_FFFF_FFFF

  /** `x - 1` on uint64: wraps from 0 to the largest value. */
  function Pred(x: U64): (r: U64)
    ensures (r as int + 1) % TWO64 == x as int
  {
    if x == 0 then MaxU64 else x - 1
  }

  /** `x + 1` on uint64: wraps from the largest value to 0. */
  function Succ(x: U64): (r: U64)
    ensures Pred(r) == x
  {
    if x == MaxU64 then 0 else x + 1
  }

  /** How many times `Pred` takes `from` down to `to`:
      `(from - to) mod 2^64`. */
  function Back(from: U64, to: U64): (d: nat)
    ensures d < TWO64
    ensures d == 0 <==> from == to
  {
    if from >= to then (from - to) as int else from as int - to as int + TWO64
  }

  /** `from - i` on uint64, for `0 <= i < 2^64`. */
  function Sub(from: U64, i: nat): (r: U64)
    requires i < TWO64
    ensures Back(from, r) == i
  {
    if from as int >= i then (from as int - i) as U64 else (from as int - i + TWO64) as U64
  }

  type byte = bv8

  /** `n` zero bytes. */
  function Zeros(n: nat): (z: seq<byte>)
    ensures |z| == n && forall i :: 0 <= i < n ==> z[i] == 0
  {
    if n == 0 then [] else Zeros(n - 1) + [0]
  }

  const AddressLength: nat := 20
  const HashLength: nat := 32

  /** types.Address: 20 bytes. */
  type Address = a: seq<byte> | |a| == AddressLength witness Zeros(20)

  /** types.Hash: 32 bytes; its hashing function (Keccak) is not modelled. */
  type Hash = h: seq<byte> | |h| == HashLength witness Zeros(32)

  /** `types.Address{}`, the all-zero address. */
  const ZeroAddress: Address := Zeros(AddressLength)

  /** `types.Hash{}`, the all-zero hash the resolver returns when it cannot answer. */
  const ZeroHash: Hash := Zeros(HashLength)

  /** The fields of types.Header that the execution context reads. */
  datatype Header = Header(height: U64, timestamp: U64, prevBlockHash: Hash)

  /** types.Block as far as the resolver looks at it: its header may be nil. */
  datatype Block = Block(header: Option<Header>)

  datatype StoreError = BlockNotFound

  /** The block store of blockchain.BlockChain, keyed by height. A height that
      is not a key is one for which the store reports an error. */
  type Chain = map<U64, Block>

  /** blockchain.BlockChain.GetBlockByHeight. */
  function GetBlockByHeight(chain: Chain, height: U64): (r: Result<Block, StoreError>)
    ensures r.Success? <==> height in chain
    ensures r.Success? ==> r.value == chain[height]
  {
    if height in chain then Success(chain[height]) else Failure(BlockNotFound)
  }
}
