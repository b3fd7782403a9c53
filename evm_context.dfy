/** The transaction message and the construction of the execution context
    that the interpreter receives for one transaction. */
module EvmContext {
  import opened Types
  import BlockHashes

  /** Message: one execution request. A missing recipient (`to` is nil in Go)
      asks for contract creation. */
  datatype Message = Message(
    to: Option<Address>,
    from: Address,
    nonce: U64,
    amount: int,
    gasLimit: U64,
    gasPrice: int,
    data: seq<byte>,
    checkNonce: bool)
  {
    function From(): Address { from }
    function To(): Option<Address> { to }
    function GasPrice(): int { gasPrice }
    function Value(): int { amount }
    function Gas(): U64 { gasLimit }
    function Nonce(): U64 { nonce }
    function Data(): seq<byte> { data }
    function CheckNonce(): bool { checkNonce }
  }

  /** NewMessage: every accessor gives back the argument it was built from. */
  function NewMessage(from: Address, to: Option<Address>, nonce: U64, amount: int,
                      gasLimit: U64, gasPrice: int, data: seq<byte>, checkNonce: bool): (m: Message)
    ensures m.From() == from && m.To() == to && m.Nonce() == nonce && m.Value() == amount
    ensures m.Gas() == gasLimit && m.GasPrice() == gasPrice && m.Data() == data
    ensures m.CheckNonce() == checkNonce
  {
    Message(to, from, nonce, amount, gasLimit, gasPrice, data, checkNonce)
  }

  /** The fixed difficulty the context reports. */
  const FixedDifficulty: int := 0x20000

  /** Go's math.MaxInt64, the gas limit the context reports. */
  const MaxInt64: U64 := 0x7FFF_FFFF_FFFF_FFFF

  /** The coinbase chosen for `author`: the variable starts as the zero
      address and is only ever set to the zero address again, so no author
      gets through (evm_context.go, lines 63-67). */
  function Beneficiary(author: Address): (beneficiary: Address)
    ensures beneficiary == ZeroAddress
  {
    // The declared variable starts as the zero value; the only assignment,
    // taken for a zero author, stores the all-zero address parsed from hex.
    var beneficiary := ZeroAddress;
    if author == ZeroAddress then ZeroAddress else beneficiary
  }

  /** Context: the scalar environment facts and the hash resolver. The two
      ledger capabilities are always Ledgers.CanTransfer and Ledgers.Transfer. */
  datatype Context = Context(
    getHash: BlockHashes.HashFn,
    origin: Address,
    coinbase: Address,
    blockNumber: int,
    time: int,
    difficulty: int,
    gasLimit: U64,
    gasPrice: int)

  /** NewEVMContext (evm_context.go, lines 62-83). */
  method NewEVMContext(msg: Message, header: Header, chain: Chain, author: Address) returns (ctx: Context)
    ensures fresh(ctx.getHash)
    ensures ctx.getHash.Valid() && ctx.getHash.ref == header && ctx.getHash.chain == chain
    ensures !ctx.getHash.created && ctx.getHash.fetches == []
    ensures ctx.origin == msg.From()
    ensures ctx.coinbase == ZeroAddress
    ensures ctx.blockNumber == header.height as int && ctx.time == header.timestamp as int
    ensures ctx.difficulty == 0x20000 && ctx.gasLimit == MaxInt64
    ensures ctx.gasPrice == msg.GasPrice()
  {
    var beneficiary := Beneficiary(author);
    var getHash := new BlockHashes.HashFn(header, chain);
    ctx := Context(
      getHash,
      msg.From(),
      beneficiary,
      header.height as int,
      header.timestamp as int,
      FixedDifficulty,
      MaxInt64,
      msg.GasPrice());
  }
}
