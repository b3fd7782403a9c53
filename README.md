# Execution context of the EVM (evm_context.go), modelled in Dafny

For every transaction the host builds a `Context` for the bytecode
interpreter. The context holds the scalar environment facts (origin,
coinbase, block number, time, difficulty, gas limit and gas price). It also
holds three capabilities:

- `CanTransfer` checks that a balance is sufficient;
- `Transfer` debits one account and credits another;
- `GetHash` gives the hash of an earlier block by its height.

`GetHash` is a closure over a private cache that is created lazily. The
cache is seeded with the parent hash of the reference header. On a miss the
closure walks the chain backwards from `ref.Height - 1`, fetching blocks by
height and remembering every parent hash it reads. It returns the zero hash
when a fetch fails or a block has no header.

Files and modules:

- `types.dfy` (`Types`): Go's `uint64` as the newtype `U64`. `Pred` and
  `Succ` wrap around. Addresses and hashes are fixed-length byte strings.
  It also holds the header and block records, and the block store as a map
  from height to block. A height missing from the map is one for which
  `GetBlockByHeight` reports an error.
- `block_hashes.dfy` (`BlockHashes`): the walk as a function, `WalkFrom`.
  It also gives the answer with no cache at all, `Resolve`, and the closure
  itself as the class `HashFn`. Its methods are proved against `WalkFrom`
  and `Resolve`, and the lemmas relate these two to the chain.
- `ledger.dfy` (`Ledgers`): the account balances as a class with a map
  field. `CanTransfer`, `Transfer` and the function `Transferred` that
  specifies `Transfer` live here, with the conservation of the ghost sum
  `Total`.
- `evm_context.dfy` (`EvmContext`): `Message`, `NewMessage` and its
  accessors, and `NewEVMContext`.
- `scenarios.dfy` (`Scenarios`): the repository's unit tests and a
  three-block resolver run, written as client methods.

The main results:

- The class invariant of `HashFn` says that every cache entry equals the
  memo-free answer `Resolve`. So `GetHash(n)` always returns `Resolve(n)`,
  whatever the cache holds.
- Cache entries are never changed or removed.
- `ResolveOutcome` gives `Resolve(n)` in terms of the chain. It is the seed
  for `ref.Height - 1`. Otherwise, if every block from `ref.Height - 1` down
  to `n + 1` has a header, it is the parent hash recorded by block `n + 1`.
  In every other case it is the zero hash.
- The 64-bit wrap-around of `height - 1` is modelled exactly. The walk
  terminates because the number of steps left, `(height - 1 - n) mod 2^64`,
  drops by one each round. So no fuel and no bound on the store is needed.

Two behaviours of the code that a reader might not expect, both modelled as
written:

- **Re-walk on every miss.** The closure consults the cache only for the
  requested height. On a miss it walks again from `ref.Height - 1`, fetching
  blocks it has already read. It does not resume below the lowest cached
  height. So resolving 2, then 1, then 0 above a three-block chain reads
  blocks 2, 2 and 1, not 2 and 1 (`Scenarios.ResolveThreeBlocks`).
  `WalkFetches` states the exact blocks read: `height, height - 1, ...`, all
  `Distance + 1` of them on success.
- **Coinbase is always zero.** The beneficiary starts as the zero address,
  and the only assignment stores the zero address again. So `Coinbase` is
  the zero address for every author, not only when the author is zero
  (`EvmContext.Beneficiary`).

## Model

| member | source | states |
|---|---|---|
| `EvmContext.NewMessage` | evm_context.go:39-59 | each accessor (`From`, `To`, `Nonce`, `Value`, `Gas`, `GasPrice`, `Data`, `CheckNonce`) returns exactly the corresponding argument of `NewMessage` |
| `EvmContext.Beneficiary` | evm_context.go:63-67 | the beneficiary is the zero address for every author, the zero author included |
| `EvmContext.NewEVMContext` | evm_context.go:62-83 | origin is the sender; coinbase is the zero address; block number and time are the header's height and timestamp; difficulty is 0x20000; gas limit is MaxInt64; gas price is the message's; the resolver is fresh, bound to this header and chain, and has no cache yet |
| `BlockHashes.HashFn.constructor` | evm_context.go:86-87 | the closure is bound to `ref` and the chain, its cache is nil and nothing has been read |
| `BlockHashes.HashFn.GetHash` | evm_context.go:89-114 | the answer is the memo-free `Resolve(n)`; no entry changes. On a hit (the seed included) no block is read. On a miss the cache grows by exactly the walk's entries and the walk's blocks are read. Afterwards `n` is cached iff it was a hit or the walk reached it. |
| `BlockHashes.HashFn.WalkBack` | evm_context.go:100-113 | the loop returns the walk's hash, writes exactly the walk's cache entries and fetches exactly the walk's heights, in order |
| `BlockHashes.ResolveOutcome` | evm_context.go:91-113 | `ref.Height - 1` resolves to `ref.PrevBlockHash`; any other `n` resolves to the parent hash of block `n + 1` when the chain from `ref.Height - 1` down to `n + 1` is unbroken, and to the zero hash otherwise |
| `BlockHashes.WalkOutcome` | evm_context.go:100-113 | the walk reaches `n` iff every visited block has a header; it then returns block `n + 1`'s parent hash, otherwise the zero hash (a failed fetch or a nil header stops it without an error) |
| `BlockHashes.WalkFetches` | evm_context.go:100-110 | the walk fetches `height, height - 1, ...` in this order, at most `Distance + 1` blocks, and exactly that many when it reaches `n` |
| `BlockHashes.WalkLearnedRange` | evm_context.go:106-108 | every cache key written lies between `height - 1` and `n`; `n` is written iff the walk reaches it |
| `BlockHashes.WalkLearnedSound` | evm_context.go:106 | every entry the walk writes is the hash that a walk for that key returns, so entries written later agree with entries written earlier |
| `BlockHashes.WalkReturnsHashOfBlock` | evm_context.go:100-110 | over an unbroken chain linked by a header-hash function, the walk reaches `n` and returns the hash of block `n` itself |
| `Ledgers.CanTransfer` | evm_context.go:119-121 | true iff the balance of `addr` is at least `amount` |
| `Ledgers.Transferred` | evm_context.go:124-127 | for distinct accounts: the sender loses `amount` and the recipient gains it. A self-transfer leaves the balance unchanged. No other account changes, and the sum of all balances is conserved. |
| `Ledgers.Transfer` | evm_context.go:124-127 | the ledger's new balances are `Transferred` of the old ones; the sum of all balances is unchanged |
| `Ledgers.TransferKeepsBalancesNonNegative` | evm_context.go:119-127 | a transfer of a non-negative amount that `CanTransfer` allows keeps every balance non-negative |
| `Scenarios.ResolveThreeBlocks` | evm_context.go:89-114 | above blocks 0, 1 and 2 with reference block 3, heights 2, 1 and 0 resolve to the hashes of blocks 2, 1 and 0, and a repeated request for 1 gives the same hash |
| `Scenarios.ResolveBrokenChain` | evm_context.go:100-113 | when a block below the reference is missing, the answer is the zero hash |
| `Scenarios.CanTransferFifty` | evm_context_test.go:44-52 | a balance of 50 covers an amount of 10 |
| `Scenarios.TransferFifty` | evm_context_test.go:55-66 | from balances 100 and 100, transferring 50 gives 50 and 150 |
| `Scenarios.ContextForZeroAuthor` | evm_context_test.go:11-27 | a context built with the zero author has the zero coinbase and the header's height as block number |

## Left out

- Header hashing (Keccak, `Header.Hash`) is not modelled. Hashes are opaque
  byte strings. `WalkReturnsHashOfBlock` takes the header-hash function as a
  parameter.
- The block store (`blockchain.BlockChain`, its memdb back end, `Commit`) is
  a map from height to block. It is a constant of the resolver, so changes
  to the store between two calls of one closure are not modelled.
- The account state behind `GetBalance`, `SetBalance`, `AddBalance` and
  `SubBalance` is a map from address to unbounded integer. An unknown account
  holds 0, and additions and subtractions are exact, so balances may go
  negative. How the real state stores or rejects such values is not
  modelled.
- `big.Int` pointers: nil amounts or prices and pointer aliasing are not
  represented. Values are plain integers. The defensive copy of the gas
  price becomes value semantics.
- The context's `CanTransfer` and `Transfer` fields always hold the two
  package functions. `Context` leaves these fields out, and callers use
  `Ledgers.CanTransfer` and `Ledgers.Transfer` directly.
- A depth bound on the backward walk: the code has none, and neither does
  the model.
- Concurrency and atomicity of `Transfer` against a shared ledger: the code
  is sequential.
- The interpreter driven by evm_test.go (`NewEVM`, `Call`, gas metering) is
  not part of this model.
