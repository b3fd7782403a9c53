/** The block-hash resolver that GetHashFn returns: a closure over a lazily
    created cache from height to hash, seeded with the parent hash of the
    reference header, that on a miss walks the chain backwards from the
    reference height and remembers every parent hash it reads. */
module BlockHashes {
  import opened Types

  /** What one backward walk produces: the hash it returns, whether it reached
      the requested height, the cache entries it writes and the heights it
      fetches, in order. */
  datatype Walk = Walk(hash: Hash, found: bool, learned: map<U64, Hash>, fetched: seq<U64>)

  /** Number of loop steps still allowed when the walk is at `height` looking
      for `n`: the loop stops at the latest when `height - 1 == n`. */
  function Distance(height: U64, n: U64): nat
  {
    Back(Pred(height), n)
  }

  predicate HasHeader(chain: Chain, height: U64)
  {
    height in chain && chain[height].header.Some?
  }

  /** Prepends one successful loop step at `height` to the rest of the walk. */
  function Step(height: U64, parent: Hash, rest: Walk): Walk
  {
    Walk(rest.hash, rest.found, map[Pred(height) := parent] + rest.learned, [height] + rest.fetched)
  }

  /** The loop of the resolver (evm_context.go, lines 100-113), starting at `height`. */
  function WalkFrom(chain: Chain, n: U64, height: U64): (w: Walk)
    decreases Distance(height, n)
  {
    match GetBlockByHeight(chain, height)
    case Failure(_) => Walk(ZeroHash, false, map[], [height])
    case Success(Block(None)) => Walk(ZeroHash, false, map[], [height])
    case Success(Block(Some(header))) =>
      if n == Pred(height) then
        Walk(header.prevBlockHash, true, map[n := header.prevBlockHash], [height])
      else
        Step(height, header.prevBlockHash, WalkFrom(chain, n, Pred(height)))
  }

  /** The answer the resolver gives for `n`, without any cache: the seed for
      `ref.Height - 1`, otherwise the result of a fresh walk. */
  function Resolve(ref: Header, chain: Chain, n: U64): Hash
  {
    if n == Pred(ref.height) then ref.prevBlockHash
    else WalkFrom(chain, n, Pred(ref.height)).hash
  }

  /** The chain is unbroken from `height` down to `n + 1`: every height the
      walk visits holds a block with a header. */
  ghost predicate Unbroken(chain: Chain, height: U64, n: U64)
  {
    forall i :: 0 <= i <= Distance(height, n) ==> HasHeader(chain, Sub(height, i))
  }

  lemma StepDown(height: U64, n: U64)
    requires Pred(height) != n
    ensures Distance(Pred(height), n) == Distance(height, n) - 1
    ensures forall i :: 0 <= i < Distance(height, n) ==> Sub(Pred(height), i) == Sub(height, i + 1)
  {
  }

  /** One successful loop step, unfolded. */
  lemma WalkStep(chain: Chain, n: U64, height: U64)
    requires HasHeader(chain, height) && n != Pred(height)
    ensures WalkFrom(chain, n, height)
         == Step(height, chain[height].header.value.prevBlockHash, WalkFrom(chain, n, Pred(height)))
    ensures Distance(Pred(height), n) < Distance(height, n)
  {
    StepDown(height, n);
  }

  lemma UpdateIsUnion(c: map<U64, Hash>, k: U64, v: Hash, rest: map<U64, Hash>)
    ensures c[k := v] + rest == c + (map[k := v] + rest)
  {
  }

  /** What the loop of the resolver still has to do after one more successful
      step at `height` is the rest of the walk. */
  lemma StepKeepsPlan(chain: Chain, n: U64, height: U64, cache: map<U64, Hash>, cache0: map<U64, Hash>, start: U64)
    requires HasHeader(chain, height) && n != Pred(height)
    requires cache + WalkFrom(chain, n, height).learned == cache0 + WalkFrom(chain, n, start).learned
    ensures cache[Pred(height) := chain[height].header.value.prevBlockHash] + WalkFrom(chain, n, Pred(height)).learned
         == cache0 + WalkFrom(chain, n, start).learned
    ensures WalkFrom(chain, n, height).hash == WalkFrom(chain, n, Pred(height)).hash
    ensures WalkFrom(chain, n, height).fetched == [height] + WalkFrom(chain, n, Pred(height)).fetched
    ensures Distance(Pred(height), n) < Distance(height, n)
  {
    WalkStep(chain, n, height);
    UpdateIsUnion(cache, Pred(height), chain[height].header.value.prevBlockHash, WalkFrom(chain, n, Pred(height)).learned);
  }

  /** The walk reaches `n` exactly when the chain is unbroken down to `n + 1`,
      and then returns the parent hash recorded by block `n + 1`; otherwise it
      returns the zero hash. */
  lemma {:induction false} WalkOutcome(chain: Chain, n: U64, height: U64)
    ensures WalkFrom(chain, n, height).found <==> Unbroken(chain, height, n)
    ensures WalkFrom(chain, n, height).found ==>
              HasHeader(chain, Succ(n)) &&
              WalkFrom(chain, n, height).hash == chain[Succ(n)].header.value.prevBlockHash
    ensures !WalkFrom(chain, n, height).found ==> WalkFrom(chain, n, height).hash == ZeroHash
    decreases Distance(height, n)
  {
    assert Sub(height, 0) == height;
    if HasHeader(chain, height) && n != Pred(height) {
      StepDown(height, n);
      WalkOutcome(chain, n, Pred(height));
      if Unbroken(chain, Pred(height), n) {
        forall i | 0 <= i <= Distance(height, n) ensures HasHeader(chain, Sub(height, i)) {
          if i > 0 {
            assert Sub(height, i) == Sub(Pred(height), i - 1);
          }
        }
      }
      if Unbroken(chain, height, n) {
        forall i | 0 <= i <= Distance(Pred(height), n) ensures HasHeader(chain, Sub(Pred(height), i)) {
          assert Sub(Pred(height), i) == Sub(height, i + 1);
        }
      }
    }
  }

  /** The resolver's answer in terms of the chain alone: the seed for
      `ref.Height - 1`; for any other height the parent hash recorded by block
      `n + 1` when every block from `ref.Height - 1` down to `n + 1` has a
      header; the zero hash otherwise. */
  lemma ResolveOutcome(ref: Header, chain: Chain, n: U64)
    ensures n == Pred(ref.height) ==> Resolve(ref, chain, n) == ref.prevBlockHash
    ensures n != Pred(ref.height) && Unbroken(chain, Pred(ref.height), n) ==>
              HasHeader(chain, Succ(n)) && Resolve(ref, chain, n) == chain[Succ(n)].header.value.prevBlockHash
    ensures n != Pred(ref.height) && !Unbroken(chain, Pred(ref.height), n) ==>
              Resolve(ref, chain, n) == ZeroHash
  {
    if n != Pred(ref.height) {
      WalkOutcome(chain, n, Pred(ref.height));
    }
  }

  /** The walk fetches the heights `height, height - 1, ...` in order, never
      more than the distance allows, and all of them when it succeeds. */
  lemma {:induction false} WalkFetches(chain: Chain, n: U64, height: U64)
    ensures 1 <= |WalkFrom(chain, n, height).fetched| <= Distance(height, n) + 1
    ensures WalkFrom(chain, n, height).found ==> |WalkFrom(chain, n, height).fetched| == Distance(height, n) + 1
    ensures forall i :: 0 <= i < |WalkFrom(chain, n, height).fetched| ==>
              WalkFrom(chain, n, height).fetched[i] == Sub(height, i)
    decreases Distance(height, n)
  {
    assert Sub(height, 0) == height;
    if HasHeader(chain, height) && n != Pred(height) {
      StepDown(height, n);
      WalkFetches(chain, n, Pred(height));
    }
  }

  /** Every key the walk writes lies between `height - 1` and `n`. */
  lemma {:induction false} WalkLearnedRange(chain: Chain, n: U64, height: U64)
    ensures forall k :: k in WalkFrom(chain, n, height).learned ==> Back(Pred(height), k) <= Distance(height, n)
    ensures WalkFrom(chain, n, height).found <==> n in WalkFrom(chain, n, height).learned
    decreases Distance(height, n)
  {
    if HasHeader(chain, height) && n != Pred(height) {
      StepDown(height, n);
      WalkLearnedRange(chain, n, Pred(height));
    }
  }

  /** Every entry the walk writes is a hash a walk for that key would return:
      what is remembered is true of the chain. */
  lemma {:induction false} WalkLearnedSound(chain: Chain, n: U64, height: U64)
    ensures forall k :: k in WalkFrom(chain, n, height).learned ==>
              WalkFrom(chain, k, height).found &&
              WalkFrom(chain, k, height).hash == WalkFrom(chain, n, height).learned[k]
    decreases Distance(height, n)
  {
    if HasHeader(chain, height) && n != Pred(height) {
      var w := WalkFrom(chain, n, height);
      var rest := WalkFrom(chain, n, Pred(height));
      StepDown(height, n);
      WalkLearnedSound(chain, n, Pred(height));
      WalkLearnedRange(chain, n, Pred(height));
      forall k | k in w.learned
        ensures WalkFrom(chain, k, height).found && WalkFrom(chain, k, height).hash == w.learned[k]
      {
        if k in rest.learned {
          assert Back(Pred(Pred(height)), k) <= Distance(Pred(height), n);
          assert k != Pred(height);
        }
      }
    }
  }

  /** Block `k` and block `k - 1` both have headers, and the parent hash
      recorded by block `k` is `hashOf` of block `k - 1`. */
  ghost predicate LinkedAt(chain: Chain, hashOf: Header -> Hash, k: U64)
  {
    && HasHeader(chain, k) && HasHeader(chain, Pred(k))
    && chain[k].header.value.prevBlockHash == hashOf(chain[Pred(k)].header.value)
  }

  /** If each visited block's parent hash is the hash of the block below it
      (for a hash function `hashOf` standing for Header.Hash), a successful
      walk returns the hash of block `n` itself. */
  lemma WalkReturnsHashOfBlock(chain: Chain, n: U64, height: U64, hashOf: Header -> Hash)
    requires Unbroken(chain, height, n)
    requires LinkedAt(chain, hashOf, Succ(n))
    ensures WalkFrom(chain, n, height).found
    ensures WalkFrom(chain, n, height).hash == hashOf(chain[n].header.value)
  {
    WalkOutcome(chain, n, height);
  }

  /** The closure returned by GetHashFn(ref, chain). */
  class HashFn {
    const ref: Header
    const chain: Chain
    /** The captured map; `created` is false while Go's map is still nil. */
    var cache: map<U64, Hash>
    var created: bool
    /** Heights passed to GetBlockByHeight so far, in order. */
    ghost var fetches: seq<U64>

    ghost predicate Valid()
      reads this
    {
      && (!created ==> cache == map[])
      && (created ==> Pred(ref.height) in cache)
      && forall k :: k in cache ==> cache[k] == Resolve(ref, chain, k)
    }

    /** The cache after the nil check and seeding at the start of a call. */
    function Seeded(): map<U64, Hash>
      reads this
    {
      if created then cache else map[Pred(ref.height) := ref.prevBlockHash]
    }

    /** GetHashFn: no cache yet and nothing read. */
    constructor (ref: Header, chain: Chain)
      ensures Valid()
      ensures this.ref == ref && this.chain == chain
      ensures !created && cache == map[] && fetches == []
    {
      this.ref := ref;
      this.chain := chain;
      cache := map[];
      created := false;
      fetches := [];
    }

    /** One call of the closure for height `n` (evm_context.go, lines 89-114). */
    method GetHash(n: U64) returns (h: Hash)
      requires Valid()
      modifies this
      ensures Valid() && created
      ensures h == Resolve(ref, chain, n)
      ensures forall k :: k in old(cache) ==> k in cache && cache[k] == old(cache)[k]
      ensures n in old(Seeded()) ==> cache == old(Seeded()) && fetches == old(fetches)
      ensures n !in old(Seeded()) ==>
                && cache == old(Seeded()) + WalkFrom(chain, n, Pred(ref.height)).learned
                && fetches == old(fetches) + WalkFrom(chain, n, Pred(ref.height)).fetched
      ensures n in cache <==> n in old(Seeded()) || WalkFrom(chain, n, Pred(ref.height)).found
    {
      if !created {
        cache := map[Pred(ref.height) := ref.prevBlockHash];
        created := true;
      }
      if n in cache {
        return cache[n];
      }
      ghost var start := Pred(ref.height);
      ghost var seeded := cache;
      ghost var whole := WalkFrom(chain, n, start);
      h := WalkBack(n);
      WalkLearnedSound(chain, n, start);
      WalkLearnedRange(chain, n, start);
      assert start !in whole.learned by {
        assert Back(Pred(start), start) == TWO64 - 1;
      }
      forall k | k in cache
        ensures cache[k] == Resolve(ref, chain, k)
      {
        if k in whole.learned {
          assert k != start;
        }
      }
    }

    /** The loop of the closure (evm_context.go, lines 100-113): walks back
        from `ref.Height - 1`, writing every parent hash it reads into the cache. */
    method WalkBack(n: U64) returns (h: Hash)
      modifies this
      ensures created == old(created)
      ensures h == WalkFrom(chain, n, Pred(ref.height)).hash
      ensures cache == old(cache) + WalkFrom(chain, n, Pred(ref.height)).learned
      ensures fetches == old(fetches) + WalkFrom(chain, n, Pred(ref.height)).fetched
    {
      var height := Pred(ref.height);
      while true
        invariant created == old(created)
        invariant cache + WalkFrom(chain, n, height).learned == old(cache) + WalkFrom(chain, n, Pred(ref.height)).learned
        invariant fetches + WalkFrom(chain, n, height).fetched == old(fetches) + WalkFrom(chain, n, Pred(ref.height)).fetched
        invariant WalkFrom(chain, n, height).hash == WalkFrom(chain, n, Pred(ref.height)).hash
        decreases Distance(height, n)
      {
        var block := GetBlockByHeight(chain, height);
        fetches := fetches + [height];
        if block.Failure? || block.value.header.None? {
          break;
        }
        var parent := block.value.header.value.prevBlockHash;
        ghost var before := cache;
        cache := cache[Pred(height) := parent];
        if n == Pred(height) {
          UpdateIsUnion(before, n, parent, map[]);
          return parent;
        }
        StepKeepsPlan(chain, n, height, before, old(cache), Pred(ref.height));
        height := Pred(height);
      }
      return ZeroHash;
    }
  }
}
