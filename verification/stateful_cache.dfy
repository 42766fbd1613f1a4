/**
 * The random-byte cache as the renderer holds it: one object whose cursor
 * and ledger are updated in place, drawing fresh bytes from the host's
 * seeded generator only on a cache miss.
 */
module StatefulCache {
  import opened Bytes
  import opened Results
  import CacheModel

  /**
   * The host's seeded generator `fxrand`, reduced to bytes: its `k`-th call
   * yields `stream(k)`. The seed fixes `stream` for the whole session.
   */
  class Fxrand {
    const stream: nat -> U8
    var calls: nat

    constructor (stream: nat -> U8)
      ensures this.stream == stream && calls == 0
    {
      this.stream := stream;
      calls := 0;
    }

    /** One draw: the next byte of the stream. */
    method Next() returns (b: U8)
      modifies this
      ensures b == stream(old(calls)) && calls == old(calls) + 1
    {
      b := stream(calls);
      calls := calls + 1;
    }
  }

  /** `RandCache`: the cursor `index`, the ledger `cache`, and the generator
      it draws from, which nothing else calls. */
  class RandCache {
    var index: U32
    var cache: seq<U8>
    const rng: Fxrand

    /** The object invariant: the cursor stays within the ledger, the
        generator has been called once per ledger slot, and each slot holds
        the byte that call produced. */
    ghost predicate Valid()
      reads this, rng
    {
      && CacheModel.Inv(State())
      && rng.calls == |cache|
      && CacheModel.Recorded(cache, rng.stream)
    }

    function State(): CacheModel.CacheState
      reads this
    {
      CacheModel.CacheState(index, cache)
    }

    /** `RandCache::new`, given the session's generator. */
    constructor (stream: nat -> U8)
      ensures Valid() && fresh(rng) && rng.stream == stream && rng.calls == 0
      ensures State() == CacheModel.New()
    {
      index := 0;
      cache := [];
      rng := new Fxrand(stream);
    }

    /** `rewind_to`. */
    method RewindTo(i: U32) returns (r: Result<U32, CacheModel.RandCacheError>)
      requires Valid()
      modifies this
      ensures Valid()
      ensures (State(), r) == CacheModel.RewindTo(old(State()), i)
      ensures cache == old(cache)
      ensures r.Ok? <==> i < |cache|
      ensures r.Ok? ==> index == i && r.value == old(index)
      ensures r.Err? ==> index == old(index)
    {
      if i < |cache| {
        var original := index;
        index := i;
        r := Ok(original);
      } else {
        r := Err(CacheModel.IndexNotAvailable);
      }
    }

    /** `rewind`: always leaves the cursor at 0 and the ledger as it was. */
    method Rewind()
      requires Valid()
      modifies this
      ensures Valid()
      ensures State() == CacheModel.Rewind(old(State()))
      ensures index == 0 && cache == old(cache)
    {
      var _ := RewindTo(0);
    }

    /** `get_cache_index`. */
    method GetCacheIndex() returns (i: U32)
      ensures i == index
    {
      i := index;
    }

    /**
     * `get_u8`. A hit replays `cache[index]`; a miss draws one byte from
     * the generator and appends it. The cursor advances either way. Because
     * the ledger records the generator's output in order, the byte returned
     * depends on the cursor position alone.
     */
    method GetU8() returns (b: U8)
      requires Valid() && index < U32_MAX
      modifies this, rng
      ensures Valid()
      ensures (State(), b) == CacheModel.GetU8(old(State()), rng.stream(|old(cache)|))
      ensures b == rng.stream(old(index))
      ensures old(index) < |old(cache)| ==> rng.calls == old(rng.calls)
    {
      var result: U8;
      if index < |cache| {
        result := cache[index];
      } else {
        result := rng.Next();
        cache := cache + [result];
      }
      index := index + 1;
      b := result;
    }
  }
}
