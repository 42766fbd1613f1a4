/**
 * The replayable random-byte cache as a state machine on values: a cursor
 * into an append-only ledger of bytes already drawn. The class
 * `StatefulCache.RandCache` is proved to step exactly as these functions do.
 */
module CacheModel {
  import opened Bytes
  import opened Results

  /** The one error of `rewind_to`: the requested slot holds no byte yet. */
  datatype RandCacheError = IndexNotAvailable

  /** A snapshot of the cache: the cursor `index` and the ledger `cache`. */
  datatype CacheState = CacheState(index: U32, cache: seq<U8>)

  /** What every reachable state satisfies: the cursor lies within the
      ledger (it may sit just past its end), and the ledger is addressable
      by a `u32`. */
  predicate Inv(s: CacheState) {
    s.index <= |s.cache| <= U32_MAX
  }

  /** The ledger is the generator's output so far: slot `k` holds the
      `k`-th byte the generator produced. */
  predicate Recorded(cache: seq<U8>, source: nat -> U8) {
    forall k :: 0 <= k < |cache| ==> cache[k] == source(k)
  }

  /** `RandCache::new`: cursor 0, empty ledger. */
  function New(): (s: CacheState)
    ensures Inv(s) && s.index == 0 && |s.cache| == 0
    ensures forall source: nat -> U8 :: Recorded(s.cache, source)
  {
    CacheState(0, [])
  }

  /**
   * `get_u8`. `drawn` is the byte the generator would produce now; it is
   * used only on a miss. A hit replays the slot under the cursor and leaves
   * the ledger alone; a miss appends exactly `drawn`, at the old cursor.
   * The cursor then advances by one, which a `u32` cursor allows only
   * below `u32::MAX`.
   */
  function GetU8(s: CacheState, drawn: U8): (r: (CacheState, U8))
    requires Inv(s) && s.index < U32_MAX
    ensures Inv(r.0) && r.0.index == s.index + 1
    ensures s.cache <= r.0.cache && |r.0.cache| <= |s.cache| + 1
    ensures r.0.cache[s.index] == r.1
    ensures s.index < |s.cache| ==> r.0.cache == s.cache && r.1 == s.cache[s.index]
    ensures s.index == |s.cache| ==> r.0.cache == s.cache + [drawn] && r.1 == drawn
  {
    if s.index < |s.cache| then
      (CacheState(s.index + 1, s.cache), s.cache[s.index])
    else
      (CacheState(s.index + 1, s.cache + [drawn]), drawn)
  }

  /** `rewind_to`: succeeds exactly for a slot that is already filled,
      moving the cursor there and returning the old cursor; otherwise the
      state is left as it was. The ledger is never touched. */
  function RewindTo(s: CacheState, i: U32): (r: (CacheState, Result<U32, RandCacheError>))
    ensures r.0.cache == s.cache
    ensures r.1.Ok? <==> i < |s.cache|
    ensures r.1.Ok? ==> r.0.index == i && r.1.value == s.index
    ensures r.1.Err? ==> r.0 == s
    ensures Inv(s) ==> Inv(r.0)
  {
    if i < |s.cache| then (CacheState(i, s.cache), Ok(s.index)) else (s, Err(IndexNotAvailable))
  }

  /** `rewind`: `rewind_to(0)` with its error ignored. On a reachable state
      it always leaves the cursor at 0: on an empty ledger `rewind_to(0)`
      fails, but the cursor is then already 0. */
  function Rewind(s: CacheState): (t: CacheState)
    ensures t.cache == s.cache
    ensures |s.cache| == 0 ==> t == s
    ensures Inv(s) ==> Inv(t) && t.index == 0
  {
    RewindTo(s, 0).0
  }

  /**
   * `n` calls of `get_u8` in a row. A miss at ledger length `L` takes the
   * generator's `L`-th byte `source(L)`. Every byte returned is recorded at
   * the cursor position it was read from; existing slots are replayed, never
   * overwritten.
   */
  function GetN(s: CacheState, n: nat, source: nat -> U8): (r: (CacheState, seq<U8>))
    requires Inv(s) && s.index + n <= U32_MAX
    ensures Inv(r.0) && r.0.index == s.index + n && |r.1| == n
    ensures s.cache <= r.0.cache
    ensures forall j :: 0 <= j < n ==> r.0.cache[s.index + j] == r.1[j]
    ensures Recorded(s.cache, source) ==> Recorded(r.0.cache, source)
    decreases n
  {
    if n == 0 then (s, [])
    else
      var (t, b) := GetU8(s, source(|s.cache|));
      var (u, bs) := GetN(t, n - 1, source);
      assert forall j :: 1 <= j < n ==> ([b] + bs)[j] == bs[j - 1];
      (u, [b] + bs)
  }

  /** A run of `n > 0` reads is one read followed by a run of `n - 1`. */
  lemma GetNStep(s: CacheState, n: nat, source: nat -> U8)
    requires Inv(s) && 0 < n && s.index + n <= U32_MAX
    ensures var (t, b) := GetU8(s, source(|s.cache|));
            GetN(s, n, source) == (GetN(t, n - 1, source).0, [b] + GetN(t, n - 1, source).1)
  {
  }

  /** The bytes read from a position that is already filled are the bytes
      stored there. */
  lemma {:induction false} GetNReplaysLedger(s: CacheState, n: nat, source: nat -> U8)
    requires Inv(s) && s.index + n <= |s.cache|
    ensures GetN(s, n, source).0.cache == s.cache
    ensures GetN(s, n, source).1 == s.cache[s.index..s.index + n]
    decreases n
  {
    if n > 0 {
      var t := GetU8(s, source(|s.cache|)).0;
      GetNReplaysLedger(t, n - 1, source);
    }
  }

  /**
   * Replay is deterministic: after a rewind, the `k`-th byte read is the
   * `k`-th byte read after the previous rewind, for any two runs, however
   * long, and whatever bytes the generator would supply to either run.
   */
  lemma ReplayAfterRewind(s: CacheState, n: nat, m: nat, source1: nat -> U8, source2: nat -> U8)
    requires Inv(s) && n <= U32_MAX && m <= U32_MAX
    ensures var (t, first) := GetN(Rewind(s), n, source1);
            var (_, second) := GetN(Rewind(t), m, source2);
            forall k :: 0 <= k < n && k < m ==> first[k] == second[k]
  {
  }

  /** When the ledger is the generator's output so far, the byte read at
      cursor position `k` is the generator's `k`-th byte, whether it is
      replayed or drawn. */
  lemma ReadsFollowSource(s: CacheState, n: nat, source: nat -> U8)
    requires Inv(s) && s.index + n <= U32_MAX && Recorded(s.cache, source)
    ensures forall j :: 0 <= j < n ==> GetN(s, n, source).1[j] == source(s.index + j)
  {
  }
}
