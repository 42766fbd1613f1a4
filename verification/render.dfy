/**
 * The draw cycle, reduced to what it does with randomness and colours:
 * rewind the cache, decode the background colour, then pull red, green and
 * blue from the cache in that order. Canvas sizing, filling and the circle's
 * geometry are recorded in a `Frame` value and not computed.
 */
module Render {
  import opened Bytes
  import opened Results
  import opened Colors
  import opened CacheModel
  import StatefulCache

  /** What one cycle paints: a canvas of the given size filled with
      `background`, and a circle filled with `foreground`. */
  datatype Frame = Frame(width: U32, height: U32, background: Color, foreground: Color)

  /**
   * One cycle of `draw` on a cache state. A malformed colour parameter
   * aborts the cycle after the rewind and before any byte is read. A
   * successful cycle reads exactly three bytes, from ledger slots 0, 1 and
   * 2, and paints them as red, green and blue.
   */
  function DrawCycle(s: CacheState, source: nat -> U8, colorParam: string, width: U32, height: U32)
    : (r: (CacheState, Result<Frame, DecodeError>))
    requires Inv(s)
    ensures Inv(r.0) && s.cache <= r.0.cache
    ensures Recorded(s.cache, source) ==> Recorded(r.0.cache, source)
    ensures r.1.Ok? <==> WellFormedParam(colorParam)
    ensures r.1.Err? ==> r.0 == Rewind(s) && r.1 == Err(FromParam(colorParam).error)
    ensures r.1.Ok? ==> r.0.index == 3 && |r.0.cache| >= 3
    ensures r.1.Ok? ==> r.1.value == Frame(width, height, FromParam(colorParam).value,
                                           FromRgb(r.0.cache[0], r.0.cache[1], r.0.cache[2]))
  {
    var t := Rewind(s);
    match FromParam(colorParam)
    case Err(e) => (t, Err(e))
    case Ok(background) =>
      var (u, rgb) := GetN(t, 3, source);
      (u, Ok(Frame(width, height, background, FromRgb(rgb[0], rgb[1], rgb[2]))))
  }

  /** A redraw paints the same foreground as the cycle before it, whatever
      the surface size of either, and whatever the generator would supply. */
  lemma RedrawRepeatsForeground(s: CacheState, source1: nat -> U8, source2: nat -> U8, colorParam: string,
                                width1: U32, height1: U32, width2: U32, height2: U32)
    requires Inv(s)
    ensures var (t, first) := DrawCycle(s, source1, colorParam, width1, height1);
            var (_, second) := DrawCycle(t, source2, colorParam, width2, height2);
            first.Ok? ==> second.Ok? && second.value.foreground == first.value.foreground
  {
  }

  /** From a ledger that records the generator's output, every successful
      cycle paints the generator's first three bytes. */
  lemma ForegroundIsFirstThreeDraws(s: CacheState, source: nat -> U8, colorParam: string, width: U32, height: U32)
    requires Inv(s) && Recorded(s.cache, source)
    ensures var r := DrawCycle(s, source, colorParam, width, height).1;
            r.Ok? ==> r.value.foreground == FromRgb(source(0), source(1), source(2))
  {
  }

  /**
   * A session on values: the initial draw and then one cycle per resize
   * event, each at the viewport size reported for it. Every cycle succeeds
   * exactly when the colour parameter is well formed, and paints the decoded
   * background on a surface of the size reported for it.
   */
  function Session(s: CacheState, source: nat -> U8, colorParam: string, sizes: seq<(U32, U32)>)
    : (frames: seq<Result<Frame, DecodeError>>)
    requires Inv(s)
    ensures |frames| == |sizes|
    ensures forall k :: 0 <= k < |frames| ==> frames[k].Ok? == WellFormedParam(colorParam)
    ensures forall k :: 0 <= k < |frames| && frames[k].Ok? ==>
      && frames[k].value.width == sizes[k].0 && frames[k].value.height == sizes[k].1
      && frames[k].value.background == FromParam(colorParam).value
    decreases |sizes|
  {
    if sizes == [] then []
    else
      var (t, frame) := DrawCycle(s, source, colorParam, sizes[0].0, sizes[0].1);
      var rest := Session(t, source, colorParam, sizes[1..]);
      assert forall k :: 1 <= k < |sizes| ==> ([frame] + rest)[k] == rest[k - 1] && sizes[k] == sizes[1..][k - 1];
      [frame] + rest
  }

  /** The session from position `i` on is the cycle at `i` followed by the
      session from `i + 1` on. */
  lemma SessionStep(s: CacheState, source: nat -> U8, colorParam: string, sizes: seq<(U32, U32)>, i: nat)
    requires Inv(s) && i < |sizes|
    ensures var (t, frame) := DrawCycle(s, source, colorParam, sizes[i].0, sizes[i].1);
            Session(s, source, colorParam, sizes[i..]) == [frame] + Session(t, source, colorParam, sizes[i + 1..])
  {
    assert sizes[i..][1..] == sizes[i + 1..];
  }

  /** Every successful frame of `frames` has foreground `fg`. */
  predicate AllPaint(frames: seq<Result<Frame, DecodeError>>, fg: Color) {
    forall k :: 0 <= k < |frames| && frames[k].Ok? ==> frames[k].value.foreground == fg
  }

  /** Once ledger slots 0 to 2 are filled, a cycle paints exactly those
      three slots and leaves them as they were. */
  lemma CycleReplaysSlots(s: CacheState, source: nat -> U8, colorParam: string, width: U32, height: U32)
    requires Inv(s) && |s.cache| >= 3
    ensures var (t, frame) := DrawCycle(s, source, colorParam, width, height);
            && t.cache[0] == s.cache[0] && t.cache[1] == s.cache[1] && t.cache[2] == s.cache[2]
            && (frame.Ok? ==> frame.value.foreground == FromRgb(s.cache[0], s.cache[1], s.cache[2]))
  {
  }

  /** Once ledger slots 0 to 2 are filled, every successful cycle of the
      rest of the session paints exactly those three slots. */
  lemma {:induction false} SessionReplaysSlots(s: CacheState, source: nat -> U8, colorParam: string,
                                               sizes: seq<(U32, U32)>)
    requires Inv(s) && |s.cache| >= 3
    ensures AllPaint(Session(s, source, colorParam, sizes), FromRgb(s.cache[0], s.cache[1], s.cache[2]))
    decreases |sizes|
  {
    if sizes != [] {
      var fg := FromRgb(s.cache[0], s.cache[1], s.cache[2]);
      var (t, frame) := DrawCycle(s, source, colorParam, sizes[0].0, sizes[0].1);
      CycleReplaysSlots(s, source, colorParam, sizes[0].0, sizes[0].1);
      var rest := Session(t, source, colorParam, sizes[1..]);
      SessionReplaysSlots(t, source, colorParam, sizes[1..]);
      assert AllPaint(rest, fg);
      var frames := Session(s, source, colorParam, sizes);
      assert frames == [frame] + rest;
      forall k | 0 <= k < |frames| && frames[k].Ok?
        ensures frames[k].value.foreground == fg
      {
        if k > 0 {
          assert frames[k] == rest[k - 1];
        }
      }
    }
  }

  /**
   * However many resize events arrive, all successful cycles of a session
   * paint one and the same foreground, whatever the surface sizes and
   * whatever the generator supplies.
   */
  lemma SessionForegroundIsStable(s: CacheState, source: nat -> U8, colorParam: string,
                                  sizes: seq<(U32, U32)>, i: nat, j: nat)
    requires Inv(s) && i < |sizes| && j < |sizes|
    ensures var frames := Session(s, source, colorParam, sizes);
            frames[i].Ok? ==> frames[j].Ok? && frames[j].value.foreground == frames[i].value.foreground
  {
    var (t, frame) := DrawCycle(s, source, colorParam, sizes[0].0, sizes[0].1);
    var frames := Session(s, source, colorParam, sizes);
    assert frames == [frame] + Session(t, source, colorParam, sizes[1..]);
    if frame.Ok? {
      SessionReplaysSlots(t, source, colorParam, sizes[1..]);
      assert frames[i] == frame || frames[i] == Session(t, source, colorParam, sizes[1..])[i - 1];
      assert frames[j] == frame || frames[j] == Session(t, source, colorParam, sizes[1..])[j - 1];
    }
  }

  /**
   * `draw`, on the session's cache: rewind, decode the background from the
   * host's colour parameter, then build the foreground from three `get_u8`
   * calls in red, green, blue order.
   */
  method Draw(rc: StatefulCache.RandCache, colorParam: string, width: U32, height: U32)
    returns (r: Result<Frame, DecodeError>)
    requires rc.Valid()
    modifies rc, rc.rng
    ensures rc.Valid()
    ensures (rc.State(), r) == DrawCycle(old(rc.State()), rc.rng.stream, colorParam, width, height)
    ensures r.Ok? ==> r.value.foreground == FromRgb(rc.rng.stream(0), rc.rng.stream(1), rc.rng.stream(2))
  {
    ghost var s := rc.State();
    rc.Rewind();
    ghost var t := rc.State();
    var background := FromParam(colorParam);
    if background.Err? {
      return Err(background.error);
    }
    ghost var source := rc.rng.stream;
    var red := rc.GetU8();
    ghost var t1 := rc.State();
    var green := rc.GetU8();
    ghost var t2 := rc.State();
    var blue := rc.GetU8();
    ghost var t3 := rc.State();
    GetNStep(t, 3, source);
    GetNStep(t1, 2, source);
    GetNStep(t2, 1, source);
    assert GetN(t3, 0, source) == (t3, []);
    r := Ok(Frame(width, height, background.value, FromRgb(red, green, blue)));
  }

  /**
   * `start`: create the cache, draw once, then draw again for every resize
   * event. `sizes` holds the viewport size at the initial draw and at each
   * event; `stream` is the session's generator output. Every frame that
   * decodes its background paints the generator's first three bytes.
   */
  method RunSession(stream: nat -> U8, colorParam: string, sizes: seq<(U32, U32)>)
    returns (frames: seq<Result<Frame, DecodeError>>)
    ensures frames == Session(New(), stream, colorParam, sizes)
    ensures forall i :: 0 <= i < |frames| && frames[i].Ok? ==>
      frames[i].value.foreground == FromRgb(stream(0), stream(1), stream(2))
  {
    var rc := new StatefulCache.RandCache(stream);
    frames := [];
    var i := 0;
    while i < |sizes|
      invariant 0 <= i <= |sizes| && |frames| == i
      invariant rc.Valid() && rc.rng.stream == stream
      invariant frames + Session(rc.State(), stream, colorParam, sizes[i..]) == Session(New(), stream, colorParam, sizes)
      invariant forall k :: 0 <= k < i && frames[k].Ok? ==>
        frames[k].value.foreground == FromRgb(stream(0), stream(1), stream(2))
    {
      ghost var s := rc.State();
      var frame := Draw(rc, colorParam, sizes[i].0, sizes[i].1);
      SessionStep(s, stream, colorParam, sizes, i);
      assert (frames + [frame]) + Session(rc.State(), stream, colorParam, sizes[i + 1..])
          == frames + ([frame] + Session(rc.State(), stream, colorParam, sizes[i + 1..]));
      frames := frames + [frame];
      i := i + 1;
    }
    assert sizes[i..] == [];
  }
}
