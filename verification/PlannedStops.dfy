/** Overlaying planned stops on a timeline. */
module PlannedStops {
  import opened Prelude
  import opened Timeline
  import opened Sorting

  ghost function OverlayAt(ivs: seq<StateInterval>, planned: seq<PlannedInterval>, t: int): Option<MachineState> {
    if StateAt(ivs, t).Some? && Covered(planned, t) then Some(PlannedStop) else StateAt(ivs, t)
  }

  /** A cut of the input survives only where both sides stay ordinary. */
  ghost predicate SeamKept(ivs: seq<StateInterval>, planned: seq<PlannedInterval>, t: int) {
    Seam(ivs, t) && !Covered(planned, t - 1) && !Covered(planned, t)
  }

  /** The meaning of the overlay: the same instants, `PlannedStop` exactly where a planned
      interval covers, every other instant unchanged, and planned pieces fully merged. */
  ghost predicate IsOverlay(ivs: seq<StateInterval>, planned: seq<PlannedInterval>, out: seq<StateInterval>) {
    && IsTimeline(out)
    && (forall t :: StateAt(out, t) == OverlayAt(ivs, planned, t))
    && (forall t :: Seam(out, t) <==> SeamKept(ivs, planned, t))
  }

  /** Planned stops already in the input are covered by the planned list: true of every
      timeline of ordinary states, and of every overlay result. */
  ghost predicate PlannedOnlyWhereCovered(ivs: seq<StateInterval>, planned: seq<PlannedInterval>) {
    forall t :: StateAt(ivs, t) == Some(PlannedStop) ==> Covered(planned, t)
  }

  /** The input read so far: whole intervals, then `iv` up to the cursor. */
  function Upto(base: seq<StateInterval>, iv: StateInterval, c: int): seq<StateInterval> {
    if iv.start < c then base + [iv.(end := c)] else base
  }

  /** On a list that ends by `c`, the state just before `c` is that of a piece touching `c`. */
  lemma LastTouches(ivs: seq<StateInterval>, c: int)
    requires IsTimeline(ivs) && (ivs != [] ==> ivs[|ivs| - 1].end <= c)
    ensures StateAt(ivs, c - 1) ==
            if ivs != [] && ivs[|ivs| - 1].end == c then Some(ivs[|ivs| - 1].state) else None
  {
    if ivs != [] && ivs[|ivs| - 1].end == c {
      StateAtIndex(ivs, |ivs| - 1, c - 1);
    } else {
      BeyondEnd(ivs, c - 1);
    }
  }

  lemma OverlayEnd(ivs: seq<StateInterval>, planned: seq<PlannedInterval>, out: seq<StateInterval>, c: int)
    requires IsTimeline(ivs) && (ivs != [] ==> ivs[|ivs| - 1].end <= c) && IsOverlay(ivs, planned, out)
    ensures out != [] ==> out[|out| - 1].end <= c
  {
    if out != [] {
      var t := out[|out| - 1].end - 1;
      StateAtIndex(out, |out| - 1, t);
      assert StateAt(ivs, t).Some?;
      var _ := IndexOfState(ivs, t);
    }
  }

  /** What is common to both ways of advancing the cursor. */
  ghost predicate Advancing(base: seq<StateInterval>, iv: StateInterval, planned: seq<PlannedInterval>,
                            out: seq<StateInterval>, c: int, e: int) {
    && IsTimeline(base) && (base != [] ==> base[|base| - 1].end <= iv.start <= c < e)
    && iv.start <= c < e
    && IsOverlay(Upto(base, iv, c), planned, out)
  }

  lemma UptoIsTimeline(base: seq<StateInterval>, iv: StateInterval, c: int)
    requires IsTimeline(base) && (base != [] ==> base[|base| - 1].end <= iv.start) && iv.start <= c
    ensures IsTimeline(Upto(base, iv, c))
    ensures Upto(base, iv, c) != [] ==> Upto(base, iv, c)[|Upto(base, iv, c)| - 1].end <= c
  {
    if iv.start < c {
      TimelineAppend(base, iv.(end := c));
    }
  }

  /** Lengthening the last interval. */
  lemma LengthenAt(base: seq<StateInterval>, x: StateInterval, e: int, t: int)
    requires x.start < x.end <= e
    ensures StateAt(base + [x.(end := e)], t) == if x.end <= t < e then Some(x.state) else StateAt(base + [x], t)
    ensures Seam(base + [x.(end := e)], t) <==> Seam(base + [x], t)
  {
    Append(base, x, t);
    Append(base, x.(end := e), t);
  }

  lemma UptoAt(base: seq<StateInterval>, iv: StateInterval, c: int, e: int, t: int)
    requires IsTimeline(base) && (base != [] ==> base[|base| - 1].end <= iv.start)
    requires iv.start <= c < e
    ensures StateAt(Upto(base, iv, e), t) == if c <= t < e then Some(iv.state) else StateAt(Upto(base, iv, c), t)
    ensures Seam(Upto(base, iv, e), t) <==>
            || Seam(Upto(base, iv, c), t)
            || (t == c == iv.start && StateAt(Upto(base, iv, c), t - 1) == Some(iv.state))
  {
    hide IsTimeline, StateAt, Seam;
    if iv.start < c {
      LengthenAt(base, iv.(end := c), e, t);
    } else {
      Append(base, iv.(end := e), t);
      LastTouches(base, iv.start);
    }
  }

  lemma OverlayPlainAt(base: seq<StateInterval>, iv: StateInterval, planned: seq<PlannedInterval>,
                       out: seq<StateInterval>, c: int, s: int, t: int)
    requires IsTimeline(base) && (base != [] ==> base[|base| - 1].end <= iv.start)
    requires iv.start <= c < s && iv.state != PlannedStop
    requires c <= t < s ==> !Covered(planned, t)
    requires IsTimeline(out) && (out != [] ==> out[|out| - 1].end <= c)
    requires iv.start < c ==> StateAt(out, c - 1) == Some(PlannedStop)
    requires StateAt(out, t) == OverlayAt(Upto(base, iv, c), planned, t)
    requires StateAt(out, t - 1) == OverlayAt(Upto(base, iv, c), planned, t - 1)
    requires Seam(out, t) <==> SeamKept(Upto(base, iv, c), planned, t)
    ensures StateAt(out + [StateInterval(iv.state, c, s)], t) == OverlayAt(Upto(base, iv, s), planned, t)
    ensures Seam(out + [StateInterval(iv.state, c, s)], t) <==> SeamKept(Upto(base, iv, s), planned, t)
  {
    Append(out, StateInterval(iv.state, c, s), t);
    UptoAt(base, iv, c, s, t);
    LastTouches(out, c);
  }

  /** An uncovered stretch `c..s` is written with the interval's own state. */
  lemma OverlayPlain(base: seq<StateInterval>, iv: StateInterval, planned: seq<PlannedInterval>,
                     out: seq<StateInterval>, c: int, s: int)
    requires Advancing(base, iv, planned, out, c, s) && iv.state != PlannedStop
    requires forall t :: c <= t < s ==> !Covered(planned, t)
    requires iv.start < c ==> StateAt(out, c - 1) == Some(PlannedStop)
    ensures IsOverlay(Upto(base, iv, s), planned, out + [StateInterval(iv.state, c, s)])
  {
    var x := StateInterval(iv.state, c, s);
    UptoIsTimeline(base, iv, c);
    OverlayEnd(Upto(base, iv, c), planned, out, c);
    TimelineAppend(out, x);
    forall t
      ensures StateAt(out + [x], t) == OverlayAt(Upto(base, iv, s), planned, t)
      ensures Seam(out + [x], t) <==> SeamKept(Upto(base, iv, s), planned, t)
    {
      assert StateAt(out, t - 1) == OverlayAt(Upto(base, iv, c), planned, t - 1);
      OverlayPlainAt(base, iv, planned, out, c, s, t);
    }
  }

  /** Writing planned time `c..e`: extend a planned piece that touches `c`, or start one. */
  function WithPlanned(out: seq<StateInterval>, c: int, e: int): seq<StateInterval> {
    if out != [] && out[|out| - 1].state == PlannedStop && out[|out| - 1].end == c
    then out[..|out| - 1] + [out[|out| - 1].(end := e)]
    else out + [StateInterval(PlannedStop, c, e)]
  }

  lemma WithPlannedIsTimeline(out: seq<StateInterval>, c: int, e: int)
    requires IsTimeline(out) && (out != [] ==> out[|out| - 1].end <= c) && c < e
    ensures IsTimeline(WithPlanned(out, c, e))
  {
    if out != [] && out[|out| - 1].state == PlannedStop && out[|out| - 1].end == c {
      TimelineInit(out);
      TimelineAppend(out[..|out| - 1], out[|out| - 1].(end := e));
    } else {
      TimelineAppend(out, StateInterval(PlannedStop, c, e));
    }
  }

  /** A covered stretch `c..e` is written as planned time. */
  lemma OverlayCovered(base: seq<StateInterval>, iv: StateInterval, planned: seq<PlannedInterval>,
                       out: seq<StateInterval>, c: int, e: int)
    requires Advancing(base, iv, planned, out, c, e)
    requires forall t :: c <= t < e ==> Covered(planned, t)
    ensures IsOverlay(Upto(base, iv, e), planned, WithPlanned(out, c, e))
  {
    hide StateAt, Seam, Covered;
    UptoIsTimeline(base, iv, c);
    OverlayEnd(Upto(base, iv, c), planned, out, c);
    WithPlannedIsTimeline(out, c, e);
    hide IsTimeline, Upto;
    var touches := out != [] && out[|out| - 1].state == PlannedStop && out[|out| - 1].end == c;
    assert touches ==> out == out[..|out| - 1] + [out[|out| - 1]];
    forall t
      ensures StateAt(WithPlanned(out, c, e), t) == OverlayAt(Upto(base, iv, e), planned, t)
      ensures Seam(WithPlanned(out, c, e), t) <==> SeamKept(Upto(base, iv, e), planned, t)
    {
      UptoAt(base, iv, c, e, t);
      if touches {
        LengthenAt(out[..|out| - 1], out[|out| - 1], e, t);
      } else {
        Append(out, StateInterval(PlannedStop, c, e), t);
      }
      assert StateAt(out, t) == OverlayAt(Upto(base, iv, c), planned, t);
      assert Seam(out, t) <==> SeamKept(Upto(base, iv, c), planned, t);
    }
  }

  // ---- The loop ------------------------------------------------------------

  /** Planned overlaps clipped to `iv` (empty overlaps dropped), in planned order. */
  function Clip(planned: seq<PlannedInterval>, iv: StateInterval): (cuts: seq<PlannedInterval>)
    ensures forall c :: c in cuts ==> iv.start <= c.start < c.end <= iv.end
    ensures forall t :: iv.Contains(t) ==> (Covered(cuts, t) <==> Covered(planned, t))
  {
    if planned == [] then []
    else
      var init, p := planned[..|planned| - 1], planned[|planned| - 1];
      var s := if p.start > iv.start then p.start else iv.start;
      var e := if p.end < iv.end then p.end else iv.end;
      var rest := Clip(init, iv);
      assert planned == init + [p];
      if s < e then
        var cuts := rest + [PlannedInterval(s, e)];
        assert forall t :: Covered(planned, t) <==> Covered(init, t) || p.Contains(t) by { CoveredAppend(init, p); }
        assert forall t :: Covered(cuts, t) <==> Covered(rest, t) || s <= t < e by {
          CoveredAppend(rest, PlannedInterval(s, e));
        }
        cuts
      else
        assert forall t :: Covered(planned, t) <==> Covered(init, t) || p.Contains(t) by { CoveredAppend(init, p); }
        rest
  }

  lemma CoveredAppend(planned: seq<PlannedInterval>, p: PlannedInterval)
    ensures forall t :: Covered(planned + [p], t) <==> Covered(planned, t) || p.Contains(t)
  {
    forall t
      ensures Covered(planned + [p], t) <==> Covered(planned, t) || p.Contains(t)
    {
      if Covered(planned, t) {
        var q :| q in planned && q.Contains(t);
        assert q in planned + [p];
      }
      if p.Contains(t) {
        assert p in planned + [p];
      }
    }
  }

  function SortCuts(cuts: seq<PlannedInterval>): (r: seq<PlannedInterval>)
    ensures forall i, j :: 0 <= i < j < |r| ==> r[i].start <= r[j].start
    ensures forall c :: c in r <==> c in cuts
  {
    var le := (a: PlannedInterval, b: PlannedInterval) => a.start <= b.start;
    var r := SortBy(cuts, le);
    SameMembers(r, cuts);
    r
  }

  function Max(a: int, b: int): int {
    if a > b then a else b
  }

  /** The overlay is done for everything before the cursor, and the cursor is the start of
      `iv` or the end of a planned piece. */
  ghost predicate Laid(base: seq<StateInterval>, iv: StateInterval, planned: seq<PlannedInterval>,
                       out: seq<StateInterval>, cursor: int) {
    && IsTimeline(base) && iv.start < iv.end && (base != [] ==> base[|base| - 1].end <= iv.start)
    && (iv.state == PlannedStop ==> forall t :: iv.Contains(t) ==> Covered(planned, t))
    && iv.start <= cursor <= iv.end
    && IsOverlay(Upto(base, iv, cursor), planned, out)
    && (out != [] ==> out[|out| - 1].end <= cursor)
    && (iv.start < cursor ==> out != [] && out[|out| - 1].state == PlannedStop && out[|out| - 1].end == cursor)
  }

  lemma LayPlain(base: seq<StateInterval>, iv: StateInterval, planned: seq<PlannedInterval>,
                 out: seq<StateInterval>, cursor: int, s: int)
    requires Laid(base, iv, planned, out, cursor) && cursor < s <= iv.end
    requires forall t :: cursor <= t < s ==> !Covered(planned, t)
    ensures IsOverlay(Upto(base, iv, s), planned, out + [StateInterval(iv.state, cursor, s)])
    ensures iv.state != PlannedStop
  {
    assert iv.Contains(cursor) && !Covered(planned, cursor);
    LastTouches(out, cursor);
    OverlayPlain(base, iv, planned, out, cursor, s);
  }

  /** Lay one planned overlap `s..e` over `iv`. */
  method LayCut(ghost base: seq<StateInterval>, iv: StateInterval, ghost planned: seq<PlannedInterval>,
                out0: seq<StateInterval>, cursor: int, s: int, e: int)
    returns (out: seq<StateInterval>, cursor': int)
    requires Laid(base, iv, planned, out0, cursor) && iv.start <= s < e <= iv.end
    requires forall t :: cursor <= t < s ==> !Covered(planned, t)
    requires forall t :: s <= t < e ==> Covered(planned, t)
    ensures Laid(base, iv, planned, out, cursor') && cursor <= cursor' && e <= cursor'
  {
    hide IsOverlay;
    out := out0;
    if s > cursor {
      LayPlain(base, iv, planned, out, cursor, s);
      out := out + [StateInterval(iv.state, cursor, s)];
    }
    if e > Max(s, cursor) {
      OverlayCovered(base, iv, planned, out, Max(s, cursor), e);
    }
    if out != [] && out[|out| - 1].state == PlannedStop && out[|out| - 1].end >= Max(s, cursor) {
      var last := out[|out| - 1];
      assert out == out[..|out| - 1] + [last];
      out := out[..|out| - 1] + [last.(end := Max(last.end, e))];
      cursor' := Max(last.end, e);
    } else {
      out := out + [StateInterval(PlannedStop, Max(cursor, s), e)];
      cursor' := e;
    }
  }

  /** `cuts` are the planned overlaps of `iv`, sorted by start. */
  ghost predicate CutsOf(planned: seq<PlannedInterval>, iv: StateInterval, cuts: seq<PlannedInterval>) {
    && (forall i, j :: 0 <= i < j < |cuts| ==> cuts[i].start <= cuts[j].start)
    && (forall i :: 0 <= i < |cuts| ==> iv.start <= cuts[i].start < cuts[i].end <= iv.end)
    && (forall t :: iv.Contains(t) ==> (Covered(cuts, t) <==> Covered(planned, t)))
  }

  function Cuts(planned: seq<PlannedInterval>, iv: StateInterval): (cuts: seq<PlannedInterval>)
    ensures CutsOf(planned, iv, cuts)
  {
    var cuts := SortCuts(Clip(planned, iv));
    assert forall i :: 0 <= i < |cuts| ==> cuts[i] in cuts;
    cuts
  }

  /** One pass of the outer loop: lay every planned overlap of `iv` over it. */
  method OverlayInterval(ghost base: seq<StateInterval>, iv: StateInterval, planned: seq<PlannedInterval>,
                         out0: seq<StateInterval>)
    returns (out: seq<StateInterval>)
    requires Laid(base, iv, planned, out0, iv.start)
    ensures IsOverlay(base + [iv], planned, out)
  {
    hide *;
    out := out0;
    var cuts := Cuts(planned, iv);
    var cursor := iv.start;
    LaidBounds(base, iv, planned, out, cursor);
    for k := 0 to |cuts|
      invariant Laid(base, iv, planned, out, cursor) && iv.start <= cursor <= iv.end
      invariant forall j :: 0 <= j < k ==> cuts[j].end <= cursor
    {
      GapUncovered(planned, iv, cuts, k, cursor, cuts[k].start);
      CutCovers(planned, iv, cuts, k);
      out, cursor := LayCut(base, iv, planned, out, cursor, cuts[k].start, cuts[k].end);
      LaidBounds(base, iv, planned, out, cursor);
    }
    LaidBounds(base, iv, planned, out, cursor);
    if cursor < iv.end {
      GapUncovered(planned, iv, cuts, |cuts|, cursor, iv.end);
      LayEnd(base, iv, planned, out, cursor);
      out := out + [StateInterval(iv.state, cursor, iv.end)];
    }
  }

  lemma LaidBounds(base: seq<StateInterval>, iv: StateInterval, planned: seq<PlannedInterval>,
                   out: seq<StateInterval>, cursor: int)
    requires Laid(base, iv, planned, out, cursor)
    ensures iv.start <= cursor <= iv.end && iv.start < iv.end
    ensures cursor == iv.end ==> IsOverlay(base + [iv], planned, out)
  {
    assert iv.(end := iv.end) == iv;
  }

  lemma LayEnd(base: seq<StateInterval>, iv: StateInterval, planned: seq<PlannedInterval>,
               out: seq<StateInterval>, cursor: int)
    requires Laid(base, iv, planned, out, cursor) && cursor < iv.end
    requires forall t :: cursor <= t < iv.end ==> !Covered(planned, t)
    ensures IsOverlay(base + [iv], planned, out + [StateInterval(iv.state, cursor, iv.end)])
  {
    LayPlain(base, iv, planned, out, cursor, iv.end);
    assert iv.(end := iv.end) == iv;
  }

  /** Nothing covers the stretch between the cursor and the next cut. */
  lemma GapUncovered(planned: seq<PlannedInterval>, iv: StateInterval, cuts: seq<PlannedInterval>, k: int,
                     cursor: int, s: int)
    requires CutsOf(planned, iv, cuts)
    requires 0 <= k <= |cuts| && s == (if k < |cuts| then cuts[k].start else iv.end)
    requires forall j :: 0 <= j < k ==> cuts[j].end <= cursor
    requires iv.start <= cursor
    ensures forall t :: cursor <= t < s ==> !Covered(planned, t)
  {
  }

  lemma CutCovers(planned: seq<PlannedInterval>, iv: StateInterval, cuts: seq<PlannedInterval>, k: int)
    requires CutsOf(planned, iv, cuts) && 0 <= k < |cuts|
    ensures iv.start <= cuts[k].start < cuts[k].end <= iv.end
    ensures forall t :: cuts[k].start <= t < cuts[k].end ==> Covered(planned, t)
  {
    forall t | cuts[k].start <= t < cuts[k].end ensures Covered(planned, t) {
      assert cuts[k] in cuts && cuts[k].Contains(t);
      assert iv.Contains(t);
    }
  }

  /** The overlay loop, for any timeline and any planned list: unsorted, nested, touching,
      empty or inverted intervals included. */
  method ApplyPlannedStops(ivs: seq<StateInterval>, planned: seq<PlannedInterval>) returns (out: seq<StateInterval>)
    requires IsTimeline(ivs) && PlannedOnlyWhereCovered(ivs, planned)
    ensures IsOverlay(ivs, planned, out)
  {
    out := [];
    for n := 0 to |ivs|
      invariant IsOverlay(ivs[..n], planned, out)
    {
      ReadyFor(ivs, planned, n, out);
      out := OverlayInterval(ivs[..n], ivs[n], planned, out);
      assert ivs[..n + 1] == ivs[..n] + [ivs[n]];
    }
    assert ivs[..|ivs|] == ivs;
  }

  lemma ReadyFor(ivs: seq<StateInterval>, planned: seq<PlannedInterval>, n: nat, out: seq<StateInterval>)
    requires IsTimeline(ivs) && PlannedOnlyWhereCovered(ivs, planned)
    requires n < |ivs| && IsOverlay(ivs[..n], planned, out)
    ensures Laid(ivs[..n], ivs[n], planned, out, ivs[n].start)
  {
    OverlayEnd(ivs[..n], planned, out, ivs[n].start);
    forall t | ivs[n].Contains(t) && ivs[n].state == PlannedStop ensures Covered(planned, t) {
      StateAtIndex(ivs, n, t);
    }
  }

  // ---- The result is canonical ---------------------------------------------

  /** The two planned lists cover the same instants of the timeline. */
  ghost predicate SameCover(ivs: seq<StateInterval>, p: seq<PlannedInterval>, q: seq<PlannedInterval>) {
    forall t :: StateAt(ivs, t).Some? ==> (Covered(p, t) <==> Covered(q, t))
  }

  /** The output list depends only on which instants are covered. */
  lemma OverlayCanonical(ivs: seq<StateInterval>, p: seq<PlannedInterval>, q: seq<PlannedInterval>,
                         a: seq<StateInterval>, b: seq<StateInterval>)
    requires IsTimeline(ivs) && SameCover(ivs, p, q)
    requires IsOverlay(ivs, p, a) && IsOverlay(ivs, q, b)
    ensures a == b
  {
    forall t ensures StateAt(a, t) == StateAt(b, t) && (Seam(a, t) <==> Seam(b, t)) {
      if Seam(ivs, t) {
        SeamStates(ivs, t);
      }
    }
    TimelineExtensionality(a, b);
  }

  /** Reordering the planned list changes nothing. */
  lemma OverlayPermutation(ivs: seq<StateInterval>, p: seq<PlannedInterval>, q: seq<PlannedInterval>,
                           a: seq<StateInterval>, b: seq<StateInterval>)
    requires IsTimeline(ivs) && multiset(p) == multiset(q)
    requires IsOverlay(ivs, p, a) && IsOverlay(ivs, q, b)
    ensures a == b
  {
    SameMembers(p, q);
    OverlayCanonical(ivs, p, q, a, b);
  }

  /** Adding planned intervals whose instants are covered already changes nothing. */
  lemma OverlayAbsorbs(ivs: seq<StateInterval>, p: seq<PlannedInterval>, extra: seq<PlannedInterval>,
                       a: seq<StateInterval>, b: seq<StateInterval>)
    requires IsTimeline(ivs)
    requires forall t :: Covered(extra, t) && StateAt(ivs, t).Some? ==> Covered(p, t)
    requires IsOverlay(ivs, p, a) && IsOverlay(ivs, p + extra, b)
    ensures a == b
  {
    forall t | StateAt(ivs, t).Some? ensures Covered(p, t) <==> Covered(p + extra, t) {
      if Covered(p, t) {
        var x :| x in p && x.Contains(t);
        assert x in p + extra;
      }
      if Covered(p + extra, t) {
        var x :| x in p + extra && x.Contains(t);
        assert x in extra ==> Covered(extra, t);
      }
    }
    OverlayCanonical(ivs, p, p + extra, a, b);
  }

  /** Laying the same planned list over its own result changes nothing. */
  lemma OverlayIdempotent(ivs: seq<StateInterval>, p: seq<PlannedInterval>, a: seq<StateInterval>,
                          b: seq<StateInterval>)
    requires IsTimeline(ivs) && PlannedOnlyWhereCovered(ivs, p)
    requires IsOverlay(ivs, p, a) && IsOverlay(a, p, b)
    ensures PlannedOnlyWhereCovered(a, p) && a == b
  {
    forall t ensures StateAt(a, t) == OverlayAt(a, p, t) && (Seam(a, t) <==> SeamKept(a, p, t)) {
      assert StateAt(a, t) == OverlayAt(ivs, p, t);
      assert Seam(a, t) <==> SeamKept(ivs, p, t);
    }
    assert IsOverlay(a, p, a);
    OverlayCanonical(a, p, p, a, b);
  }

  /** Without planned stops the overlay is the timeline itself. */
  lemma OverlayNothing(raw: seq<StateInterval>)
    requires IsTimeline(raw)
    ensures IsOverlay(raw, [], raw)
  {
    assert forall t :: !Covered([], t);
  }

  /** No two planned pieces of an overlay touch. */
  lemma PlannedPiecesApart(ivs: seq<StateInterval>, p: seq<PlannedInterval>, a: seq<StateInterval>, i: int)
    requires IsTimeline(ivs) && PlannedOnlyWhereCovered(ivs, p) && IsOverlay(ivs, p, a)
    requires 0 < i < |a| && a[i - 1].state == a[i].state == PlannedStop
    ensures a[i - 1].end < a[i].start
  {
    if a[i - 1].end == a[i].start {
      IndexSeam(a, i);
      StateAtIndex(a, i, a[i].start);
    }
  }
}
