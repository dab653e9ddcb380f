/** Machine-state timelines: lists of non-overlapping, single-state intervals.

    Time is an integer count of clock ticks, and an interval holds the instants
    `start <= t < end`.  A timeline is observed in two ways: the state at each
    instant, and the *seams*, the instants where two touching intervals of the
    same state meet.  `TimelineExtensionality` shows that these two observations
    determine the list itself.
 */
module Timeline {
  import opened Prelude

  datatype MachineState = Running | MicroStop | Down | PlannedStop

  datatype StateInterval = StateInterval(state: MachineState, start: int, end: int) {
    predicate Contains(t: int) {
      start <= t < end
    }
  }

  datatype PlannedInterval = PlannedInterval(start: int, end: int) {
    predicate Contains(t: int) {
      start <= t < end
    }
  }

  ghost predicate IsTimeline(ivs: seq<StateInterval>) {
    && (forall i :: 0 <= i < |ivs| ==> ivs[i].start < ivs[i].end)
    && (forall i, j :: 0 <= i < j < |ivs| ==> ivs[i].end <= ivs[j].start)
  }

  /** The state the list shows at instant `t`, if any. */
  function StateAt(ivs: seq<StateInterval>, t: int): Option<MachineState> {
    if ivs == [] then None
    else if ivs[|ivs| - 1].Contains(t) then Some(ivs[|ivs| - 1].state)
    else StateAt(ivs[..|ivs| - 1], t)
  }

  /** Two neighbouring intervals of one state meet at `t`. */
  predicate Seam(ivs: seq<StateInterval>, t: int) {
    var n := |ivs|;
    n >= 2 &&
    ((ivs[n - 2].end == t == ivs[n - 1].start && ivs[n - 2].state == ivs[n - 1].state)
     || Seam(ivs[..n - 1], t))
  }

  /** Some planned stop covers `t`. */
  ghost predicate Covered(planned: seq<PlannedInterval>, t: int) {
    exists p :: p in planned && p.Contains(t)
  }

  lemma Append(ivs: seq<StateInterval>, x: StateInterval, t: int)
    ensures StateAt(ivs + [x], t) == if x.Contains(t) then Some(x.state) else StateAt(ivs, t)
    ensures Seam(ivs + [x], t) <==>
            || Seam(ivs, t)
            || (ivs != [] && ivs[|ivs| - 1].end == t == x.start && ivs[|ivs| - 1].state == x.state)
  {
    assert (ivs + [x])[..|ivs|] == ivs;
  }

  lemma TimelineAppend(ivs: seq<StateInterval>, x: StateInterval)
    requires IsTimeline(ivs) && x.start < x.end && (ivs != [] ==> ivs[|ivs| - 1].end <= x.start)
    ensures IsTimeline(ivs + [x])
  {
    forall i, j | 0 <= i < j < |ivs + [x]| ensures (ivs + [x])[i].end <= (ivs + [x])[j].start {
      if j == |ivs| && i < |ivs| - 1 {
        assert ivs[i].end <= ivs[|ivs| - 1].start;
      }
    }
  }

  lemma TimelineInit(ivs: seq<StateInterval>)
    requires IsTimeline(ivs) && ivs != []
    ensures IsTimeline(ivs[..|ivs| - 1])
    ensures |ivs| > 1 ==> ivs[|ivs| - 2].end <= ivs[|ivs| - 1].start
  {
  }

  lemma {:induction false} StateAtIndex(ivs: seq<StateInterval>, i: int, t: int)
    requires IsTimeline(ivs) && 0 <= i < |ivs| && ivs[i].Contains(t)
    ensures StateAt(ivs, t) == Some(ivs[i].state)
  {
    if i < |ivs| - 1 {
      StateAtIndex(ivs[..|ivs| - 1], i, t);
    }
  }

  lemma LastState(ivs: seq<StateInterval>)
    requires IsTimeline(ivs) && ivs != []
    ensures StateAt(ivs, ivs[|ivs| - 1].end - 1) == Some(ivs[|ivs| - 1].state)
  {
  }

  lemma {:induction false} IndexOfState(ivs: seq<StateInterval>, t: int) returns (i: int)
    requires StateAt(ivs, t).Some?
    ensures 0 <= i < |ivs| && ivs[i].Contains(t) && StateAt(ivs, t) == Some(ivs[i].state)
  {
    i := |ivs| - 1;
    if !ivs[i].Contains(t) {
      i := IndexOfState(ivs[..|ivs| - 1], t);
    }
  }

  lemma {:induction false} SeamIndex(ivs: seq<StateInterval>, t: int) returns (i: int)
    requires Seam(ivs, t)
    ensures 0 < i < |ivs| && ivs[i - 1].end == t == ivs[i].start && ivs[i - 1].state == ivs[i].state
  {
    i := |ivs| - 1;
    if !(ivs[i - 1].end == t == ivs[i].start && ivs[i - 1].state == ivs[i].state) {
      i := SeamIndex(ivs[..|ivs| - 1], t);
    }
  }

  lemma {:induction false} IndexSeam(ivs: seq<StateInterval>, i: int)
    requires 0 < i < |ivs| && ivs[i - 1].end == ivs[i].start && ivs[i - 1].state == ivs[i].state
    ensures Seam(ivs, ivs[i].start)
  {
    if i < |ivs| - 1 {
      IndexSeam(ivs[..|ivs| - 1], i);
    }
  }

  /** Both sides of a seam show its state. */
  lemma SeamStates(ivs: seq<StateInterval>, t: int)
    requires IsTimeline(ivs) && Seam(ivs, t)
    ensures StateAt(ivs, t).Some? && StateAt(ivs, t - 1) == StateAt(ivs, t)
  {
    var i := SeamIndex(ivs, t);
    StateAtIndex(ivs, i - 1, t - 1);
    StateAtIndex(ivs, i, t);
  }

  /** Nothing of a timeline lies at or beyond its last end. */
  lemma BeyondEnd(ivs: seq<StateInterval>, t: int)
    requires IsTimeline(ivs)
    requires ivs == [] || ivs[|ivs| - 1].end <= t
    ensures StateAt(ivs, t) == None && !Seam(ivs, t)
  {
    if StateAt(ivs, t).Some? {
      var _ := IndexOfState(ivs, t);
    }
    if Seam(ivs, t) {
      var _ := SeamIndex(ivs, t);
    }
  }

  /** The two lists look the same at every instant. */
  ghost predicate Same(a: seq<StateInterval>, b: seq<StateInterval>) {
    forall t :: StateAt(a, t) == StateAt(b, t) && (Seam(a, t) <==> Seam(b, t))
  }

  /** What dropping the last interval does to both observations. */
  lemma DropLast(a: seq<StateInterval>, t: int)
    requires IsTimeline(a) && a != []
    ensures var init, last := a[..|a| - 1], a[|a| - 1];
            && StateAt(init, t) == (if t < last.start then StateAt(a, t) else None)
            && (Seam(init, t) <==> Seam(a, t) && t < last.start)
  {
    var init, last := a[..|a| - 1], a[|a| - 1];
    if t >= last.start {
      BeyondEnd(init, t);
    }
  }

  lemma LastEnds(a: seq<StateInterval>, b: seq<StateInterval>)
    requires IsTimeline(a) && IsTimeline(b) && Same(a, b) && a != []
    ensures b != [] && a[|a| - 1].end <= b[|b| - 1].end
  {
    var last := a[|a| - 1].end - 1;
    StateAtIndex(a, |a| - 1, last);
    assert StateAt(b, last).Some?;
    var _ := IndexOfState(b, last);
  }

  lemma LastStarts(a: seq<StateInterval>, b: seq<StateInterval>)
    requires IsTimeline(a) && IsTimeline(b) && Same(a, b) && a != [] && b != []
    requires a[|a| - 1].end == b[|b| - 1].end
    ensures b[|b| - 1].start <= a[|a| - 1].start
  {
    var x, y := a[|a| - 1], b[|b| - 1];
    if x.start < y.start {
      // Then `y.start` is inside `x`, so `b` must have a seam there and `a` cannot.
      var t := y.start;
      StateAtIndex(a, |a| - 1, t - 1);
      StateAtIndex(a, |a| - 1, t);
      StateAtIndex(b, |b| - 1, t);
      assert StateAt(b, t - 1) == StateAt(a, t - 1) == Some(y.state);
      var i := IndexOfState(b, t - 1);
      assert i == |b| - 2;
      assert Seam(b, t);
      assert Seam(a, t);
      var _ := SeamIndex(a, t);
    }
  }

  lemma SameLast(a: seq<StateInterval>, b: seq<StateInterval>)
    requires IsTimeline(a) && IsTimeline(b) && Same(a, b) && a != []
    ensures b != [] && a[|a| - 1] == b[|b| - 1]
  {
    LastEnds(a, b);
    LastEnds(b, a);
    LastStarts(a, b);
    LastStarts(b, a);
    var t := a[|a| - 1].start;
    StateAtIndex(a, |a| - 1, t);
    StateAtIndex(b, |b| - 1, t);
    assert StateAt(a, t) == StateAt(b, t);
  }

  lemma SameInit(a: seq<StateInterval>, b: seq<StateInterval>)
    requires IsTimeline(a) && IsTimeline(b) && Same(a, b)
    requires a != [] && b != [] && a[|a| - 1] == b[|b| - 1]
    ensures Same(a[..|a| - 1], b[..|b| - 1])
  {
    var a', b' := a[..|a| - 1], b[..|b| - 1];
    forall t
      ensures StateAt(a', t) == StateAt(b', t) && (Seam(a', t) <==> Seam(b', t))
    {
      DropLast(a, t);
      DropLast(b, t);
      assert StateAt(a, t) == StateAt(b, t);
    }
  }

  /** Timelines with the same state at every instant and the same seams are equal. */
  lemma {:induction false} TimelineExtensionality(a: seq<StateInterval>, b: seq<StateInterval>)
    requires IsTimeline(a) && IsTimeline(b) && Same(a, b)
    ensures a == b
    decreases |a|
  {
    if a == [] {
      if b != [] {
        LastEnds(b, a);
      }
    } else {
      SameLast(a, b);
      SameInit(a, b);
      var a', b' := a[..|a| - 1], b[..|b| - 1];
      TimelineExtensionality(a', b');
      assert a == a' + [a[|a| - 1]] && b == b' + [b[|b| - 1]];
    }
  }
}
