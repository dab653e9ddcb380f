/** The machine state machine: debounced pulses to a timeline of running and stopped spans. */
module StateMachine {
  import opened Prelude
  import opened Timeline
  import opened Sorting

  datatype StateConfig = StateConfig(microStopAfter: int, downAfter: int, debounce: int)

  /** The thresholds the pipeline uses, in microseconds: 60 s, 300 s and 2 s. */
  const DEFAULT_CONFIG := StateConfig(60_000_000, 300_000_000, 2_000_000)

  function ClassifyStop(cfg: StateConfig, span: int): MachineState {
    if span <= cfg.downAfter then MicroStop else Down
  }

  // ---- Debounce ------------------------------------------------------------

  predicate Keeps(kept: seq<int>, p: int, minGap: int) {
    kept == [] || (p - kept[|kept| - 1] >= minGap && p >= kept[|kept| - 1])
  }

  function Debounced(pulses: seq<int>, minGap: int): seq<int> {
    if pulses == [] then []
    else
      var kept := Debounced(pulses[..|pulses| - 1], minGap);
      var p := pulses[|pulses| - 1];
      if Keeps(kept, p, minGap) then kept + [p] else kept
  }

  /** Consecutive kept pulses are at least `minGap` apart, and in order. */
  ghost predicate Spaced(xs: seq<int>, minGap: int) {
    forall i :: 0 < i < |xs| ==> xs[i] - xs[i - 1] >= minGap && xs[i] >= xs[i - 1]
  }

  method Debounce(pulses: seq<int>, minGap: int) returns (kept: seq<int>)
    ensures kept == Debounced(pulses, minGap)
  {
    kept := [];
    for i := 0 to |pulses|
      invariant kept == Debounced(pulses[..i], minGap)
    {
      assert pulses[..i + 1][..i] == pulses[..i];
      var p := pulses[i];
      if kept != [] && p - kept[|kept| - 1] < minGap {
      } else if kept != [] && p < kept[|kept| - 1] {
      } else {
        kept := kept + [p];
      }
    }
    assert pulses[..|pulses|] == pulses;
  }

  lemma {:induction false} SpacedAscends(xs: seq<int>, minGap: int, i: int, j: int)
    requires Spaced(xs, minGap) && 0 <= i <= j < |xs|
    ensures xs[i] <= xs[j]
    decreases j
  {
    if i < j {
      SpacedAscends(xs, minGap, i, j - 1);
    }
  }

  lemma {:induction false} DebounceSpaced(pulses: seq<int>, minGap: int)
    ensures var kept := Debounced(pulses, minGap);
            Spaced(kept, minGap) && (pulses != [] ==> kept != [] && kept[0] == pulses[0])
  {
    if pulses != [] {
      DebounceSpaced(pulses[..|pulses| - 1], minGap);
    }
  }

  lemma {:induction false} DebounceSelects(pulses: seq<int>, minGap: int)
    ensures forall p :: p in Debounced(pulses, minGap) ==> p in pulses
  {
    if pulses != [] {
      DebounceSelects(pulses[..|pulses| - 1], minGap);
      assert pulses == pulses[..|pulses| - 1] + [pulses[|pulses| - 1]];
    }
  }

  /** For pulses in any order: the kept ones come from the input, ascend, are spaced by the
      debounce gap, and start with the first pulse. */
  lemma DebounceMeaning(pulses: seq<int>, minGap: int)
    ensures var kept := Debounced(pulses, minGap);
            && Ascending(kept) && Spaced(kept, minGap)
            && (forall p :: p in kept ==> p in pulses)
            && (pulses != [] ==> kept != [] && kept[0] == pulses[0])
  {
    hide Debounced, Spaced;
    DebounceSpaced(pulses, minGap);
    DebounceSelects(pulses, minGap);
    var kept := Debounced(pulses, minGap);
    forall i, j | 0 <= i < j < |kept| ensures kept[i] <= kept[j] {
      SpacedAscends(kept, minGap, i, j);
    }
  }

  /** What was kept stays kept: the result for the first pulses is a prefix of the result. */
  lemma {:induction false} DebouncePrefix(pulses: seq<int>, minGap: int, i: nat)
    requires i <= |pulses|
    ensures Debounced(pulses[..i], minGap) <= Debounced(pulses, minGap)
    decreases |pulses|
  {
    if i == |pulses| {
      assert pulses[..i] == pulses;
    } else {
      var init := pulses[..|pulses| - 1];
      DebouncePrefix(init, minGap, i);
      assert init[..i] == pulses[..i];
    }
  }

  /** Pulse `i` is dropped exactly when it comes before the last pulse kept so far, or less than
      the debounce gap after it; otherwise it is the next one kept. */
  lemma DebounceDrops(pulses: seq<int>, minGap: int, i: nat)
    requires i < |pulses|
    ensures var before, after := Debounced(pulses[..i], minGap), Debounced(pulses[..i + 1], minGap);
            if before != [] && (pulses[i] < before[|before| - 1] || pulses[i] - before[|before| - 1] < minGap)
            then after == before
            else after == before + [pulses[i]]
  {
    assert pulses[..i + 1][..i] == pulses[..i];
  }

  /** For ascending pulses every pulse is kept or follows a kept one within the gap. */
  lemma DebounceAscending(pulses: seq<int>, minGap: int, i: nat) returns (q: int)
    requires Ascending(pulses) && i < |pulses|
    ensures q in Debounced(pulses, minGap) && q <= pulses[i] && (q == pulses[i] || pulses[i] - q < minGap)
  {
    var before, after := Debounced(pulses[..i], minGap), Debounced(pulses[..i + 1], minGap);
    DebounceDrops(pulses, minGap, i);
    DebounceMeaning(pulses[..i], minGap);
    DebouncePrefix(pulses, minGap, i + 1);
    q := after[|after| - 1];
    assert q in after;
    if after == before {
      assert q in pulses[..i];
      var j :| 0 <= j < i && pulses[..i][j] == q;
      assert pulses[j] <= pulses[i];
    }
  }

  /** A list that is already spaced passes through unchanged. */
  lemma {:induction false} SpacedIsKept(xs: seq<int>, minGap: int)
    requires Spaced(xs, minGap)
    ensures Debounced(xs, minGap) == xs
  {
    if xs != [] {
      SpacedIsKept(xs[..|xs| - 1], minGap);
      assert xs == xs[..|xs| - 1] + [xs[|xs| - 1]];
    }
  }

  lemma {:induction false} DebounceIdempotent(pulses: seq<int>, minGap: int)
    ensures Debounced(Debounced(pulses, minGap), minGap) == Debounced(pulses, minGap)
  {
    DebounceMeaning(pulses, minGap);
    SpacedIsKept(Debounced(pulses, minGap), minGap);
  }

  // ---- Raw timeline --------------------------------------------------------

  /** The state a gap between two neighbouring marks stands for. */
  function GapState(cfg: StateConfig, gap: int): MachineState {
    if gap <= cfg.microStopAfter then Running else ClassifyStop(cfg, gap)
  }

  /** The naive reading of a pulse stream: between neighbouring marks (window edges and
      kept pulses) the state is that of the gap's length. */
  function NaiveAt(cfg: StateConfig, marks: seq<int>, t: int): Option<MachineState> {
    var n := |marks|;
    if n < 2 then None
    else if marks[n - 2] <= t < marks[n - 1] then Some(GapState(cfg, marks[n - 1] - marks[n - 2]))
    else NaiveAt(cfg, marks[..n - 1], t)
  }

  /** `NaiveAt` looks up the one gap that holds `t`. */
  lemma {:induction false} NaiveAtGap(cfg: StateConfig, marks: seq<int>, k: int, t: int)
    requires Ascending(marks) && 0 <= k < |marks| - 1 && marks[k] <= t < marks[k + 1]
    ensures NaiveAt(cfg, marks, t) == Some(GapState(cfg, marks[k + 1] - marks[k]))
  {
    if k < |marks| - 2 {
      NaiveAtGap(cfg, marks[..|marks| - 1], k, t);
    }
  }

  /** Where the naive reading shows a state, some gap holds the instant. */
  lemma {:induction false} NaiveGap(cfg: StateConfig, marks: seq<int>, t: int) returns (k: int)
    requires NaiveAt(cfg, marks, t).Some?
    ensures 0 <= k < |marks| - 1 && marks[k] <= t < marks[k + 1]
    ensures NaiveAt(cfg, marks, t) == Some(GapState(cfg, marks[k + 1] - marks[k]))
  {
    var n := |marks|;
    k := n - 2;
    if !(marks[n - 2] <= t < marks[n - 1]) {
      k := NaiveGap(cfg, marks[..n - 1], t);
    }
  }

  /** Together the gaps tile the window from the first mark to the last. */
  lemma {:induction false} NaiveAtTiles(cfg: StateConfig, marks: seq<int>, t: int)
    requires Ascending(marks) && marks != []
    ensures NaiveAt(cfg, marks, t).Some? <==> marks[0] <= t < marks[|marks| - 1]
  {
    if |marks| >= 2 {
      NaiveAtTiles(cfg, marks[..|marks| - 1], t);
    }
  }

  lemma NaiveAppend(cfg: StateConfig, marks: seq<int>, b: int, t: int)
    requires marks != []
    ensures NaiveAt(cfg, marks + [b], t) ==
            if marks[|marks| - 1] <= t < b then Some(GapState(cfg, b - marks[|marks| - 1])) else NaiveAt(cfg, marks, t)
  {
    assert (marks + [b])[..|marks|] == marks;
  }

  /** A stop is cut at every mark inside it; a running span never is. */
  ghost predicate StopMark(cfg: StateConfig, marks: seq<int>, t: int) {
    && t in marks
    && NaiveAt(cfg, marks, t).Some?
    && NaiveAt(cfg, marks, t - 1) == NaiveAt(cfg, marks, t) != Some(Running)
  }

  ghost predicate PerGap(cfg: StateConfig, marks: seq<int>, out: seq<StateInterval>) {
    && IsTimeline(out)
    && (forall t :: StateAt(out, t) == NaiveAt(cfg, marks, t))
    && (forall t :: Seam(out, t) <==> StopMark(cfg, marks, t))
  }

  /** The raw timeline of a window. */
  ghost predicate IsRaw(cfg: StateConfig, pulses: seq<int>, ws: int, we: int, out: seq<StateInterval>) {
    var kept := Debounced(pulses, cfg.debounce);
    if we <= ws then out == []
    else if pulses == [] then out == [StateInterval(ClassifyStop(cfg, we - ws), ws, we)]
    else PerGap(cfg, [ws] + kept + [we], out)
  }

  /** The running span being collected, appended to what is already closed. */
  function Pending(out: seq<StateInterval>, runStart: int, last: int): seq<StateInterval> {
    if runStart < last then out + [StateInterval(Running, runStart, last)] else out
  }

  /** A per-gap timeline reaches exactly to its last mark. */
  lemma PerGapEnd(cfg: StateConfig, marks: seq<int>, out: seq<StateInterval>)
    requires marks != [] && Ascending(marks) && PerGap(cfg, marks, out)
    ensures out == [] ==> marks[0] == marks[|marks| - 1]
    ensures out != [] ==> out[|out| - 1].end == marks[|marks| - 1]
  {
    var a := marks[|marks| - 1];
    if out != [] {
      var t := out[|out| - 1].end - 1;
      StateAtIndex(out, |out| - 1, t);
      NaiveAtTiles(cfg, marks, t);
    }
    if marks[0] < a {
      NaiveAtTiles(cfg, marks, a - 1);
      assert StateAt(out, a - 1).Some?;
      var _ := IndexOfState(out, a - 1);
    }
  }

  lemma PerGapPushAt(cfg: StateConfig, marks: seq<int>, out: seq<StateInterval>, x: StateInterval, t: int)
    requires marks != [] && Ascending(marks) && x.start == marks[|marks| - 1] < x.end
    requires x.state == GapState(cfg, x.end - x.start)
    requires out == [] ==> marks[0] == x.start
    requires out != [] ==> out[|out| - 1].end == x.start && StateAt(out, x.start - 1) == Some(out[|out| - 1].state)
    requires x.state == Running && out != [] ==> out[|out| - 1].state != Running
    requires StateAt(out, t) == NaiveAt(cfg, marks, t)
    requires StateAt(out, t - 1) == NaiveAt(cfg, marks, t - 1)
    requires Seam(out, t) <==> StopMark(cfg, marks, t)
    ensures StateAt(out + [x], t) == NaiveAt(cfg, marks + [x.end], t)
    ensures Seam(out + [x], t) <==> StopMark(cfg, marks + [x.end], t)
  {
    hide StateAt, Seam, NaiveAt;
    Append(out, x, t);
    NaiveAppend(cfg, marks, x.end, t);
    NaiveAppend(cfg, marks, x.end, t - 1);
    NaiveAtTiles(cfg, marks, t);
    NaiveAtTiles(cfg, marks, t - 1);
  }

  /** One more mark `b` after the last mark, whose gap becomes a new piece. */
  lemma PerGapPush(cfg: StateConfig, marks: seq<int>, out: seq<StateInterval>, b: int)
    requires marks != [] && Ascending(marks) && marks[|marks| - 1] < b && PerGap(cfg, marks, out)
    requires GapState(cfg, b - marks[|marks| - 1]) == Running ==> out == [] || out[|out| - 1].state != Running
    ensures PerGap(cfg, marks + [b],
                   out + [StateInterval(GapState(cfg, b - marks[|marks| - 1]), marks[|marks| - 1], b)])
  {
    hide StateAt, Seam, NaiveAt, StopMark, IsTimeline;
    var a := marks[|marks| - 1];
    var x := StateInterval(GapState(cfg, b - a), a, b);
    PerGapEnd(cfg, marks, out);
    if out != [] {
      LastState(out);
    }
    TimelineAppend(out, x);
    forall t
      ensures StateAt(out + [x], t) == NaiveAt(cfg, marks + [b], t)
      ensures Seam(out + [x], t) <==> StopMark(cfg, marks + [b], t)
    {
      assert StateAt(out, t) == NaiveAt(cfg, marks, t) && StateAt(out, t - 1) == NaiveAt(cfg, marks, t - 1);
      PerGapPushAt(cfg, marks, out, x, t);
    }
  }

  /** One more mark `b` whose gap continues the running piece at the end. */
  lemma PerGapExtend(cfg: StateConfig, marks: seq<int>, init: seq<StateInterval>, x: StateInterval, b: int)
    requires marks != [] && Ascending(marks) && marks[|marks| - 1] <= b && PerGap(cfg, marks, init + [x])
    requires GapState(cfg, b - marks[|marks| - 1]) == Running && x.state == Running
    ensures PerGap(cfg, marks + [b], init + [x.(end := b)])
  {
    hide StateAt, Seam, NaiveAt;
    var out, out' := init + [x], init + [x.(end := b)];
    PerGapEnd(cfg, marks, out);
    assert out[|out| - 1] == x;
    forall t
      ensures StateAt(out', t) == NaiveAt(cfg, marks + [b], t)
      ensures Seam(out', t) <==> StopMark(cfg, marks + [b], t)
    {
      assert StateAt(out, t) == NaiveAt(cfg, marks, t) && StateAt(out, t - 1) == NaiveAt(cfg, marks, t - 1);
      assert Seam(out, t) <==> StopMark(cfg, marks, t);
      Append(init, x, t);
      Append(init, x.(end := b), t);
      NaiveAppend(cfg, marks, b, t);
      NaiveAppend(cfg, marks, b, t - 1);
      NaiveAtTiles(cfg, marks, t);
    }
    assert IsTimeline(out') by {
      forall i, j | 0 <= i < j < |out'| ensures out'[i].end <= out'[j].start {
        assert out[i].end <= out[j].start;
      }
      forall i | 0 <= i < |out'| ensures out'[i].start < out'[i].end {
        assert out[i].start < out[i].end;
      }
    }
  }

  /** A repeated mark adds an empty gap and changes nothing. */
  lemma PerGapStay(cfg: StateConfig, marks: seq<int>, out: seq<StateInterval>)
    requires marks != [] && Ascending(marks) && PerGap(cfg, marks, out)
    ensures PerGap(cfg, marks + [marks[|marks| - 1]], out)
  {
    var b := marks[|marks| - 1];
    forall t
      ensures NaiveAt(cfg, marks + [b], t) == NaiveAt(cfg, marks, t)
      ensures StopMark(cfg, marks + [b], t) == StopMark(cfg, marks, t)
    {
      NaiveAppend(cfg, marks, b, t);
      NaiveAppend(cfg, marks, b, t - 1);
    }
  }

  /** The walk meets mark `b` while collecting `runStart..last`, and the span goes on. */
  lemma WalkRun(cfg: StateConfig, marks: seq<int>, out: seq<StateInterval>, runStart: int, last: int, b: int)
    requires marks != [] && Ascending(marks) && last == marks[|marks| - 1] <= b
    requires b - last <= cfg.microStopAfter && runStart <= last
    requires out == [] || out[|out| - 1].state != Running
    requires PerGap(cfg, marks, Pending(out, runStart, last))
    ensures PerGap(cfg, marks + [b], Pending(out, runStart, b))
  {
    hide PerGap;
    if runStart < last {
      PerGapExtend(cfg, marks, out, StateInterval(Running, runStart, last), b);
    } else if last < b {
      PerGapPush(cfg, marks, out, b);
    } else {
      PerGapStay(cfg, marks, out);
    }
  }

  /** The walk meets a mark `b` too far off: the span is closed and the gap is a stop. */
  lemma WalkStop(cfg: StateConfig, marks: seq<int>, out: seq<StateInterval>, runStart: int, last: int, b: int)
    requires marks != [] && Ascending(marks) && last == marks[|marks| - 1]
    requires b - last > cfg.microStopAfter >= 0
    requires PerGap(cfg, marks, Pending(out, runStart, last))
    ensures PerGap(cfg, marks + [b],
                   Pending(out, runStart, last) + [StateInterval(ClassifyStop(cfg, b - last), last, b)])
  {
    hide PerGap;
    PerGapPush(cfg, marks, Pending(out, runStart, last), b);
  }

  /** Window edges and kept pulses, in order. */
  lemma MarksAscend(pulses: seq<int>, minGap: int, ws: int, we: int)
    requires ws <= we && forall p :: p in pulses ==> ws <= p <= we
    ensures var kept := Debounced(pulses, minGap);
            && Ascending([ws] + kept + [we])
            && (forall i :: 0 <= i < |kept| ==> ws <= kept[i] <= we)
  {
    DebounceMeaning(pulses, minGap);
    var kept := Debounced(pulses, minGap);
    forall i | 0 <= i < |kept| ensures ws <= kept[i] <= we {
      assert kept[i] in kept;
    }
  }

  lemma MarksPrefix(kept: seq<int>, i: int, ws: int)
    requires Ascending(kept) && 1 <= i <= |kept| && ws <= kept[0]
    ensures var marks := [ws] + kept[..i]; Ascending(marks) && marks[|marks| - 1] == kept[i - 1]
  {
  }

  /** The loop state after the first `i` kept pulses. */
  ghost predicate Walked(cfg: StateConfig, kept: seq<int>, i: int, ws: int, out: seq<StateInterval>, runStart: int) {
    && 1 <= i <= |kept| && runStart <= kept[i - 1]
    && (out == [] || out[|out| - 1].state != Running)
    && PerGap(cfg, [ws] + kept[..i], Pending(out, runStart, kept[i - 1]))
  }

  lemma WalkFirst(cfg: StateConfig, kept: seq<int>, ws: int)
    requires cfg.microStopAfter >= 0 && kept != [] && ws <= kept[0]
    ensures var first := kept[0];
            if first - ws <= cfg.microStopAfter then Walked(cfg, kept, 1, ws, [], ws)
            else Walked(cfg, kept, 1, ws, [StateInterval(ClassifyStop(cfg, first - ws), ws, first)], first)
  {
    assert PerGap(cfg, [ws], Pending([], ws, ws));
    if kept[0] - ws <= cfg.microStopAfter {
      WalkRun(cfg, [ws], [], ws, ws, kept[0]);
    } else {
      WalkStop(cfg, [ws], [], ws, ws, kept[0]);
    }
    assert [ws] + kept[..1] == [ws] + [kept[0]];
  }

  lemma WalkNext(cfg: StateConfig, kept: seq<int>, i: int, ws: int, out: seq<StateInterval>, runStart: int)
    requires cfg.microStopAfter >= 0 && 1 <= i < |kept| && Ascending(kept) && ws <= kept[0]
    requires Walked(cfg, kept, i, ws, out, runStart)
    ensures var last, p := kept[i - 1], kept[i];
            if p - last <= cfg.microStopAfter then Walked(cfg, kept, i + 1, ws, out, runStart)
            else Walked(cfg, kept, i + 1, ws,
                        Pending(out, runStart, last) + [StateInterval(ClassifyStop(cfg, p - last), last, p)], p)
  {
    hide PerGap;
    var last, p, marks := kept[i - 1], kept[i], [ws] + kept[..i];
    MarksPrefix(kept, i, ws);
    assert marks + [p] == [ws] + kept[..i + 1];
    if p - last <= cfg.microStopAfter {
      WalkRun(cfg, marks, out, runStart, last, p);
    } else {
      WalkStop(cfg, marks, out, runStart, last, p);
      var out' := Pending(out, runStart, last) + [StateInterval(ClassifyStop(cfg, p - last), last, p)];
      assert Pending(out', p, p) == out';
    }
  }

  lemma WalkLast(cfg: StateConfig, kept: seq<int>, ws: int, we: int, out: seq<StateInterval>, runStart: int)
    requires cfg.microStopAfter >= 0 && kept != [] && Ascending(kept) && ws <= kept[0] && kept[|kept| - 1] <= we
    requires Walked(cfg, kept, |kept|, ws, out, runStart)
    ensures var last := kept[|kept| - 1];
            if we - last <= cfg.microStopAfter then PerGap(cfg, [ws] + kept + [we], Pending(out, runStart, we))
            else PerGap(cfg, [ws] + kept + [we],
                        Pending(out, runStart, last) + [StateInterval(ClassifyStop(cfg, we - last), last, we)])
  {
    hide PerGap;
    assert kept[..|kept|] == kept;
    MarksPrefix(kept, |kept|, ws);
    var last := kept[|kept| - 1];
    if we - last <= cfg.microStopAfter {
      WalkRun(cfg, [ws] + kept, out, runStart, last, we);
    } else {
      WalkStop(cfg, [ws] + kept, out, runStart, last, we);
    }
  }

  /** The raw timeline: the coalescing walk refines the naive per-gap reading. */
  method ComputeStates(cfg: StateConfig, pulses: seq<int>, ws: int, we: int) returns (out: seq<StateInterval>)
    requires cfg.microStopAfter >= 0
    requires forall p :: p in pulses ==> ws <= p <= we
    ensures IsRaw(cfg, pulses, ws, we, out)
  {
    hide PerGap, Walked;
    out := [];
    if we <= ws {
      return;
    }
    var kept := Debounce(pulses, cfg.debounce);
    DebounceMeaning(pulses, cfg.debounce);
    MarksAscend(pulses, cfg.debounce, ws, we);
    if kept == [] {
      out := [StateInterval(ClassifyStop(cfg, we - ws), ws, we)];
      return;
    }
    var first := kept[0];
    var runStart;
    WalkFirst(cfg, kept, ws);
    if first - ws <= cfg.microStopAfter {
      runStart := ws;
    } else {
      out := [StateInterval(ClassifyStop(cfg, first - ws), ws, first)];
      runStart := first;
    }
    var last := first;
    for i := 1 to |kept|
      invariant last == kept[i - 1] && Walked(cfg, kept, i, ws, out, runStart)
    {
      var p := kept[i];
      WalkNext(cfg, kept, i, ws, out, runStart);
      if p - last > cfg.microStopAfter {
        out := PushRunning(out, runStart, last);
        out := out + [StateInterval(ClassifyStop(cfg, p - last), last, p)];
        runStart := p;
      }
      last := p;
    }
    WalkLast(cfg, kept, ws, we, out, runStart);
    if we - last <= cfg.microStopAfter {
      out := PushRunning(out, runStart, we);
    } else {
      out := PushRunning(out, runStart, last);
      out := out + [StateInterval(ClassifyStop(cfg, we - last), last, we)];
    }
  }

  /** Write the collected running span, unless it is empty. */
  method PushRunning(out: seq<StateInterval>, start: int, end: int) returns (out': seq<StateInterval>)
    ensures out' == Pending(out, start, end)
  {
    out' := out;
    if end > start {
      out' := out + [StateInterval(Running, start, end)];
    }
  }

  /** What the raw timeline says, without naming the walk: it is a timeline that tiles
      the window and never shows a planned stop. */
  lemma RawTiles(cfg: StateConfig, pulses: seq<int>, ws: int, we: int, out: seq<StateInterval>)
    requires IsRaw(cfg, pulses, ws, we, out)
    requires forall p :: p in pulses ==> ws <= p <= we
    ensures IsTimeline(out)
    ensures forall t :: StateAt(out, t).Some? <==> ws <= t < we
    ensures forall t :: StateAt(out, t) != Some(PlannedStop)
  {
    if we > ws && pulses != [] {
      var marks := [ws] + Debounced(pulses, cfg.debounce) + [we];
      MarksAscend(pulses, cfg.debounce, ws, we);
      forall t
        ensures StateAt(out, t).Some? <==> ws <= t < we
        ensures StateAt(out, t) != Some(PlannedStop)
      {
        NaiveAtTiles(cfg, marks, t);
        NaiveNeverPlanned(cfg, marks, t);
      }
    }
  }

  /** With at least one pulse, an instant is Running iff the gap between its neighbouring
      marks is at most the micro-stop threshold; otherwise it is a stop classified by that
      gap's length. */
  lemma RawMeaning(cfg: StateConfig, pulses: seq<int>, ws: int, we: int, out: seq<StateInterval>, k: int, t: int)
    requires IsRaw(cfg, pulses, ws, we, out) && pulses != [] && ws < we
    requires forall p :: p in pulses ==> ws <= p <= we
    requires var marks := [ws] + Debounced(pulses, cfg.debounce) + [we];
             0 <= k < |marks| - 1 && marks[k] <= t < marks[k + 1]
    ensures var marks := [ws] + Debounced(pulses, cfg.debounce) + [we];
            var gap := marks[k + 1] - marks[k];
            StateAt(out, t) == Some(if gap <= cfg.microStopAfter then Running
                                    else if gap <= cfg.downAfter then MicroStop else Down)
  {
    MarksAscend(pulses, cfg.debounce, ws, we);
    NaiveAtGap(cfg, [ws] + Debounced(pulses, cfg.debounce) + [we], k, t);
  }

  /** Without pulses the window is one stop, of the state its whole length stands for. */
  lemma RawIdle(cfg: StateConfig, ws: int, we: int, out: seq<StateInterval>, t: int)
    requires IsRaw(cfg, [], ws, we, out)
    ensures StateAt(out, t) == if ws <= t < we then Some(if we - ws <= cfg.downAfter then MicroStop else Down) else None
  {
    if ws < we {
      assert out[..0] == [];
    }
  }

  /** Running pieces are maximal: no two of them touch. */
  lemma RunningMaximal(cfg: StateConfig, pulses: seq<int>, ws: int, we: int, out: seq<StateInterval>, i: int)
    requires IsRaw(cfg, pulses, ws, we, out) && 0 < i < |out|
    requires out[i - 1].state == out[i].state == Running
    ensures out[i - 1].end < out[i].start
  {
    assert out[i - 1].end <= out[i].start;
    if out[i - 1].end == out[i].start {
      IndexSeam(out, i);
      StateAtIndex(out, i, out[i].start);
    }
  }

  lemma NaiveNeverPlanned(cfg: StateConfig, marks: seq<int>, t: int)
    ensures NaiveAt(cfg, marks, t) != Some(PlannedStop)
  {
  }

  /** The raw timeline of a window is unique. */
  lemma RawUnique(cfg: StateConfig, pulses: seq<int>, ws: int, we: int, a: seq<StateInterval>, b: seq<StateInterval>)
    requires IsRaw(cfg, pulses, ws, we, a) && IsRaw(cfg, pulses, ws, we, b)
    ensures a == b
  {
    if ws < we && pulses != [] {
      assert Same(a, b);
      TimelineExtensionality(a, b);
    }
  }
}
