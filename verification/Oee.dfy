/** OEE over stored machine states: window clamping, the two computation paths, and what
    they guarantee on every store the recompute pipeline can reach. */
module Oee {
  import opened Prelude
  import opened Timeline
  import opened Sorting
  import DS = DerivedStore
  import SM = StateMachine
  import PS = PlannedStops

  // ---- Clamped time --------------------------------------------------------

  /** What one row adds to a window sum: the part inside the window, if it overlaps. */
  function Clamped(span: StateInterval, a: int, b: int): int {
    if DS.Overlaps(span, a, b) then
      (if span.end < b then span.end else b) - (if span.start > a then span.start else a)
    else 0
  }

  /** `SUM(...) FILTER (WHERE state = st)` over the rows of one work center. */
  function TimeIn(rows: seq<DS.StateRow>, wc: string, st: MachineState, a: int, b: int): int {
    if rows == [] then 0
    else
      var r := rows[|rows| - 1];
      var before := TimeIn(rows[..|rows| - 1], wc, st, a, b);
      before + (if r.workCenter == wc && r.span.state == st then Clamped(r.span, a, b) else 0)
  }

  /** The same sum over all states. */
  function TimeInAny(rows: seq<DS.StateRow>, wc: string, a: int, b: int): int {
    if rows == [] then 0
    else
      var r := rows[|rows| - 1];
      TimeInAny(rows[..|rows| - 1], wc, a, b) + (if r.workCenter == wc then Clamped(r.span, a, b) else 0)
  }

  lemma ConsistentInit(rows: seq<DS.StateRow>)
    requires DS.StatesConsistent(rows) && rows != []
    ensures DS.StatesConsistent(rows[..|rows| - 1])
    ensures var init, x := rows[..|rows| - 1], rows[|rows| - 1];
            forall r :: r in init ==> DS.RowsApart(r, x)
    ensures forall r :: r in rows ==> r.span.start < r.span.end
  {
    var init, x := rows[..|rows| - 1], rows[|rows| - 1];
    forall i, j | 0 <= i < j < |init| ensures DS.RowsApart(init[i], init[j]) {
      assert DS.RowsApart(rows[i], rows[j]);
    }
    forall r | r in init ensures DS.RowsApart(r, x) && r in rows {
      var i :| 0 <= i < |init| && init[i] == r;
      assert DS.RowsApart(rows[i], rows[|rows| - 1]);
    }
  }

  lemma ClampedAdds(span: StateInterval, a: int, b: int, c: int)
    requires span.start < span.end && a <= b <= c
    ensures Clamped(span, a, c) == Clamped(span, a, b) + Clamped(span, b, c)
    ensures 0 <= Clamped(span, a, b) <= b - a
  {
  }

  /** Time in a state is additive over adjacent windows. */
  lemma {:induction false} TimeInAdds(rows: seq<DS.StateRow>, wc: string, st: MachineState, a: int, b: int, c: int)
    requires a <= b <= c && forall r :: r in rows ==> r.span.start < r.span.end
    ensures TimeIn(rows, wc, st, a, c) == TimeIn(rows, wc, st, a, b) + TimeIn(rows, wc, st, b, c)
    ensures TimeIn(rows, wc, st, a, b) >= 0
  {
    if rows != [] {
      TimeInAdds(rows[..|rows| - 1], wc, st, a, b, c);
      ClampedAdds(rows[|rows| - 1].span, a, b, c);
    }
  }

  lemma {:induction false} TimeInAnyAdds(rows: seq<DS.StateRow>, wc: string, a: int, b: int, c: int)
    requires a <= b <= c && forall r :: r in rows ==> r.span.start < r.span.end
    ensures TimeInAny(rows, wc, a, c) == TimeInAny(rows, wc, a, b) + TimeInAny(rows, wc, b, c)
  {
    if rows != [] {
      TimeInAnyAdds(rows[..|rows| - 1], wc, a, b, c);
      ClampedAdds(rows[|rows| - 1].span, a, b, c);
    }
  }

  /** Row `r` belongs to the work center and holds instant `t`. */
  predicate Holds(r: DS.StateRow, wc: string, t: int) {
    r.workCenter == wc && r.span.Contains(t)
  }

  ghost predicate HeldIn(rows: seq<DS.StateRow>, wc: string, st: MachineState, t: int) {
    exists r :: r in rows && Holds(r, wc, t) && r.span.state == st
  }

  lemma ClampedInstant(span: StateInterval, t: int)
    requires span.start < span.end
    ensures Clamped(span, t, t + 1) == if span.Contains(t) then 1 else 0
  {
  }

  lemma {:induction false} NoneHeld(rows: seq<DS.StateRow>, wc: string, st: MachineState, t: int)
    requires forall r :: r in rows ==> !Holds(r, wc, t) && r.span.start < r.span.end
    ensures TimeInAny(rows, wc, t, t + 1) == 0 && TimeIn(rows, wc, st, t, t + 1) == 0
  {
    if rows != [] {
      NoneHeld(rows[..|rows| - 1], wc, st, t);
      ClampedInstant(rows[|rows| - 1].span, t);
    }
  }

  /** Rows that do not overlap hold an instant at most once. */
  lemma {:induction false} OneInstant(rows: seq<DS.StateRow>, wc: string, st: MachineState, t: int)
    requires DS.StatesConsistent(rows)
    ensures TimeInAny(rows, wc, t, t + 1) <= 1
    ensures TimeIn(rows, wc, st, t, t + 1) == if HeldIn(rows, wc, st, t) then 1 else 0
  {
    hide HeldIn, DS.StatesConsistent, Clamped;
    if rows == [] {
      NotHeldIn(rows, wc, st, t);
    } else {
      ConsistentInit(rows);
      var init, x := rows[..|rows| - 1], rows[|rows| - 1];
      ClampedInstant(x.span, t);
      HeldInAppend(init, x, wc, st, t);
      assert rows == init + [x];
      if Holds(x, wc, t) {
        NoneHeld(init, wc, st, t);
        NotHeldIn(init, wc, st, t);
      } else {
        OneInstant(init, wc, st, t);
      }
    }
  }

  lemma HeldInAppend(init: seq<DS.StateRow>, x: DS.StateRow, wc: string, st: MachineState, t: int)
    ensures HeldIn(init + [x], wc, st, t) <==> HeldIn(init, wc, st, t) || (Holds(x, wc, t) && x.span.state == st)
  {
    assert x in init + [x];
    assert forall r :: r in init ==> r in init + [x];
  }

  lemma NotHeldIn(rows: seq<DS.StateRow>, wc: string, st: MachineState, t: int)
    requires forall r :: r in rows ==> !Holds(r, wc, t)
    ensures !HeldIn(rows, wc, st, t)
  {
  }

  lemma {:induction false} EmptyWindow(rows: seq<DS.StateRow>, wc: string, st: MachineState, a: int)
    requires forall r :: r in rows ==> r.span.start < r.span.end
    ensures TimeIn(rows, wc, st, a, a) == 0 && TimeInAny(rows, wc, a, a) == 0
  {
    if rows != [] {
      EmptyWindow(rows[..|rows| - 1], wc, st, a);
      ClampedAdds(rows[|rows| - 1].span, a, a, a);
    }
  }

  /** The number of instants of the window in which the work center is in state `st`. */
  ghost function Instants(rows: seq<DS.StateRow>, wc: string, st: MachineState, a: int, b: int): int
    requires a <= b
    decreases b - a
  {
    if a == b then 0 else Instants(rows, wc, st, a, b - 1) + (if HeldIn(rows, wc, st, b - 1) then 1 else 0)
  }

  /** The clamped sum measures the time actually spent in the state. */
  lemma {:induction false} TimeInMeasures(rows: seq<DS.StateRow>, wc: string, st: MachineState, a: int, b: int)
    requires DS.StatesConsistent(rows) && a <= b
    ensures TimeIn(rows, wc, st, a, b) == Instants(rows, wc, st, a, b)
    decreases b - a
  {
    if a == b {
      EmptyWindow(rows, wc, st, a);
    } else {
      TimeInMeasures(rows, wc, st, a, b - 1);
      TimeInAdds(rows, wc, st, a, b - 1, b);
      OneInstant(rows, wc, st, b - 1);
    }
  }

  /** All states together never exceed the window. */
  lemma {:induction false} TimeInAnyBound(rows: seq<DS.StateRow>, wc: string, a: int, b: int)
    requires DS.StatesConsistent(rows) && a <= b
    ensures TimeInAny(rows, wc, a, b) <= b - a
    decreases b - a
  {
    if a == b {
      EmptyWindow(rows, wc, Running, a);
    } else {
      TimeInAnyBound(rows, wc, a, b - 1);
      TimeInAnyAdds(rows, wc, a, b - 1, b);
      OneInstant(rows, wc, Running, b - 1);
    }
  }

  lemma {:induction false} PartsOfWhole(rows: seq<DS.StateRow>, wc: string, a: int, b: int)
    requires a <= b && forall r :: r in rows ==> r.span.start < r.span.end
    ensures 0 <= TimeIn(rows, wc, Running, a, b) && 0 <= TimeIn(rows, wc, PlannedStop, a, b)
    ensures TimeIn(rows, wc, Running, a, b) + TimeIn(rows, wc, PlannedStop, a, b) <= TimeInAny(rows, wc, a, b)
  {
    if rows != [] {
      PartsOfWhole(rows[..|rows| - 1], wc, a, b);
      ClampedAdds(rows[|rows| - 1].span, a, b, b);
    }
  }

  lemma {:induction false} NoneOverlap(rows: seq<DS.StateRow>, wc: string, st: MachineState, a: int, b: int)
    requires forall r :: r in rows && r.workCenter == wc ==> !DS.Overlaps(r.span, a, b)
    ensures TimeIn(rows, wc, st, a, b) == 0
  {
    if rows != [] {
      NoneOverlap(rows[..|rows| - 1], wc, st, a, b);
    }
  }

  /** In an inverted window only a row spanning both ends counts, with the (negative) window
      length, and there is at most one such row. */
  lemma {:induction false} InvertedWindow(rows: seq<DS.StateRow>, wc: string, st: MachineState, a: int, b: int)
    requires DS.StatesConsistent(rows) && b < a
    ensures b - a <= TimeIn(rows, wc, st, a, b) <= 0
  {
    if rows != [] {
      ConsistentInit(rows);
      var init, x := rows[..|rows| - 1], rows[|rows| - 1];
      if x.workCenter == wc && DS.Overlaps(x.span, a, b) {
        NoneOverlap(init, wc, st, a, b);
      } else {
        InvertedWindow(init, wc, st, a, b);
      }
    }
  }

  // ---- What a recompute makes of the sums ----------------------------------

  lemma HeldInConcat(a: seq<DS.StateRow>, b: seq<DS.StateRow>, wc: string, st: MachineState, t: int)
    ensures HeldIn(a + b, wc, st, t) <==> HeldIn(a, wc, st, t) || HeldIn(b, wc, st, t)
  {
    assert forall r :: r in a + b <==> r in a || r in b;
  }

  lemma HeldInRows(wc: string, derived: seq<StateInterval>, st: MachineState, t: int)
    requires IsTimeline(derived)
    ensures HeldIn(DS.StateRows(wc, derived), wc, st, t) <==> StateAt(derived, t) == Some(st)
  {
    var rows := DS.StateRows(wc, derived);
    if HeldIn(rows, wc, st, t) {
      var r :| r in rows && Holds(r, wc, t) && r.span.state == st;
      var i :| 0 <= i < |rows| && rows[i] == r;
      StateAtIndex(derived, i, t);
    }
    if StateAt(derived, t) == Some(st) {
      var i := IndexOfState(derived, t);
      assert rows[i] in rows && Holds(rows[i], wc, t);
    }
  }

  /** After a recompute the stored state at every instant of the window is the derived one;
      at any other instant it is what it was, unless the row that held it reached into the
      window, in which case it is gone. */
  lemma RecomputedStates(s: DS.Tables, a: DS.Action, derived: seq<StateInterval>, st: MachineState, t: int)
    requires a.Recompute? && DS.Derived(a.pulses, a.planned, a.ws, a.we, derived)
    requires forall p :: p in a.pulses ==> a.ws <= p <= a.we
    ensures var s' := DS.Replaced(s, a.wc, a.ws, a.we, derived, DS.Stops(derived));
            if a.ws <= t < a.we then HeldIn(s'.states, a.wc, st, t) <==> StateAt(derived, t) == Some(st)
            else HeldIn(s'.states, a.wc, st, t) <==>
                 exists r :: r in s.states && Holds(r, a.wc, t) && r.span.state == st
                     && !DS.Overlaps(r.span, a.ws, a.we)
  {
    DS.DerivedMeaning(a.pulses, a.planned, a.ws, a.we, derived);
    var kept := DS.KeptStates(s.states, a.wc, a.ws, a.we);
    HeldInConcat(kept, DS.StateRows(a.wc, derived), a.wc, st, t);
    HeldInRows(a.wc, derived, st, t);
    assert StateAt(derived, t).Some? <==> a.ws <= t < a.we;
    assert forall r :: r in kept <==> r in s.states && DS.SparesState(r, a.wc, a.ws, a.we);
  }

  /** A row of the work center that reaches into the window and out of it. */
  ghost predicate Straddler(r: DS.StateRow, wc: string, ws: int, we: int) {
    r.workCenter == wc && DS.Overlaps(r.span, ws, we) && (r.span.start < ws || we < r.span.end)
  }

  lemma SameRow(rows: seq<DS.StateRow>, r: DS.StateRow, q: DS.StateRow, wc: string, t: int)
    requires DS.StatesConsistent(rows) && r in rows && q in rows && Holds(r, wc, t) && Holds(q, wc, t)
    ensures r == q
  {
  }

  lemma StraddlerIsLost(s: DS.Tables, a: DS.Action, derived: seq<StateInterval>, r: DS.StateRow) returns (t: int)
    requires DS.StatesConsistent(s.states) && a.Recompute? && DS.Derived(a.pulses, a.planned, a.ws, a.we, derived)
    requires forall p :: p in a.pulses ==> a.ws <= p <= a.we
    requires r in s.states && Straddler(r, a.wc, a.ws, a.we)
    ensures !(a.ws <= t < a.we) && HeldIn(s.states, a.wc, r.span.state, t)
    ensures !HeldIn(DS.Replaced(s, a.wc, a.ws, a.we, derived, DS.Stops(derived)).states, a.wc, r.span.state, t)
  {
    t := if r.span.start < a.ws then r.span.start else r.span.end - 1;
    assert Holds(r, a.wc, t);
    RecomputedStates(s, a, derived, r.span.state, t);
    if q :| q in s.states && Holds(q, a.wc, t) && !DS.Overlaps(q.span, a.ws, a.we) {
      SameRow(s.states, r, q, a.wc, t);
    }
  }

  /** A recompute leaves the states outside its window as they were exactly when no stored
      row straddles the window's edge. */
  lemma OutsideKeptIff(s: DS.Tables, a: DS.Action, derived: seq<StateInterval>)
    requires DS.StatesConsistent(s.states) && a.Recompute? && DS.Derived(a.pulses, a.planned, a.ws, a.we, derived)
    requires forall p :: p in a.pulses ==> a.ws <= p <= a.we
    ensures var s' := DS.Replaced(s, a.wc, a.ws, a.we, derived, DS.Stops(derived));
            (forall st, t :: !(a.ws <= t < a.we) ==>
                (HeldIn(s'.states, a.wc, st, t) <==> HeldIn(s.states, a.wc, st, t))) <==>
            forall r :: r in s.states ==> !Straddler(r, a.wc, a.ws, a.we)
  {
    hide DS.Replaced, DS.Derived, DS.StatesConsistent;
    var s' := DS.Replaced(s, a.wc, a.ws, a.we, derived, DS.Stops(derived));
    if r :| r in s.states && Straddler(r, a.wc, a.ws, a.we) {
      var t := StraddlerIsLost(s, a, derived, r);
    } else {
      forall st, t | !(a.ws <= t < a.we) ensures HeldIn(s'.states, a.wc, st, t) <==> HeldIn(s.states, a.wc, st, t) {
        RecomputedStates(s, a, derived, st, t);
        forall r | r in s.states && Holds(r, a.wc, t) ensures !DS.Overlaps(r.span, a.ws, a.we) {
          assert !Straddler(r, a.wc, a.ws, a.we);
        }
      }
    }
  }

  /** A row straddling the window's edge is deleted and its outside part is not put back. */
  lemma StraddlerLost()
    ensures var row := DS.StateRow("w", StateInterval(Running, 0, 10));
            var s := DS.Tables([row], [], 0, {"w"}, {}, {});
            exists s' :: DS.Step(s, DS.Recompute("w", 5, 10, [], []), s') && HeldIn(s.states, "w", Running, 0)
                         && !HeldIn(s'.states, "w", Running, 0)
  {
    var row := DS.StateRow("w", StateInterval(Running, 0, 10));
    var s := DS.Tables([row], [], 0, {"w"}, {}, {});
    var a := DS.Recompute("w", 5, 10, [], []);
    var raw := [StateInterval(MicroStop, 5, 10)];
    DS.IdleWindow(5, 10);
    var s' := DS.Replaced(s, "w", 5, 10, raw, DS.Stops(raw));
    assert DS.Step(s, a, s');
    RecomputedStates(s, a, raw, Running, 0);
    assert row in s.states && Holds(row, "w", 0);
  }

  // ---- From pulses to run time ---------------------------------------------

  /** The gap between neighbouring marks that holds `t` is no longer than a minute. */
  ghost predicate ShortGap(marks: seq<int>, t: int) {
    exists k :: 0 <= k < |marks| - 1 && marks[k] <= t < marks[k + 1]
                && marks[k + 1] - marks[k] <= 60_000_000
  }

  /** The window's edges and its pulses, debounced by two seconds. */
  function Marks(a: DS.Action): seq<int>
    requires a.Recompute?
  {
    [a.ws] + SM.Debounced(a.pulses, 2_000_000) + [a.we]
  }

  /** What makes an instant of the window count as run time. */
  ghost predicate RunsAt(a: DS.Action, t: int)
    requires a.Recompute?
  {
    a.pulses != [] && ShortGap(Marks(a), t) && !Covered(a.planned, t)
  }

  ghost function RunInstants(a: DS.Action, lo: int, hi: int): int
    requires a.Recompute? && lo <= hi
    decreases hi - lo
  {
    if lo == hi then 0 else RunInstants(a, lo, hi - 1) + (if RunsAt(a, hi - 1) then 1 else 0)
  }

  lemma NaiveRuns(marks: seq<int>, t: int)
    requires Ascending(marks) && marks != [] && marks[0] <= t < marks[|marks| - 1]
    ensures SM.NaiveAt(SM.DEFAULT_CONFIG, marks, t) == Some(Running) <==> ShortGap(marks, t)
  {
    hide SM.NaiveAt;
    var cfg := SM.DEFAULT_CONFIG;
    SM.NaiveAtTiles(cfg, marks, t);
    var k := SM.NaiveGap(cfg, marks, t);
    if ShortGap(marks, t) {
      var j :| 0 <= j < |marks| - 1 && marks[j] <= t < marks[j + 1] && marks[j + 1] - marks[j] <= cfg.microStopAfter;
      SM.NaiveAtGap(cfg, marks, j, t);
    }
  }

  lemma RawRuns(a: DS.Action, raw: seq<StateInterval>, t: int)
    requires a.Recompute? && (forall p :: p in a.pulses ==> a.ws <= p <= a.we) && a.ws <= t < a.we
    requires SM.IsRaw(SM.DEFAULT_CONFIG, a.pulses, a.ws, a.we, raw)
    ensures StateAt(raw, t) == Some(Running) <==>
            a.pulses != [] && ShortGap(Marks(a), t)
  {
    hide SM.Debounced, SM.NaiveAt, ShortGap;
    if a.pulses != [] {
      SM.MarksAscend(a.pulses, SM.DEFAULT_CONFIG.debounce, a.ws, a.we);
      NaiveRuns([a.ws] + SM.Debounced(a.pulses, SM.DEFAULT_CONFIG.debounce) + [a.we], t);
    }
  }

  lemma DerivedRuns(a: DS.Action, derived: seq<StateInterval>, t: int)
    requires a.Recompute? && (forall p :: p in a.pulses ==> a.ws <= p <= a.we) && a.ws <= t < a.we
    requires DS.Derived(a.pulses, a.planned, a.ws, a.we, derived)
    ensures StateAt(derived, t) == Some(Running) <==> RunsAt(a, t)
  {
    hide SM.IsRaw, ShortGap;
    var raw :| SM.IsRaw(SM.DEFAULT_CONFIG, a.pulses, a.ws, a.we, raw) && PS.IsOverlay(raw, a.planned, derived);
    RawRuns(a, raw, t);
    assert StateAt(derived, t) == PS.OverlayAt(raw, a.planned, t);
  }

  lemma {:induction false} RunInstantsHeld(rows: seq<DS.StateRow>, a: DS.Action, lo: int, hi: int)
    requires a.Recompute? && lo <= hi
    requires forall t :: lo <= t < hi ==> (HeldIn(rows, a.wc, Running, t) <==> RunsAt(a, t))
    ensures Instants(rows, a.wc, Running, lo, hi) == RunInstants(a, lo, hi)
    decreases hi - lo
  {
    hide HeldIn, RunsAt;
    if lo < hi {
      RunInstantsHeld(rows, a, lo, hi - 1);
    }
  }

  /** End to end: after a recompute of a known work center, the run time stored for the window
      is the number of its instants that lie in a short gap between kept pulses and in no
      planned stop; for an unknown one nothing is stored. */
  lemma RecomputedRunTime(s: DS.Tables, a: DS.Action, s': DS.Tables)
    requires DS.Consistent(s) && a.Recompute? && DS.Step(s, a, s') && a.ws <= a.we
    ensures a.wc in s.workCenters ==> TimeIn(s'.states, a.wc, Running, a.ws, a.we) == RunInstants(a, a.ws, a.we)
    ensures a.wc !in s.workCenters && a.ws < a.we ==> s' == s
  {
    DS.StepKeepsConsistent(s, a, s');
    hide DS.Consistent, DS.Derived, HeldIn, RunsAt, DS.Replaced, DS.Stops;
    var derived :| DS.Derived(a.pulses, a.planned, a.ws, a.we, derived)
                   && s' == DS.Committed(s, DS.Rewritten(s, a.wc, a.ws, a.we, derived, DS.Stops(derived)));
    DS.DerivedSome(a.pulses, a.planned, a.ws, a.we, derived);
    if a.wc in s.workCenters {
      forall t | a.ws <= t < a.we ensures HeldIn(s'.states, a.wc, Running, t) <==> RunsAt(a, t) {
        RecomputedStates(s, a, derived, Running, t);
        DerivedRuns(a, derived, t);
      }
      RunInstantsHeld(s'.states, a, a.ws, a.we);
      StatesOf(s');
      TimeInMeasures(s'.states, a.wc, Running, a.ws, a.we);
    }
  }

  /** After a recompute, an instant in no planned stop shows what the gap around it stands for:
      running up to a minute, a micro-stop up to five, down beyond. */
  lemma RecomputedGap(s: DS.Tables, a: DS.Action, s': DS.Tables, k: int, t: int, st: MachineState)
    requires a.Recompute? && DS.Step(s, a, s') && a.wc in s.workCenters && a.pulses != []
    requires a.ws <= t < a.we && !Covered(a.planned, t)
    requires 0 <= k < |Marks(a)| - 1 && Marks(a)[k] <= t < Marks(a)[k + 1]
    ensures var gap := Marks(a)[k + 1] - Marks(a)[k];
            HeldIn(s'.states, a.wc, st, t) <==>
            st == (if gap <= 60_000_000 then Running else if gap <= 300_000_000 then MicroStop else Down)
  {
    hide HeldIn, DS.Replaced, DS.Stops, Covered, SM.Debounced;
    var derived :| DS.Derived(a.pulses, a.planned, a.ws, a.we, derived)
                   && s' == DS.Committed(s, DS.Rewritten(s, a.wc, a.ws, a.we, derived, DS.Stops(derived)));
    RecomputedStates(s, a, derived, st, t);
    hide SM.IsRaw;
    var raw :| SM.IsRaw(SM.DEFAULT_CONFIG, a.pulses, a.ws, a.we, raw) && PS.IsOverlay(raw, a.planned, derived);
    SM.RawMeaning(SM.DEFAULT_CONFIG, a.pulses, a.ws, a.we, raw, k, t);
    assert StateAt(derived, t) == PS.OverlayAt(raw, a.planned, t);
  }

  lemma StatesOf(s: DS.Tables)
    requires DS.Consistent(s)
    ensures DS.StatesConsistent(s.states)
  {
  }

  // ---- The two paths -------------------------------------------------------

  datatype CountRow = CountRow(workCenter: string, ts: int, good: int, scrap: int)

  datatype OeeInputs = OeeInputs(plannedProductionS: real, runS: real, idealCycleS: real, totalCount: real,
                                 goodCount: real)

  datatype OeeResult = OeeResult(availability: real, performance: real, quality: real, oee: real)

  /** What both paths read: the state and count tables and the work centers' ideal cycle times. */
  datatype Data = Data(states: seq<DS.StateRow>, counts: seq<CountRow>, ideal: map<string, Option<real>>)

  function GoodIn(counts: seq<CountRow>, wc: string, a: int, b: int): int {
    if counts == [] then 0
    else
      var c := counts[|counts| - 1];
      GoodIn(counts[..|counts| - 1], wc, a, b) + (if c.workCenter == wc && a <= c.ts < b then c.good else 0)
  }

  function TotalIn(counts: seq<CountRow>, wc: string, a: int, b: int): int {
    if counts == [] then 0
    else
      var c := counts[|counts| - 1];
      TotalIn(counts[..|counts| - 1], wc, a, b) + (if c.workCenter == wc && a <= c.ts < b then c.good + c.scrap else 0)
  }

  /** Good and total counts are additive over adjacent windows. */
  lemma {:induction false} CountsAdd(counts: seq<CountRow>, wc: string, a: int, b: int, c: int)
    requires a <= b <= c
    ensures GoodIn(counts, wc, a, c) == GoodIn(counts, wc, a, b) + GoodIn(counts, wc, b, c)
    ensures TotalIn(counts, wc, a, c) == TotalIn(counts, wc, a, b) + TotalIn(counts, wc, b, c)
  {
    if counts != [] {
      CountsAdd(counts[..|counts| - 1], wc, a, b, c);
    }
  }

  lemma {:induction false} CountsBound(counts: seq<CountRow>, wc: string, a: int, b: int)
    requires forall c :: c in counts ==> c.good >= 0 && c.scrap >= 0
    ensures 0 <= GoodIn(counts, wc, a, b) <= TotalIn(counts, wc, a, b)
  {
    if counts != [] {
      CountsBound(counts[..|counts| - 1], wc, a, b);
    }
  }

  function Seconds(micros: int): real {
    micros as real / 1000000.0
  }

  /** `num_milliseconds`: whole milliseconds, rounded towards zero. */
  function WholeMillis(micros: int): int {
    if micros >= 0 then micros / 1000 else -((-micros) / 1000)
  }

  function IdealOf(d: Data, wc: string): real {
    if wc in d.ideal && d.ideal[wc].Some? then d.ideal[wc].value else 0.0
  }

  /** The Rust path's inputs, with the window cut to whole milliseconds. */
  function Inputs(d: Data, wc: string, a: int, b: int): OeeInputs {
    OeeInputs(WholeMillis(b - a) as real / 1000.0 - Seconds(TimeIn(d.states, wc, PlannedStop, a, b)),
              Seconds(TimeIn(d.states, wc, Running, a, b)),
              IdealOf(d, wc),
              TotalIn(d.counts, wc, a, b) as real,
              GoodIn(d.counts, wc, a, b) as real)
  }

  /** `ratio`, and SQL's `CASE WHEN den > 0 THEN num / den ELSE 0 END`. */
  function Ratio(num: real, den: real): real {
    if den > 0.0 then num / den else 0.0
  }

  function AtMostOne(x: real): real {
    if x < 1.0 then x else 1.0
  }

  /** Performance, capped at 1. */
  function Performance(ideal: real, total: real, runS: real): real {
    AtMostOne(Ratio(ideal * total, runS))
  }

  function Overall(availability: real, performance: real, quality: real): real {
    availability * performance * quality
  }

  function Compute(i: OeeInputs): OeeResult {
    var availability := Ratio(i.runS, i.plannedProductionS);
    var performance := Performance(i.idealCycleS, i.totalCount, i.runS);
    var quality := Ratio(i.goodCount, i.totalCount);
    OeeResult(availability, performance, quality, Overall(availability, performance, quality))
  }

  /** The SQL path.  Its join on the work center finds no row for an unknown one. */
  function OeeSql(d: Data, wc: string, a: int, b: int): Result<OeeResult> {
    if wc !in d.ideal then Err(NotFound)
    else
      var runS := Seconds(TimeIn(d.states, wc, Running, a, b));
      var plannedProd := Seconds(b - a) - Seconds(TimeIn(d.states, wc, PlannedStop, a, b));
      var total := TotalIn(d.counts, wc, a, b) as real;
      var good := GoodIn(d.counts, wc, a, b) as real;
      var availability := Ratio(runS, plannedProd);
      var performance := Performance(IdealOf(d, wc), total, runS);
      var quality := Ratio(good, total);
      Ok(OeeResult(availability, performance, quality, Overall(availability, performance, quality)))
  }

  // ---- Bounds --------------------------------------------------------------

  predicate Unit(x: real) {
    0.0 <= x <= 1.0
  }

  lemma RatioUnit(num: real, den: real)
    requires 0.0 <= num <= den
    ensures Unit(Ratio(num, den))
  {
    if den > 0.0 {
      assert num / den <= den / den == 1.0;
    }
  }

  lemma PerformanceUnit(ideal: real, total: real, runS: real)
    requires 0.0 <= ideal && 0.0 <= total
    ensures Unit(Performance(ideal, total, runS))
  {
    var num := ideal * total;
    assert num >= 0.0;
    if runS > 0.0 {
      assert num / runS >= 0.0;
    }
  }

  lemma UnitProduct(x: real, y: real)
    requires Unit(x) && Unit(y)
    ensures Unit(x * y)
  {
    assert x * y <= 1.0 * y;
  }

  lemma OverallUnit(x: real, y: real, z: real)
    requires Unit(x) && Unit(y) && Unit(z)
    ensures Unit(Overall(x, y, z))
  {
    UnitProduct(x, y);
    UnitProduct(x * y, z);
  }

  /** The data both paths may assume: states as the pipeline stores them, counts and ideal
      cycle times not negative. */
  ghost predicate Sound(d: Data) {
    && DS.StatesConsistent(d.states)
    && (forall c :: c in d.counts ==> c.good >= 0 && c.scrap >= 0)
    && (forall w :: w in d.ideal && d.ideal[w].Some? ==> d.ideal[w].value >= 0.0)
  }

  lemma AvailabilityUnit(d: Data, wc: string, a: int, b: int)
    requires Sound(d)
    ensures Unit(Ratio(Seconds(TimeIn(d.states, wc, Running, a, b)),
                       Seconds(b - a) - Seconds(TimeIn(d.states, wc, PlannedStop, a, b))))
  {
    var run, planned := TimeIn(d.states, wc, Running, a, b), TimeIn(d.states, wc, PlannedStop, a, b);
    assert Seconds(b - a) - Seconds(planned) == Seconds(b - a - planned);
    if a <= b {
      PartsOfWhole(d.states, wc, a, b);
      TimeInAnyBound(d.states, wc, a, b);
      assert Seconds(run) <= Seconds(b - a - planned);
      RatioUnit(Seconds(run), Seconds(b - a - planned));
    } else {
      InvertedWindow(d.states, wc, Running, a, b);
      InvertedWindow(d.states, wc, PlannedStop, a, b);
    }
  }

  /** In any window of sound data, inverted ones included, all four SQL figures lie in [0,1]. */
  lemma OeeSqlBounded(d: Data, wc: string, a: int, b: int)
    requires Sound(d) && wc in d.ideal
    ensures var r := OeeSql(d, wc, a, b);
            && r.Ok? && Unit(r.value.availability) && Unit(r.value.performance) && Unit(r.value.quality)
            && Unit(r.value.oee)
  {
    hide TimeIn, GoodIn, TotalIn, Seconds, Ratio, Performance, IdealOf, Unit, Overall;
    var r := OeeSql(d, wc, a, b).value;
    AvailabilityUnit(d, wc, a, b);
    CountsBound(d.counts, wc, a, b);
    var total := TotalIn(d.counts, wc, a, b) as real;
    RatioUnit(GoodIn(d.counts, wc, a, b) as real, total);
    IdealNonNegative(d, wc);
    PerformanceUnit(IdealOf(d, wc), total, Seconds(TimeIn(d.states, wc, Running, a, b)));
    OverallUnit(r.availability, r.performance, r.quality);
  }

  lemma IdealNonNegative(d: Data, wc: string)
    requires Sound(d)
    ensures IdealOf(d, wc) >= 0.0
  {
  }

  /** End to end: on every store a run of recomputes, classifications and splits can reach. */
  lemma RunOeeBounded(trace: seq<DS.Tables>, actions: seq<DS.Action>, k: nat, counts: seq<CountRow>,
                      ideal: map<string, Option<real>>, wc: string, a: int, b: int)
    requires DS.IsRun(trace, actions) && k < |trace| && wc in ideal
    requires forall c :: c in counts ==> c.good >= 0 && c.scrap >= 0
    requires forall w :: w in ideal && ideal[w].Some? ==> ideal[w].value >= 0.0
    ensures var r := OeeSql(Data(trace[k].states, counts, ideal), wc, a, b);
            && r.Ok? && Unit(r.value.availability) && Unit(r.value.performance) && Unit(r.value.quality)
            && Unit(r.value.oee)
  {
    DS.RunConsistent(trace, actions, k);
    OeeSqlBounded(Data(trace[k].states, counts, ideal), wc, a, b);
  }

  // ---- What OEE means ------------------------------------------------------

  /** OEE times the planned production time is the ideal time of the good parts when
      production is not faster than ideal, and otherwise the good share of the run time. */
  lemma OeeIsEffectiveTime(i: OeeInputs)
    requires i.plannedProductionS > 0.0 && i.runS > 0.0 && i.totalCount > 0.0
    ensures Compute(i).oee * i.plannedProductionS ==
            if i.idealCycleS * i.totalCount <= i.runS then i.idealCycleS * i.goodCount
            else i.runS * Compute(i).quality
  {
    var r, p := Compute(i), i.plannedProductionS;
    var made := i.idealCycleS * i.totalCount;
    assert r.availability * p == i.runS;
    Regroup(r.availability, r.performance, r.quality, p);
    if made <= i.runS {
      QuotientAtMostOne(made, i.runS);
      assert i.runS * r.performance == made;
      Regroup(i.idealCycleS, 1.0, i.totalCount, r.quality);
      assert r.quality * i.totalCount == i.goodCount;
    } else {
      QuotientAboveOne(made, i.runS);
    }
  }

  lemma Regroup(x: real, y: real, z: real, p: real)
    ensures x * y * z * p == x * p * y * z
  {
    assert x * y * z * p == x * (y * z) * p == x * p * (y * z);
  }

  lemma QuotientAtMostOne(x: real, y: real)
    requires y > 0.0 && x <= y
    ensures x / y <= 1.0
  {
  }

  lemma QuotientAboveOne(x: real, y: real)
    requires y > 0.0 && x > y
    ensures x / y > 1.0
  {
  }

  // ---- What the figures measure --------------------------------------------

  /** The count rows of the work center in the half-open window. */
  function RowsIn(counts: seq<CountRow>, wc: string, a: int, b: int): seq<CountRow> {
    Select(counts, (c: CountRow) => c.workCenter == wc && a <= c.ts < b)
  }

  function GoodOf(rows: seq<CountRow>): int {
    if rows == [] then 0 else GoodOf(rows[..|rows| - 1]) + rows[|rows| - 1].good
  }

  function ScrapOf(rows: seq<CountRow>): int {
    if rows == [] then 0 else ScrapOf(rows[..|rows| - 1]) + rows[|rows| - 1].scrap
  }

  /** Good is the good, and total the good and the scrap, of exactly the rows in the window. */
  lemma {:induction false} CountsMeasure(counts: seq<CountRow>, wc: string, a: int, b: int)
    ensures GoodIn(counts, wc, a, b) == GoodOf(RowsIn(counts, wc, a, b))
    ensures TotalIn(counts, wc, a, b) - GoodIn(counts, wc, a, b) == ScrapOf(RowsIn(counts, wc, a, b))
  {
    if counts != [] {
      var init, c := counts[..|counts| - 1], counts[|counts| - 1];
      CountsMeasure(init, wc, a, b);
      var rest := RowsIn(init, wc, a, b);
      assert (rest + [c])[..|rest|] == rest;
    }
  }

  lemma {:induction false} ScrapZero(rows: seq<CountRow>)
    requires forall c :: c in rows ==> c.scrap >= 0
    ensures ScrapOf(rows) >= 0 && (ScrapOf(rows) == 0 <==> forall c :: c in rows ==> c.scrap == 0)
  {
    if rows != [] {
      var init, last := rows[..|rows| - 1], rows[|rows| - 1];
      ScrapZero(init);
      assert rows == init + [last];
    }
  }

  /** Quality is 1 exactly when no row of the work center in the window has scrap. */
  lemma QualityOneIff(d: Data, wc: string, a: int, b: int)
    requires Sound(d) && wc in d.ideal && GoodOf(RowsIn(d.counts, wc, a, b)) + ScrapOf(RowsIn(d.counts, wc, a, b)) > 0
    ensures OeeSql(d, wc, a, b).value.quality == 1.0 <==>
            forall c :: c in d.counts && c.workCenter == wc && a <= c.ts < b ==> c.scrap == 0
  {
    hide TimeIn, GoodIn, TotalIn, Performance, Overall, Ratio;
    var rows := RowsIn(d.counts, wc, a, b);
    CountsMeasure(d.counts, wc, a, b);
    ScrapZero(rows);
    RatioOneIff(GoodIn(d.counts, wc, a, b) as real, TotalIn(d.counts, wc, a, b) as real);
  }

  lemma RatioOneIff(x: real, y: real)
    requires y > 0.0
    ensures Ratio(x, y) == 1.0 <==> x == y
  {
    hide Times, Ratio;
    RatioTimes(x, y);
    SelfRatio(y);
    Distribute(y, y, y);
  }

  /** One row of `g` good and `s` scrap parts has quality g / (g + s). */
  lemma OneRowQuality(wc: string, ts: int, g: int, s: int)
    requires g >= 0 && s >= 0 && g + s > 0
    ensures var d := Data([], [CountRow(wc, ts, g, s)], map[wc := None]);
            OeeSql(d, wc, ts, ts + 1).value.quality == g as real / (g + s) as real
  {
    hide TimeIn, Performance, Overall;
    var row := CountRow(wc, ts, g, s);
    assert [row][..0] == [];
    assert TotalIn([row], wc, ts, ts + 1) == TotalIn([], wc, ts, ts + 1) + g + s;
    assert GoodIn([row], wc, ts, ts + 1) == GoodIn([], wc, ts, ts + 1) + g;
  }

  /** A product kept folded, so that each proof below uses only the laws it names. */
  function Times(x: real, y: real): real {
    x * y
  }

  /** Availability is the share of the unplanned instants in which the work center runs. */
  lemma AvailabilityMeasured(d: Data, wc: string, a: int, b: int)
    requires Sound(d) && wc in d.ideal && a <= b && b - a > Instants(d.states, wc, PlannedStop, a, b)
    ensures var unplanned := (b - a - Instants(d.states, wc, PlannedStop, a, b)) as real;
            Times(OeeSql(d, wc, a, b).value.availability, unplanned) == Instants(d.states, wc, Running, a, b) as real
  {
    TimeInMeasures(d.states, wc, Running, a, b);
    TimeInMeasures(d.states, wc, PlannedStop, a, b);
    hide TimeIn, GoodIn, TotalIn, Instants, Sound, Ratio, Performance, Overall, Seconds, Times;
    var run, planned := TimeIn(d.states, wc, Running, a, b), TimeIn(d.states, wc, PlannedStop, a, b);
    SecondsDiffer(b - a, planned);
    SecondsRatio(run, b - a - planned);
  }

  lemma SecondsRatio(x: int, y: int)
    requires y > 0
    ensures Times(Ratio(Seconds(x), Seconds(y)), y as real) == x as real
  {
    var q := Ratio(Seconds(x), Seconds(y));
    RatioTimes(Seconds(x), Seconds(y));
    assert q * y as real == (q * Seconds(y)) * 1000000.0;
  }

  /** Quality is the share of good parts among all counted in the window. */
  lemma QualityMeasured(d: Data, wc: string, a: int, b: int)
    requires wc in d.ideal && GoodOf(RowsIn(d.counts, wc, a, b)) + ScrapOf(RowsIn(d.counts, wc, a, b)) > 0
    ensures var rows := RowsIn(d.counts, wc, a, b);
            Times(OeeSql(d, wc, a, b).value.quality, (GoodOf(rows) + ScrapOf(rows)) as real) == GoodOf(rows) as real
  {
    CountsMeasure(d.counts, wc, a, b);
    hide TimeIn, GoodIn, TotalIn, Ratio, Performance, Overall, Seconds, GoodOf, ScrapOf, RowsIn, Times;
    RatioTimes(GoodIn(d.counts, wc, a, b) as real, TotalIn(d.counts, wc, a, b) as real);
  }

  /** Performance is the ideal time of all counted parts per run time, at most 1. */
  lemma PerformanceMeasured(d: Data, wc: string, a: int, b: int)
    requires Sound(d) && wc in d.ideal && a <= b && Instants(d.states, wc, Running, a, b) > 0
    ensures var rows, run := RowsIn(d.counts, wc, a, b), Seconds(Instants(d.states, wc, Running, a, b));
            var made := Times(if d.ideal[wc].Some? then d.ideal[wc].value else 0.0,
                              (GoodOf(rows) + ScrapOf(rows)) as real);
            Times(OeeSql(d, wc, a, b).value.performance, run) == if made <= run then made else run
  {
    TimeInMeasures(d.states, wc, Running, a, b);
    CountsMeasure(d.counts, wc, a, b);
    var run := TimeIn(d.states, wc, Running, a, b);
    assert Seconds(run) > 0.0;
    hide TimeIn, GoodIn, TotalIn, Instants, Sound, Ratio, Performance, Overall, Seconds, GoodOf, ScrapOf, RowsIn, Times;
    PerformanceTimes(IdealOf(d, wc), TotalIn(d.counts, wc, a, b) as real, Seconds(run));
  }

  lemma PerformanceTimes(ideal: real, total: real, runS: real)
    requires runS > 0.0
    ensures Times(Performance(ideal, total, runS), runS) ==
            if Times(ideal, total) <= runS then Times(ideal, total) else runS
  {
    var made := Times(ideal, total);
    RatioTimes(made, runS);
    if made <= runS {
      QuotientAtMostOne(made, runS);
    } else {
      QuotientAboveOne(made, runS);
    }
  }

  // ---- Agreement of the two paths ------------------------------------------

  /** The part of the window that the millisecond truncation drops, in seconds. */
  function Dropped(a: int, b: int): real {
    Seconds(b - a) - WholeMillis(b - a) as real / 1000.0
  }

  lemma DroppedBound(a: int, b: int)
    requires a <= b
    ensures 0.0 <= Dropped(a, b) < 0.001
  {
    var w := b - a;
    assert w == 1000 * (w / 1000) + w % 1000;
    assert Seconds(w) == ((1000 * (w / 1000)) as real + (w % 1000) as real) / 1000000.0;
    assert ((1000 * (w / 1000)) as real) / 1000000.0 == (w / 1000) as real / 1000.0;
  }

  lemma Cancel(u: real, v: real, p: real)
    requires p > 0.0
    ensures Times(u, p) <= Times(v, p) <==> u <= v
  {
    if u > v {
      assert (u - v) * p > 0.0;
    } else {
      assert (v - u) * p >= 0.0;
    }
  }

  lemma Scale(u: real, v: real, f: real)
    requires u <= v && 0.0 <= f
    ensures Times(u, f) <= Times(v, f)
  {
    assert (v - u) * f >= 0.0;
  }

  lemma Distribute(x: real, y: real, z: real)
    ensures Times(x, y + z) == Times(x, y) + Times(x, z)
    ensures Times(x - y, z) == Times(x, z) - Times(y, z)
    ensures Times(0.0, x) == 0.0 && Times(1.0, x) == x && Times(0.001, x) == 0.001 * x && Times(1.001, x) == 1.001 * x
  {
  }

  lemma RatioTimes(x: real, p: real)
    requires p > 0.0
    ensures Times(Ratio(x, p), p) == x
  {
  }

  lemma SelfRatio(q: real)
    requires q > 0.0
    ensures Ratio(q, q) == 1.0
  {
    hide Times, Ratio;
    RatioTimes(q, q);
    Distribute(q, q, q);
    Cancel(Ratio(q, q), 1.0, q);
    Cancel(1.0, Ratio(q, q), q);
  }

  /** Dividing `run` by `p` and by `p + drop` gives results at most `drop / p` apart. */
  lemma QuotientShift(run: real, p: real, drop: real)
    requires 0.0 <= run <= p + drop && p > 0.0 && drop >= 0.0
    ensures var gap := Ratio(run, p) - Ratio(run, p + drop); 0.0 <= gap && Times(gap, p) <= drop
  {
    hide Times, Ratio;
    var x, y := Ratio(run, p), Ratio(run, p + drop);
    RatioTimes(run, p);
    RatioTimes(run, p + drop);
    Distribute(p + drop, y, y);
    Cancel(0.0, y, p + drop);
    Cancel(y, 1.0, p + drop);
    Distribute(y, p, drop);
    Distribute(x, y, p);
    Scale(y, 1.0, drop);
    Scale(0.0, y, drop);
    Distribute(drop, y, p);
    Distribute(p, y, p);
    Cancel(0.0, x - y, p);
  }

  lemma CloseEnough(run: real, p: real, drop: real)
    requires 0.0 <= run <= p + drop && drop >= 0.0 && p > 1000.0 * drop
    ensures Abs(Ratio(run, p) - Ratio(run, p + drop)) < 0.001
  {
    hide Times, Ratio;
    QuotientShift(run, p, drop);
    Distribute(p, p, p);
    Cancel(0.001, Ratio(run, p) - Ratio(run, p + drop), p);
  }

  lemma TooFar(p: real, drop: real)
    requires drop >= 0.0 && p + drop > 0.0 && p <= 1000.0 * drop
    ensures Abs(Ratio(p + drop, p) - Ratio(p + drop, p + drop)) >= 0.001
  {
    hide Times;
    SelfRatio(p + drop);
    if p > 0.0 {
      RatioTimes(p + drop, p);
      Distribute(p, p, p);
      Cancel(1.001, Ratio(p + drop, p), p);
    }
  }

  lemma BothZero(p: real, drop: real)
    requires drop >= 0.0 && p + drop <= 0.0
    ensures forall run :: Abs(Ratio(run, p) - Ratio(run, p + drop)) < 0.001
  {
  }

  lemma ScaledDifference(x: real, y: real, f: real, g: real)
    requires Unit(f) && Unit(g) && Abs(x - y) < 0.001
    ensures Abs(Overall(x, f, g) - Overall(y, f, g)) < 0.001
  {
    UnitProduct(f, g);
    Factored(x, y, f, g);
    hide Times, Overall;
    var s := f * g;
    Distribute(x, y, s);
    Distribute(y, x, s);
    Scale(s, 1.0, Abs(x - y));
    Scale(0.0, s, Abs(x - y));
    Distribute(Abs(x - y), x, s);
    Swap(s, x - y);
    Swap(s, y - x);
  }

  lemma Factored(x: real, y: real, f: real, g: real)
    ensures Overall(x, f, g) == Times(x, f * g) && Overall(y, f, g) == Times(y, f * g)
  {
  }

  lemma Swap(x: real, y: real)
    ensures Times(x, y) == Times(y, x)
  {
  }

  lemma RunFits(d: Data, wc: string, a: int, b: int)
    requires Sound(d) && a <= b
    ensures var p := Inputs(d, wc, a, b).plannedProductionS;
            && p + Dropped(a, b) == Seconds(b - a) - Seconds(TimeIn(d.states, wc, PlannedStop, a, b))
            && 0.0 <= Seconds(TimeIn(d.states, wc, Running, a, b)) <= p + Dropped(a, b)
  {
    PartsOfWhole(d.states, wc, a, b);
    TimeInAnyBound(d.states, wc, a, b);
    var planned := TimeIn(d.states, wc, PlannedStop, a, b);
    assert Seconds(b - a) - Seconds(planned) == Seconds(b - a - planned);
  }

  /** Both paths give the same performance and quality; availability and OEE differ by less
      than 0.001 as soon as the Rust planned production time is at least one second. */
  lemma TwoPathsAgree(d: Data, wc: string, a: int, b: int)
    requires Sound(d) && wc in d.ideal && a <= b
    requires Inputs(d, wc, a, b).plannedProductionS >= 1.0
    ensures var rust, sql := Compute(Inputs(d, wc, a, b)), OeeSql(d, wc, a, b).value;
            && rust.performance == sql.performance && rust.quality == sql.quality
            && Abs(rust.availability - sql.availability) < 0.001
            && Abs(rust.oee - sql.oee) < 0.001
  {
    hide TimeIn, GoodIn, TotalIn, Seconds, WholeMillis, Sound, Dropped, Performance, IdealOf, Ratio, Abs, Unit, Overall;
    var rust, sql := Compute(Inputs(d, wc, a, b)), OeeSql(d, wc, a, b).value;
    var p, drop := Inputs(d, wc, a, b).plannedProductionS, Dropped(a, b);
    var run := Seconds(TimeIn(d.states, wc, Running, a, b));
    DroppedBound(a, b);
    RunFits(d, wc, a, b);
    CloseEnough(run, p, drop);
    OeeSqlBounded(d, wc, a, b);
    ScaledDifference(rust.availability, sql.availability, rust.performance, rust.quality);
  }

  // ---- Exactly when the two paths agree ------------------------------------

  /** Data on which the window `a..b` has `planned` microseconds of planned stops. */
  ghost predicate Sees(d: Data, wc: string, a: int, b: int, planned: int) {
    Sound(d) && wc in d.ideal && TimeIn(d.states, wc, PlannedStop, a, b) == planned
  }

  /** There is no production time, or more than 1001 times what the truncation drops. */
  predicate LongEnough(a: int, b: int, planned: int) {
    b - a <= planned || b - a - planned > 1001 * ((b - a) % 1000)
  }

  /** The same condition on what the two paths compute with. */
  lemma LongEnoughInSeconds(a: int, b: int, planned: int)
    requires a <= b
    ensures var p := WholeMillis(b - a) as real / 1000.0 - Seconds(planned);
            LongEnough(a, b, planned) <==> p + Dropped(a, b) <= 0.0 || p > 1000.0 * Dropped(a, b)
  {
    var w := b - a;
    var r := w % 1000;
    assert w == 1000 * (w / 1000) + r;
    assert (w / 1000) as real / 1000.0 == (w - r) as real / 1000000.0;
    assert Dropped(a, b) == r as real / 1000000.0;
  }

  ghost predicate CloseAvailability(d: Data, wc: string, a: int, b: int)
    requires wc in d.ideal
  {
    Abs(Compute(Inputs(d, wc, a, b)).availability - OeeSql(d, wc, a, b).value.availability) < 0.001
  }

  ghost predicate CloseOee(d: Data, wc: string, a: int, b: int)
    requires wc in d.ideal
  {
    Abs(Compute(Inputs(d, wc, a, b)).oee - OeeSql(d, wc, a, b).value.oee) < 0.001
  }

  lemma LongEnoughAgrees(d: Data, wc: string, a: int, b: int, planned: int)
    requires a <= b && Sees(d, wc, a, b, planned) && LongEnough(a, b, planned)
    ensures CloseAvailability(d, wc, a, b) && CloseOee(d, wc, a, b)
  {
    hide TimeIn, GoodIn, TotalIn, Seconds, WholeMillis, Sound, Dropped, Performance, IdealOf, Ratio, Abs, Unit, Overall,
         LongEnough;
    var rust, sql := Compute(Inputs(d, wc, a, b)), OeeSql(d, wc, a, b).value;
    var p, drop := Inputs(d, wc, a, b).plannedProductionS, Dropped(a, b);
    var run := Seconds(TimeIn(d.states, wc, Running, a, b));
    LongEnoughInSeconds(a, b, planned);
    DroppedBound(a, b);
    RunFits(d, wc, a, b);
    if p > 1000.0 * drop {
      CloseEnough(run, p, drop);
    } else {
      BothZero(p, drop);
    }
    OeeSqlBounded(d, wc, a, b);
    ScaledDifference(rust.availability, sql.availability, rust.performance, rust.quality);
  }

  /** Planned time first, then running to the end, all parts good and made at ideal speed. */
  function Busy(wc: string, a: int, b: int, planned: int): Data {
    var rest := DS.StateRow(wc, StateInterval(Running, a + planned, b));
    Data(if planned > 0 then [DS.StateRow(wc, StateInterval(PlannedStop, a, a + planned)), rest] else [rest],
         [CountRow(wc, a, 1, 0)], map[wc := Some(Seconds(b - a - planned))])
  }

  lemma {:induction false} TimeInOne(r: DS.StateRow, wc: string, st: MachineState, a: int, b: int)
    ensures TimeIn([r], wc, st, a, b) == if r.workCenter == wc && r.span.state == st then Clamped(r.span, a, b) else 0
  {
    assert [r][..0] == [];
  }

  lemma TimeInTwo(q: DS.StateRow, r: DS.StateRow, wc: string, st: MachineState, a: int, b: int)
    ensures TimeIn([q, r], wc, st, a, b) == TimeIn([q], wc, st, a, b) + TimeIn([r], wc, st, a, b)
  {
    assert [q, r][..1] == [q];
    TimeInOne(r, wc, st, a, b);
  }

  lemma BusyTimes(wc: string, a: int, b: int, planned: int)
    requires 0 <= planned < b - a
    ensures var d := Busy(wc, a, b, planned);
            && TimeIn(d.states, wc, PlannedStop, a, b) == planned
            && TimeIn(d.states, wc, Running, a, b) == b - a - planned
            && GoodIn(d.counts, wc, a, b) == TotalIn(d.counts, wc, a, b) == 1
  {
    hide TimeIn;
    var c := CountRow(wc, a, 1, 0);
    assert [c][..0] == [];
    var q := DS.StateRow(wc, StateInterval(PlannedStop, a, a + planned));
    var r := DS.StateRow(wc, StateInterval(Running, a + planned, b));
    forall st
      ensures TimeIn([q, r], wc, st, a, b) == TimeIn([q], wc, st, a, b) + TimeIn([r], wc, st, a, b)
    {
      TimeInTwo(q, r, wc, st, a, b);
    }
    TimeInOne(q, wc, PlannedStop, a, b);
    TimeInOne(q, wc, Running, a, b);
    TimeInOne(r, wc, PlannedStop, a, b);
    TimeInOne(r, wc, Running, a, b);
  }

  lemma BusySound(wc: string, a: int, b: int, planned: int)
    requires 0 <= planned < b - a
    ensures Sound(Busy(wc, a, b, planned))
  {
  }

  /** On such data both paths see perfect performance and quality. */
  lemma BusyFigures(wc: string, a: int, b: int, planned: int)
    requires 0 <= planned < b - a
    ensures var d := Busy(wc, a, b, planned); var run := Seconds(b - a - planned);
            && run > 0.0
            && Compute(Inputs(d, wc, a, b)) ==
               OeeResult(Ratio(run, Inputs(d, wc, a, b).plannedProductionS), 1.0, 1.0,
                         Ratio(run, Inputs(d, wc, a, b).plannedProductionS))
            && OeeSql(d, wc, a, b).value == OeeResult(1.0, 1.0, 1.0, 1.0)
  {
    hide TimeIn, GoodIn, TotalIn, WholeMillis;
    BusyTimes(wc, a, b, planned);
    var run := Seconds(b - a - planned);
    assert Seconds(b - a) - Seconds(planned) == run;
    SelfRatio(run);
    SelfRatio(1.0);
    assert run * 1.0 == run;
  }

  lemma TooShortDiffers(wc: string, a: int, b: int, planned: int)
    requires a <= b && 0 <= planned && !LongEnough(a, b, planned)
    ensures var d := Busy(wc, a, b, planned);
            Sees(d, wc, a, b, planned) && !CloseAvailability(d, wc, a, b) && !CloseOee(d, wc, a, b)
  {
    hide TimeIn, Sound, Seconds, WholeMillis, Dropped, Ratio, Compute, OeeSql;
    var d := Busy(wc, a, b, planned);
    BusySound(wc, a, b, planned);
    BusyTimes(wc, a, b, planned);
    BusyFigures(wc, a, b, planned);
    LongEnoughInSeconds(a, b, planned);
    RunFits(d, wc, a, b);
    DroppedBound(a, b);
    var p, drop := Inputs(d, wc, a, b).plannedProductionS, Dropped(a, b);
    SecondsDiffer(b - a, planned);
    TooFar(p, drop);
    SelfRatio(p + drop);
  }

  lemma SecondsDiffer(w: int, planned: int)
    ensures Seconds(w) - Seconds(planned) == Seconds(w - planned)
  {
  }

  /** In an inverted window running and planned time are not both counted. */
  lemma {:induction false} InvertedEither(rows: seq<DS.StateRow>, wc: string, a: int, b: int)
    requires DS.StatesConsistent(rows) && b < a
    ensures TimeIn(rows, wc, Running, a, b) == 0 || TimeIn(rows, wc, PlannedStop, a, b) == 0
  {
    if rows != [] {
      ConsistentInit(rows);
      var init, x := rows[..|rows| - 1], rows[|rows| - 1];
      if x.workCenter == wc && DS.Overlaps(x.span, a, b) {
        NoneOverlap(init, wc, Running, a, b);
        NoneOverlap(init, wc, PlannedStop, a, b);
      } else {
        InvertedEither(init, wc, a, b);
      }
    }
  }

  /** Both paths see no availability in an inverted window. */
  lemma InvertedAgrees(d: Data, wc: string, a: int, b: int)
    requires Sound(d) && wc in d.ideal && b < a
    ensures CloseAvailability(d, wc, a, b) && CloseOee(d, wc, a, b)
  {
    var run, planned := TimeIn(d.states, wc, Running, a, b), TimeIn(d.states, wc, PlannedStop, a, b);
    InvertedWindow(d.states, wc, PlannedStop, a, b);
    InvertedEither(d.states, wc, a, b);
    hide TimeIn, GoodIn, TotalIn, Performance, IdealOf;
    SecondsDiffer(b - a, planned);
    assert Compute(Inputs(d, wc, a, b)).availability == 0.0 == OeeSql(d, wc, a, b).value.availability;
    assert Compute(Inputs(d, wc, a, b)).oee == 0.0 == OeeSql(d, wc, a, b).value.oee;
  }

  /** The documented promise is agreement within 0.1 %.  For a window `a..b` with `planned`
      microseconds of planned stops (never negative, or at least the negative length of an
      inverted window), availability agrees on all sound data, and so does OEE, exactly when
      the window is long enough. */
  lemma PathsAgreeIff(wc: string, a: int, b: int, planned: int)
    requires (if a <= b then 0 else b - a) <= planned
    ensures (forall d :: Sees(d, wc, a, b, planned) ==> CloseAvailability(d, wc, a, b)) <==> LongEnough(a, b, planned)
    ensures (forall d :: Sees(d, wc, a, b, planned) ==> CloseOee(d, wc, a, b)) <==> LongEnough(a, b, planned)
  {
    if LongEnough(a, b, planned) {
      forall d | Sees(d, wc, a, b, planned) ensures CloseAvailability(d, wc, a, b) && CloseOee(d, wc, a, b) {
        if a <= b {
          LongEnoughAgrees(d, wc, a, b, planned);
        } else {
          InvertedAgrees(d, wc, a, b);
        }
      }
    } else {
      hide Sees, CloseAvailability, CloseOee;
      TooShortDiffers(wc, a, b, planned);
    }
  }

  /** The promise fails on short windows: 1.5 ms of running looks like 150 % to the Rust path. */
  lemma TwoPathsDisagree()
    ensures var d := Data([DS.StateRow("w", StateInterval(Running, 0, 1500))], [], map["w" := None]);
            && Sound(d)
            && Compute(Inputs(d, "w", 0, 1500)).availability == 1.5
            && OeeSql(d, "w", 0, 1500).value.availability == 1.0
  {
    hide Performance, Overall, GoodIn, TotalIn;
    var row := DS.StateRow("w", StateInterval(Running, 0, 1500));
    assert [row][..0] == [];
    assert TimeIn([row], "w", Running, 0, 1500) == TimeIn([], "w", Running, 0, 1500) + 1500;
    assert TimeIn([row], "w", PlannedStop, 0, 1500) == TimeIn([], "w", PlannedStop, 0, 1500);
    assert Ratio(Seconds(1500), 0.001) == 1.5 && Ratio(Seconds(1500), Seconds(1500)) == 1.0;
  }
}
