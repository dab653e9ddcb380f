/** The derived-state store: machine states and downtime events, rewritten window by
    window by the recompute pipeline, and classified or split by operators. */
module DerivedStore {
  import opened Prelude
  import opened Timeline
  import opened Sorting
  import SM = StateMachine
  import PS = PlannedStops

  datatype StateRow = StateRow(workCenter: string, span: StateInterval)

  /** When and by whom an event was last classified. */
  datatype Stamp = Stamp(user: string, time: int)

  datatype DowntimeRow = DowntimeRow(id: nat, workCenter: string, span: StateInterval,
                                     reason: Option<string>, classified: Option<Stamp>)

  /** Both tables, the next derived identifier, and what a row may refer to. */
  datatype Tables = Tables(states: seq<StateRow>, downtime: seq<DowntimeRow>, nextId: nat,
                           workCenters: set<string>, reasons: set<string>, users: set<string>)

  // ---- Transactions on values ----------------------------------------------

  predicate Overlaps(span: StateInterval, ws: int, we: int) {
    span.start < we && span.end > ws
  }

  /** A row overlaps a window when some instant lies in both. */
  lemma OverlapMeans(span: StateInterval, ws: int, we: int)
    requires span.start < span.end && ws < we
    ensures Overlaps(span, ws, we) <==> exists t :: span.Contains(t) && ws <= t < we
  {
    if Overlaps(span, ws, we) {
      var t := if span.start > ws then span.start else ws;
      assert span.Contains(t) && ws <= t < we;
    }
  }

  /** The rows that `DELETE FROM machine_states` spares. */
  predicate SparesState(row: StateRow, wc: string, ws: int, we: int) {
    !(row.workCenter == wc && Overlaps(row.span, ws, we))
  }

  /** The rows that `DELETE FROM downtime_events` spares: classified ones always stay. */
  predicate SparesDowntime(row: DowntimeRow, wc: string, ws: int, we: int) {
    !(row.workCenter == wc && row.reason.None? && Overlaps(row.span, ws, we))
  }

  function KeptStates(rows: seq<StateRow>, wc: string, ws: int, we: int): seq<StateRow> {
    Select(rows, (r: StateRow) => SparesState(r, wc, ws, we))
  }

  function KeptDowntime(rows: seq<DowntimeRow>, wc: string, ws: int, we: int): seq<DowntimeRow> {
    Select(rows, (r: DowntimeRow) => SparesDowntime(r, wc, ws, we))
  }

  function StateRows(wc: string, spans: seq<StateInterval>): (rows: seq<StateRow>)
    ensures |rows| == |spans|
    ensures forall i :: 0 <= i < |rows| ==> rows[i] == StateRow(wc, spans[i])
  {
    seq(|spans|, i requires 0 <= i < |spans| => StateRow(wc, spans[i]))
  }

  function DowntimeRows(wc: string, spans: seq<StateInterval>, firstId: nat): (rows: seq<DowntimeRow>)
    ensures |rows| == |spans|
    ensures forall i :: 0 <= i < |rows| ==> rows[i] == DowntimeRow(firstId + i, wc, spans[i], None, None)
  {
    seq(|spans|, i requires 0 <= i < |spans| => DowntimeRow(firstId + i, wc, spans[i], None, None))
  }

  /** `downtime_events`: the unplanned stops of a timeline. */
  function Stops(spans: seq<StateInterval>): seq<StateInterval> {
    Select(spans, (s: StateInterval) => s.state != Running && s.state != PlannedStop)
  }

  /** Downtime events are the micro-stops and downs of a timeline, as they stand. */
  lemma StopsMeaning(spans: seq<StateInterval>, x: StateInterval)
    ensures x in Stops(spans) <==> x in spans && (x.state == MicroStop || x.state == Down)
  {
  }

  /** What `replace_derived` makes of the tables. */
  function Replaced(s: Tables, wc: string, ws: int, we: int, spans: seq<StateInterval>,
                    stops: seq<StateInterval>): Tables {
    s.(states := KeptStates(s.states, wc, ws, we) + StateRows(wc, spans),
       downtime := KeptDowntime(s.downtime, wc, ws, we) + DowntimeRows(wc, stops, s.nextId),
       nextId := s.nextId + |stops|)
  }

  /** `replace_derived` as one atomic step: inserting for an unknown work center is refused. */
  function Rewritten(s: Tables, wc: string, ws: int, we: int, spans: seq<StateInterval>,
                     stops: seq<StateInterval>): Result<Tables> {
    if wc !in s.workCenters && (spans != [] || stops != []) then Err(Database)
    else Ok(Replaced(s, wc, ws, we, spans, stops))
  }

  /** The row index of a downtime event, if it exists. */
  function FindDowntime(rows: seq<DowntimeRow>, id: nat): (r: Option<nat>)
    ensures r.Some? ==> r.value < |rows| && rows[r.value].id == id
    ensures r.None? ==> forall i :: 0 <= i < |rows| ==> rows[i].id != id
  {
    if rows == [] then None
    else if rows[|rows| - 1].id == id then Some(|rows| - 1)
    else FindDowntime(rows[..|rows| - 1], id)
  }

  /** A reason, if given, and then the user must exist. */
  predicate KnownReason(s: Tables, reason: Option<string>, user: string) {
    reason.Some? ==> reason.value in s.reasons && user in s.users
  }

  function Classified(s: Tables, id: nat, reason: string, stamp: Stamp): Result<Tables> {
    match FindDowntime(s.downtime, id)
    case None => Err(NotFound)
    case Some(i) =>
      if !KnownReason(s, Some(reason), stamp.user) then Err(InvalidReference)
      else Ok(s.(downtime := s.downtime[i := s.downtime[i].(reason := Some(reason), classified := Some(stamp))]))
  }

  /** The stamp of a half: an unclassified half keeps what was there before. */
  function StampOf(reason: Option<string>, stamp: Stamp, before: Option<Stamp>): Option<Stamp> {
    if reason.None? then before else Some(stamp)
  }

  function SplitApart(s: Tables, id: nat, at: int, first: Option<string>, second: Option<string>, stamp: Stamp)
    : Result<Tables>
  {
    match FindDowntime(s.downtime, id)
    case None => Err(NotFound)
    case Some(i) =>
      var row := s.downtime[i];
      if at <= row.span.start || at >= row.span.end then Err(Conflict)
      else if !KnownReason(s, first, stamp.user) || !KnownReason(s, second, stamp.user) then Err(InvalidReference)
      else
        var head := row.(span := row.span.(end := at), reason := first,
                         classified := StampOf(first, stamp, row.classified));
        var tail := DowntimeRow(s.nextId, row.workCenter, row.span.(start := at), second,
                                StampOf(second, stamp, None));
        Ok(s.(downtime := s.downtime[i := head] + [tail], nextId := s.nextId + 1))
  }

  /** A refused transaction changes nothing. */
  function Committed(s: Tables, r: Result<Tables>): Tables {
    if r.Ok? then r.value else s
  }

  // ---- Reading the signals -------------------------------------------------

  datatype MachineEvent = MachineEvent(workCenter: string, kind: string, ts: int)

  datatype PlannedRow = PlannedRow(workCenter: string, span: PlannedInterval)

  function Timestamps(events: seq<MachineEvent>): (r: seq<int>)
    ensures |r| == |events| && forall i :: 0 <= i < |r| ==> r[i] == events[i].ts
  {
    seq(|events|, i requires 0 <= i < |events| => events[i].ts)
  }

  predicate IsPulse(e: MachineEvent, wc: string, ws: int, we: int) {
    e.workCenter == wc && e.kind == "cycle" && ws <= e.ts <= we
  }

  /** `fetch_cycle_pulses`: the work center's cycle pulses in the window, ascending. */
  function FetchPulses(events: seq<MachineEvent>, wc: string, ws: int, we: int): (pulses: seq<int>)
    ensures Ascending(pulses)
    ensures forall p :: p in pulses ==> ws <= p <= we
    ensures forall p :: p in pulses <==>
              exists e :: e in events && e.ts == p && e.workCenter == wc && e.kind == "cycle" && ws <= e.ts <= we
    ensures |pulses| == |Select(events, (e: MachineEvent) => IsPulse(e, wc, ws, we))|
  {
    var chosen := Select(events, (e: MachineEvent) => IsPulse(e, wc, ws, we));
    var stamps := Timestamps(chosen);
    var pulses := SortBy(stamps, (a: int, b: int) => a <= b);
    SameMembers(pulses, stamps);
    assert forall p :: p in stamps <==> exists e :: e in chosen && e.ts == p;
    pulses
  }

  function Spans(rows: seq<PlannedRow>): (r: seq<PlannedInterval>)
    ensures |r| == |rows| && forall i :: 0 <= i < |r| ==> r[i] == rows[i].span
  {
    seq(|rows|, i requires 0 <= i < |rows| => rows[i].span)
  }

  /** `fetch_planned_intervals`: the work center's planned stops that overlap the window, by start. */
  function FetchPlanned(rows: seq<PlannedRow>, wc: string, ws: int, we: int): (planned: seq<PlannedInterval>)
    ensures forall p :: p in planned <==>
              exists r :: r in rows && r.workCenter == wc && r.span == p && p.start < we && p.end > ws
  {
    var chosen := Select(rows, (r: PlannedRow) => r.workCenter == wc && r.span.start < we && r.span.end > ws);
    var planned := PS.SortCuts(Spans(chosen));
    assert forall p :: p in Spans(chosen) <==> exists r :: r in chosen && r.span == p;
    planned
  }

  // ---- The tables, updated in place ----------------------------------------

  class Store {
    var states: seq<StateRow>
    var downtime: seq<DowntimeRow>
    var nextId: nat
    const workCenters: set<string>
    const reasons: set<string>
    const users: set<string>

    function View(): Tables
      reads this
    {
      Tables(states, downtime, nextId, workCenters, reasons, users)
    }

    constructor (workCenters: set<string>, reasons: set<string>, users: set<string>)
      ensures View() == Tables([], [], 0, workCenters, reasons, users)
    {
      this.workCenters, this.reasons, this.users := workCenters, reasons, users;
      states, downtime, nextId := [], [], 0;
    }

    method ReplaceDerived(wc: string, ws: int, we: int, spans: seq<StateInterval>, stops: seq<StateInterval>)
      returns (r: Result<()>)
      modifies this
      ensures var done := Rewritten(old(View()), wc, ws, we, spans, stops);
              && View() == Committed(old(View()), done)
              && r == (if done.Ok? then Ok(()) else Err(done.error))
    {
      if wc !in workCenters && (spans != [] || stops != []) {
        return Err(Database); // the first insert fails and the transaction rolls back
      }
      states := KeptStates(states, wc, ws, we);
      InsertStates(wc, spans);
      downtime := KeptDowntime(downtime, wc, ws, we);
      InsertDowntime(wc, stops);
      r := Ok(());
    }

    method InsertStates(wc: string, spans: seq<StateInterval>)
      modifies this`states
      ensures states == old(states) + StateRows(wc, spans)
    {
      ghost var before := states;
      for i := 0 to |spans|
        invariant states == before + StateRows(wc, spans[..i])
      {
        states := states + [StateRow(wc, spans[i])];
        assert StateRows(wc, spans[..i + 1]) == StateRows(wc, spans[..i]) + [StateRow(wc, spans[i])];
      }
      assert spans[..|spans|] == spans;
    }

    method InsertDowntime(wc: string, stops: seq<StateInterval>)
      modifies this`downtime, this`nextId
      ensures downtime == old(downtime) + DowntimeRows(wc, stops, old(nextId))
      ensures nextId == old(nextId) + |stops|
    {
      ghost var before, id := downtime, nextId;
      for i := 0 to |stops|
        invariant downtime == before + DowntimeRows(wc, stops[..i], id)
        invariant nextId == id + i
      {
        var row := DowntimeRow(nextId, wc, stops[i], None, None);
        downtime := downtime + [row];
        nextId := nextId + 1;
        assert DowntimeRows(wc, stops[..i + 1], id) == DowntimeRows(wc, stops[..i], id) + [row];
      }
      assert stops[..|stops|] == stops;
    }

    /** The pipeline: fetch, raw timeline, planned overlay, stops, then the rewrite of the window. */
    method RecomputeStates(wc: string, ws: int, we: int, events: seq<MachineEvent>, plannedStops: seq<PlannedRow>)
      returns (r: Result<(nat, nat)>)
      modifies this
      ensures Step(old(View()), Recompute(wc, ws, we, FetchPulses(events, wc, ws, we),
                                          FetchPlanned(plannedStops, wc, ws, we)), View())
      ensures r.Ok? <==> wc in workCenters || we <= ws
      ensures r.Err? ==> View() == old(View())
      ensures r.Ok? ==> r.value.0 + |KeptStates(old(states), wc, ws, we)| == |states|
      ensures r.Ok? ==> r.value.1 + |KeptDowntime(old(downtime), wc, ws, we)| == |downtime|
    {
      hide FetchPulses, FetchPlanned;
      var pulses := FetchPulses(events, wc, ws, we);
      var planned := FetchPlanned(plannedStops, wc, ws, we);
      var raw := SM.ComputeStates(SM.DEFAULT_CONFIG, pulses, ws, we);
      SM.RawTiles(SM.DEFAULT_CONFIG, pulses, ws, we, raw);
      var derived := PS.ApplyPlannedStops(raw, planned);
      assert Derived(pulses, planned, ws, we, derived);
      var stops := Stops(derived);
      DerivedSome(pulses, planned, ws, we, derived);
      var done := ReplaceDerived(wc, ws, we, derived, stops);
      r := if done.Ok? then Ok((|derived|, |stops|)) else Err(done.error);
    }

    method ClassifyDowntime(id: nat, reason: string, user: string, now: int) returns (r: Result<DowntimeRow>)
      modifies this`downtime
      ensures var done := Classified(old(View()), id, reason, Stamp(user, now));
              View() == Committed(old(View()), done) && (done.Err? ==> r == Err(done.error))
      ensures r.Ok? ==> r.value in downtime && r.value.id == id && r.value.reason == Some(reason)
                        && r.value.classified == Some(Stamp(user, now))
      ensures |downtime| == |old(downtime)|
      ensures forall j :: 0 <= j < |downtime| && (r.Err? || Some(j) != FindDowntime(old(downtime), id)) ==>
                downtime[j] == old(downtime)[j]
      ensures r.Ok? <==> reason in reasons && user in users && FindDowntime(old(downtime), id).Some?
    {
      var found := FindDowntime(downtime, id);
      if found.None? {
        return Err(NotFound);
      }
      if !KnownReason(View(), Some(reason), user) {
        return Err(InvalidReference);
      }
      var i := found.value;
      downtime := downtime[i := downtime[i].(reason := Some(reason), classified := Some(Stamp(user, now)))];
      r := Ok(downtime[i]);
    }

    method SplitDowntime(id: nat, at: int, first: Option<string>, second: Option<string>, user: string, now: int)
      returns (r: Result<(DowntimeRow, DowntimeRow)>)
      modifies this
      ensures var done := SplitApart(old(View()), id, at, first, second, Stamp(user, now));
              View() == Committed(old(View()), done) && (done.Err? ==> r == Err(done.error))
      ensures r.Ok? <==> var found := FindDowntime(old(downtime), id);
                         && found.Some?
                         && old(downtime)[found.value].span.start < at < old(downtime)[found.value].span.end
                         && (first.Some? ==> first.value in reasons && user in users)
                         && (second.Some? ==> second.value in reasons && user in users)
      ensures r.Ok? ==> r.value.0 in downtime && r.value.1 in downtime && |downtime| == |old(downtime)| + 1
      ensures r.Ok? ==> forall j :: 0 <= j < |old(downtime)| && Some(j) != FindDowntime(old(downtime), id) ==>
                downtime[j] == old(downtime)[j]
      ensures r.Ok? ==>
                var original := old(downtime)[FindDowntime(old(downtime), id).value];
                var (head, tail) := r.value;
                && head.id == id && tail.id == old(nextId) && head.workCenter == tail.workCenter == original.workCenter
                && head.span.state == tail.span.state == original.span.state
                && head.span.start == original.span.start && head.span.end == at
                && tail.span.start == at && tail.span.end == original.span.end
                && head.reason == first && tail.reason == second
                && head.classified == (if first.Some? then Some(Stamp(user, now)) else original.classified)
                && tail.classified == (if second.Some? then Some(Stamp(user, now)) else None)
    {
      var found := FindDowntime(downtime, id);
      if found.None? {
        return Err(NotFound);
      }
      var i := found.value;
      var original := downtime[i];
      if at <= original.span.start || at >= original.span.end {
        return Err(Conflict);
      }
      if !KnownReason(View(), first, user) || !KnownReason(View(), second, user) {
        return Err(InvalidReference);
      }
      var head := original.(span := original.span.(end := at), reason := first,
                            classified := StampOf(first, Stamp(user, now), original.classified));
      downtime := downtime[i := head];
      assert downtime[i] == head;
      var tail := DowntimeRow(nextId, original.workCenter, original.span.(start := at), second,
                              StampOf(second, Stamp(user, now), None));
      nextId := nextId + 1;
      downtime := downtime + [tail];
      assert downtime[i] == head && downtime[|downtime| - 1] == tail;
      r := Ok((head, tail));
    }
  }

  // ---- Runs ----------------------------------------------------------------

  datatype Action =
    | Recompute(wc: string, ws: int, we: int, pulses: seq<int>, planned: seq<PlannedInterval>)
    | Classify(id: nat, newReason: string, stamp: Stamp)
    | Split(id: nat, at: int, first: Option<string>, second: Option<string>, stamp: Stamp)

  /** `derived` is what the pipeline derives for the window. */
  ghost predicate Derived(pulses: seq<int>, planned: seq<PlannedInterval>, ws: int, we: int,
                          derived: seq<StateInterval>) {
    exists raw :: SM.IsRaw(SM.DEFAULT_CONFIG, pulses, ws, we, raw) && PS.IsOverlay(raw, planned, derived)
  }

  ghost predicate Step(s: Tables, a: Action, s': Tables) {
    match a
    case Recompute(wc, ws, we, pulses, planned) =>
      && (forall p :: p in pulses ==> ws <= p <= we)
      && exists derived :: Derived(pulses, planned, ws, we, derived)
           && s' == Committed(s, Rewritten(s, wc, ws, we, derived, Stops(derived)))
    case Classify(id, reason, stamp) => s' == Committed(s, Classified(s, id, reason, stamp))
    case Split(id, at, first, second, stamp) => s' == Committed(s, SplitApart(s, id, at, first, second, stamp))
  }

  /** A run: each table state follows from the one before by one action. */
  ghost predicate IsRun(trace: seq<Tables>, actions: seq<Action>) {
    && |trace| == |actions| + 1
    && trace[0].states == [] && trace[0].downtime == [] && trace[0].nextId == 0
    && forall k :: 0 <= k < |actions| ==> Step(trace[k], actions[k], trace[k + 1])
  }

  /** Rows of one work center do not overlap. */
  predicate RowsApart(a: StateRow, b: StateRow) {
    a.workCenter == b.workCenter ==> a.span.end <= b.span.start || b.span.end <= a.span.start
  }

  predicate OtherId(a: DowntimeRow, b: DowntimeRow) {
    a.id != b.id
  }

  /** Stored states of one work center never overlap and are never empty. */
  ghost predicate StatesConsistent(rows: seq<StateRow>) {
    Pairwise(rows, RowsApart) && forall r :: r in rows ==> r.span.start < r.span.end
  }

  /** Downtime events are never empty and their ids are distinct and used up. */
  ghost predicate DowntimeConsistent(rows: seq<DowntimeRow>, nextId: nat) {
    Pairwise(rows, OtherId) && forall r :: r in rows ==> r.id < nextId && r.span.start < r.span.end
  }

  ghost predicate Consistent(s: Tables) {
    StatesConsistent(s.states) && DowntimeConsistent(s.downtime, s.nextId)
  }

  // ---- What a recompute derives --------------------------------------------

  /** The pipeline's result is a timeline, tiles the window, and is unique. */
  lemma DerivedMeaning(pulses: seq<int>, planned: seq<PlannedInterval>, ws: int, we: int, derived: seq<StateInterval>)
    requires Derived(pulses, planned, ws, we, derived) && forall p :: p in pulses ==> ws <= p <= we
    ensures IsTimeline(derived)
    ensures forall t :: StateAt(derived, t).Some? <==> ws <= t < we
    ensures forall t :: StateAt(derived, t) == Some(PlannedStop) <==> ws <= t < we && Covered(planned, t)
    ensures forall i :: 0 <= i < |derived| ==> ws <= derived[i].start < derived[i].end <= we
  {
    var raw :| SM.IsRaw(SM.DEFAULT_CONFIG, pulses, ws, we, raw) && PS.IsOverlay(raw, planned, derived);
    SM.RawTiles(SM.DEFAULT_CONFIG, pulses, ws, we, raw);
    assert forall t :: StateAt(derived, t) == PS.OverlayAt(raw, planned, t);
    forall i | 0 <= i < |derived| ensures ws <= derived[i].start < derived[i].end <= we {
      StateAtIndex(derived, i, derived[i].start);
      StateAtIndex(derived, i, derived[i].end - 1);
    }
  }

  /** A window of positive length derives something, any other nothing. */
  lemma DerivedSome(pulses: seq<int>, planned: seq<PlannedInterval>, ws: int, we: int, derived: seq<StateInterval>)
    requires Derived(pulses, planned, ws, we, derived) && forall p :: p in pulses ==> ws <= p <= we
    ensures derived != [] <==> ws < we
    ensures derived == [] ==> Stops(derived) == []
  {
    DerivedMeaning(pulses, planned, ws, we, derived);
    if ws < we {
      assert StateAt(derived, ws).Some?;
    }
  }

  lemma DerivedUnique(pulses: seq<int>, planned: seq<PlannedInterval>, ws: int, we: int,
                      a: seq<StateInterval>, b: seq<StateInterval>)
    requires Derived(pulses, planned, ws, we, a) && Derived(pulses, planned, ws, we, b)
    requires forall p :: p in pulses ==> ws <= p <= we
    ensures a == b
  {
    var ra :| SM.IsRaw(SM.DEFAULT_CONFIG, pulses, ws, we, ra) && PS.IsOverlay(ra, planned, a);
    var rb :| SM.IsRaw(SM.DEFAULT_CONFIG, pulses, ws, we, rb) && PS.IsOverlay(rb, planned, b);
    SM.RawUnique(SM.DEFAULT_CONFIG, pulses, ws, we, ra, rb);
    SM.RawTiles(SM.DEFAULT_CONFIG, pulses, ws, we, ra);
    PS.OverlayCanonical(ra, planned, planned, a, b);
  }

  // ---- Invariants of every run ---------------------------------------------

  lemma FreshRowsApart(wc: string, derived: seq<StateInterval>)
    requires IsTimeline(derived)
    ensures StatesConsistent(StateRows(wc, derived))
  {
  }

  lemma ReplaceKeepsStates(rows: seq<StateRow>, wc: string, ws: int, we: int, derived: seq<StateInterval>)
    requires StatesConsistent(rows) && IsTimeline(derived)
    requires forall i :: 0 <= i < |derived| ==> ws <= derived[i].start < derived[i].end <= we
    ensures StatesConsistent(KeptStates(rows, wc, ws, we) + StateRows(wc, derived))
  {
    PairwiseSelect(rows, (r: StateRow) => SparesState(r, wc, ws, we), RowsApart);
    FreshRowsApart(wc, derived);
    PairwiseConcat(KeptStates(rows, wc, ws, we), StateRows(wc, derived), RowsApart);
  }

  lemma ReplaceKeepsDowntime(rows: seq<DowntimeRow>, wc: string, ws: int, we: int, stops: seq<StateInterval>,
                             nextId: nat)
    requires DowntimeConsistent(rows, nextId)
    requires forall i :: 0 <= i < |stops| ==> stops[i].start < stops[i].end
    ensures DowntimeConsistent(KeptDowntime(rows, wc, ws, we) + DowntimeRows(wc, stops, nextId), nextId + |stops|)
  {
    PairwiseSelect(rows, (r: DowntimeRow) => SparesDowntime(r, wc, ws, we), OtherId);
    PairwiseConcat(KeptDowntime(rows, wc, ws, we), DowntimeRows(wc, stops, nextId), OtherId);
  }

  lemma SplitKeepsDowntime(s: Tables, id: nat, at: int, first: Option<string>, second: Option<string>, stamp: Stamp)
    requires DowntimeConsistent(s.downtime, s.nextId)
    ensures var s' := Committed(s, SplitApart(s, id, at, first, second, stamp));
            DowntimeConsistent(s'.downtime, s'.nextId)
  {
    var s' := Committed(s, SplitApart(s, id, at, first, second, stamp));
    if s' != s {
      var i := FindDowntime(s.downtime, id).value;
      var updated := s'.downtime[..|s.downtime|];
      assert s'.downtime == updated + [s'.downtime[|s.downtime|]];
      assert updated == s.downtime[i := updated[i]] && updated[i].id == s.downtime[i].id;
      PairwiseAppend(updated, s'.downtime[|s.downtime|], OtherId);
    }
  }

  lemma StepKeepsConsistent(s: Tables, a: Action, s': Tables)
    requires Consistent(s) && Step(s, a, s')
    ensures Consistent(s')
  {
    match a
    case Recompute(wc, ws, we, pulses, planned) =>
      var derived :| Derived(pulses, planned, ws, we, derived)
          && s' == Committed(s, Rewritten(s, wc, ws, we, derived, Stops(derived)));
      DerivedMeaning(pulses, planned, ws, we, derived);
      ReplaceKeepsStates(s.states, wc, ws, we, derived);
      var stops := Stops(derived);
      forall i | 0 <= i < |stops| ensures stops[i].start < stops[i].end {
        assert stops[i] in stops;
      }
      ReplaceKeepsDowntime(s.downtime, wc, ws, we, stops, s.nextId);
    case Classify(id, reason, stamp) =>
    case Split(id, at, first, second, stamp) =>
      SplitKeepsDowntime(s, id, at, first, second, stamp);
  }

  /** In every state of every run, stored states of a work center do not overlap. */
  lemma {:induction false} RunConsistent(trace: seq<Tables>, actions: seq<Action>, k: nat)
    requires IsRun(trace, actions) && k < |trace|
    ensures Consistent(trace[k])
  {
    if k > 0 {
      RunConsistent(trace, actions, k - 1);
      StepKeepsConsistent(trace[k - 1], actions[k - 1], trace[k]);
    }
  }

  // ---- What one recompute does ---------------------------------------------

  /** The rows of the work center that overlap the window are then exactly the derived timeline,
      and all other rows are as before, in the same order. */
  lemma RecomputeWindowExact(s: Tables, wc: string, ws: int, we: int, pulses: seq<int>, planned: seq<PlannedInterval>,
                             derived: seq<StateInterval>)
    requires Derived(pulses, planned, ws, we, derived) && forall p :: p in pulses ==> ws <= p <= we
    ensures var s' := Replaced(s, wc, ws, we, derived, Stops(derived));
            var inside := (r: StateRow) => r.workCenter == wc && r.span.start < we && r.span.end > ws;
            var outside := (r: StateRow) => r.workCenter != wc || r.span.start >= we || r.span.end <= ws;
            && Select(s'.states, inside) == StateRows(wc, derived)
            && Select(s'.states, outside) == Select(s.states, outside)
  {
    hide Derived, Stops;
    DerivedMeaning(pulses, planned, ws, we, derived);
    hide StateAt, IsTimeline;
    var inside := (r: StateRow) => r.workCenter == wc && r.span.start < we && r.span.end > ws;
    var outside := (r: StateRow) => r.workCenter != wc || r.span.start >= we || r.span.end <= ws;
    var kept, rows := KeptStates(s.states, wc, ws, we), StateRows(wc, derived);
    SelectSame(s.states, outside, (r: StateRow) => SparesState(r, wc, ws, we));
    SelectParts(kept, rows, outside, inside);
  }

  /** The same for downtime: the unclassified events of the work center that overlap the window are
      the derived stops, and all other events are as before. */
  lemma RecomputeDowntimeExact(s: Tables, wc: string, ws: int, we: int, derived: seq<StateInterval>)
    requires forall i :: 0 <= i < |derived| ==> ws <= derived[i].start < derived[i].end <= we
    ensures var s' := Replaced(s, wc, ws, we, derived, Stops(derived));
            var open := (r: DowntimeRow) =>
              r.workCenter == wc && r.reason.None? && r.span.start < we && r.span.end > ws;
            var other := (r: DowntimeRow) =>
              r.workCenter != wc || r.reason.Some? || r.span.start >= we || r.span.end <= ws;
            && Select(s'.downtime, open) == DowntimeRows(wc, Stops(derived), s.nextId)
            && Select(s'.downtime, other) == Select(s.downtime, other)
  {
    var open := (r: DowntimeRow) => r.workCenter == wc && r.reason.None? && r.span.start < we && r.span.end > ws;
    var other := (r: DowntimeRow) => r.workCenter != wc || r.reason.Some? || r.span.start >= we || r.span.end <= ws;
    var kept, rows := KeptDowntime(s.downtime, wc, ws, we), DowntimeRows(wc, Stops(derived), s.nextId);
    forall r | r in rows ensures open(r) {
      var j :| 0 <= j < |rows| && rows[j] == r;
      assert Stops(derived)[j] in Stops(derived);
    }
    SelectSame(s.downtime, other, (r: DowntimeRow) => SparesDowntime(r, wc, ws, we));
    SelectParts(kept, rows, other, open);
  }

  /** Classified downtime survives every recompute verbatim, as does everything outside. */
  lemma RecomputeKeepsClassified(s: Tables, a: Action, s': Tables, row: DowntimeRow)
    requires Step(s, a, s') && a.Recompute? && row in s.downtime
    requires row.reason.Some? || row.workCenter != a.wc || !Overlaps(row.span, a.ws, a.we)
    ensures row in s'.downtime
  {
  }

  /** Over any stretch of recomputes, a classified event stays exactly as it was. */
  lemma {:induction false} RecomputesKeepClassified(trace: seq<Tables>, actions: seq<Action>, i: nat, j: nat,
                                                    row: DowntimeRow)
    requires IsRun(trace, actions) && i <= j < |trace|
    requires forall k :: i <= k < j ==> actions[k].Recompute?
    requires row in trace[i].downtime && row.reason.Some?
    ensures row in trace[j].downtime
  {
    if i < j {
      RecomputesKeepClassified(trace, actions, i, j - 1, row);
      RecomputeKeepsClassified(trace[j - 1], actions[j - 1], trace[j], row);
    }
  }

  /** Downtime events of one work center do not overlap. */
  predicate EventsApart(a: DowntimeRow, b: DowntimeRow) {
    a.workCenter == b.workCenter ==> a.span.end <= b.span.start || b.span.end <= a.span.start
  }

  /** Some classified event of the work center overlaps a derived stop. */
  ghost predicate ClassifiedOverlaps(rows: seq<DowntimeRow>, wc: string, stops: seq<StateInterval>) {
    exists r, x :: r in rows && x in stops && r.workCenter == wc && r.reason.Some? && Overlaps(r.span, x.start, x.end)
  }

  lemma FreshEventsApart(wc: string, derived: seq<StateInterval>, id: nat)
    requires IsTimeline(derived)
    ensures Pairwise(DowntimeRows(wc, Stops(derived), id), EventsApart)
  {
    var before := (a: StateInterval, b: StateInterval) => a.end <= b.start;
    assert Pairwise(derived, before);
    PairwiseSelect(derived, (s: StateInterval) => s.state != Running && s.state != PlannedStop, before);
    var rows := DowntimeRows(wc, Stops(derived), id);
    forall i, j | 0 <= i < j < |rows| ensures EventsApart(rows[i], rows[j]) {
      assert before(Stops(derived)[i], Stops(derived)[j]);
    }
  }

  /** If downtime events did not overlap before a recompute, they do not overlap after it
      exactly when no classified event of the work center overlaps a derived stop. */
  lemma DowntimeApartIff(s: Tables, wc: string, ws: int, we: int, derived: seq<StateInterval>)
    requires Pairwise(s.downtime, EventsApart) && IsTimeline(derived)
    requires forall i :: 0 <= i < |derived| ==> ws <= derived[i].start < derived[i].end <= we
    ensures Pairwise(Replaced(s, wc, ws, we, derived, Stops(derived)).downtime, EventsApart) <==>
            !ClassifiedOverlaps(s.downtime, wc, Stops(derived))
  {
    hide Pairwise, IsTimeline, EventsApart, KeptDowntime;
    var stops := Stops(derived);
    var kept, added := KeptDowntime(s.downtime, wc, ws, we), DowntimeRows(wc, stops, s.nextId);
    KeptEventsApart(s.downtime, wc, ws, we);
    FreshEventsApart(wc, derived, s.nextId);
    if ClassifiedOverlaps(s.downtime, wc, stops) {
      CopyOverlaps(s.downtime, wc, ws, we, derived, s.nextId);
    } else {
      forall r, y | r in kept && y in added ensures EventsApart(r, y) {
        KeptApart(s.downtime, wc, ws, we, derived, s.nextId, r, y);
      }
      PairwiseConcat(kept, added, EventsApart);
    }
  }

  /** Classified downtime survives, and is also derived again: a classified event of the work
      center whose span is still a stop of the timeline is doubled by an unclassified copy. */
  lemma ClassifiedStopCopied(s: Tables, wc: string, ws: int, we: int, derived: seq<StateInterval>, row: DowntimeRow)
    requires Consistent(s) && row in s.downtime && row.reason.Some? && row.workCenter == wc
    requires row.span in Stops(derived)
    ensures var s' := Replaced(s, wc, ws, we, derived, Stops(derived));
            && row in s'.downtime
            && exists copy :: copy in s'.downtime && copy.id != row.id && copy.workCenter == wc
                              && copy.span == row.span && copy.reason.None?
  {
    var stops := Stops(derived);
    var i :| 0 <= i < |stops| && stops[i] == row.span;
    var copy := DowntimeRows(wc, stops, s.nextId)[i];
    assert copy in Replaced(s, wc, ws, we, derived, stops).downtime;
  }

  /** Recompute an idle window, classify its stop, recompute the window: the run ends with two
      downtime events of one work center on the same span. */
  lemma OverlappingEventsReachable() returns (trace: seq<Tables>, actions: seq<Action>)
    ensures IsRun(trace, actions) && |actions| == 3
    ensures !Pairwise(trace[3].downtime, EventsApart)
  {
    hide Replaced, Step, IsRun, Derived, Stops, Pairwise, EventsApart;
    var stop, stamp := StateInterval(MicroStop, 0, 10), Stamp("u", 0);
    var row := DowntimeRow(0, "w", stop, None, None);
    var s0 := Tables([], [], 0, {"w"}, {"r"}, {"u"});
    var s1 := s0.(states := [StateRow("w", stop)], downtime := [row], nextId := 1);
    var s2 := s1.(downtime := [row.(reason := Some("r"), classified := Some(stamp))]);
    var s3 := Replaced(s2, "w", 0, 10, [stop], [stop]);
    trace := [s0, s1, s2, s3];
    actions := [Recompute("w", 0, 10, [], []), Classify(0, "r", stamp), Recompute("w", 0, 10, [], [])];
    FirstRecompute(s0, stop);
    RecomputeIdle(s0, "w", 0, 10);
    ClassifyOnly(s1, row, "r", stamp);
    RecomputeIdle(s2, "w", 0, 10);
    IdleWindow(0, 10);
    RunOfThree(s0, actions[0], s1, actions[1], s2, actions[2], s3);
    Doubled(s2, "w", 0, 10, stop);
  }

  lemma FirstRecompute(s: Tables, stop: StateInterval)
    requires s.states == [] && s.downtime == [] && s.nextId == 0
    ensures Replaced(s, "w", 0, 10, [stop], [stop]) ==
            s.(states := [StateRow("w", stop)], downtime := [DowntimeRow(0, "w", stop, None, None)], nextId := 1)
  {
    assert StateRows("w", [stop]) == [StateRow("w", stop)];
    assert DowntimeRows("w", [stop], 0) == [DowntimeRow(0, "w", stop, None, None)];
  }

  lemma RecomputeIdle(s: Tables, wc: string, ws: int, we: int)
    requires ws < we <= ws + SM.DEFAULT_CONFIG.downAfter && wc in s.workCenters
    ensures var stop := [StateInterval(MicroStop, ws, we)];
            Step(s, Recompute(wc, ws, we, [], []), Replaced(s, wc, ws, we, stop, stop))
  {
    hide Derived, Stops, Replaced;
    IdleWindow(ws, we);
  }

  lemma ClassifyOnly(s: Tables, row: DowntimeRow, reason: string, stamp: Stamp)
    requires s.downtime == [row] && reason in s.reasons && stamp.user in s.users
    ensures Step(s, Classify(row.id, reason, stamp),
                 s.(downtime := [row.(reason := Some(reason), classified := Some(stamp))]))
  {
  }

  lemma RunOfThree(s0: Tables, a: Action, s1: Tables, b: Action, s2: Tables, c: Action, s3: Tables)
    requires s0.states == [] && s0.downtime == [] && s0.nextId == 0
    requires Step(s0, a, s1) && Step(s1, b, s2) && Step(s2, c, s3)
    ensures IsRun([s0, s1, s2, s3], [a, b, c])
  {
    hide Step;
  }

  lemma Doubled(s: Tables, wc: string, ws: int, we: int, stop: StateInterval)
    requires |s.downtime| == 1 && s.downtime[0].reason.Some? && s.downtime[0].workCenter == wc
    requires s.downtime[0].span == stop && stop.start < stop.end && Stops([stop]) == [stop]
    ensures !Pairwise(Replaced(s, wc, ws, we, [stop], [stop]).downtime, EventsApart)
  {
    hide Stops;
    assert s.downtime[0] in s.downtime && stop in [stop];
    CopyOverlaps(s.downtime, wc, ws, we, [stop], s.nextId);
  }

  /** A window without pulses and planned stops is one stop. */
  lemma IdleWindow(ws: int, we: int)
    requires ws < we <= ws + SM.DEFAULT_CONFIG.downAfter
    ensures Derived([], [], ws, we, [StateInterval(MicroStop, ws, we)])
    ensures Stops([StateInterval(MicroStop, ws, we)]) == [StateInterval(MicroStop, ws, we)]
  {
    var raw := [StateInterval(MicroStop, ws, we)];
    PS.OverlayNothing(raw);
    assert SM.IsRaw(SM.DEFAULT_CONFIG, [], ws, we, raw);
    SelectAll(raw, (s: StateInterval) => s.state != Running && s.state != PlannedStop);
  }

  lemma KeptEventsApart(rows: seq<DowntimeRow>, wc: string, ws: int, we: int)
    requires Pairwise(rows, EventsApart)
    ensures Pairwise(KeptDowntime(rows, wc, ws, we), EventsApart)
  {
    PairwiseSelect(rows, (r: DowntimeRow) => SparesDowntime(r, wc, ws, we), EventsApart);
  }

  lemma CopyOverlaps(rows: seq<DowntimeRow>, wc: string, ws: int, we: int, derived: seq<StateInterval>, id: nat)
    requires ClassifiedOverlaps(rows, wc, Stops(derived))
    ensures !Pairwise(KeptDowntime(rows, wc, ws, we) + DowntimeRows(wc, Stops(derived), id), EventsApart)
  {
    var stops := Stops(derived);
    var kept, added := KeptDowntime(rows, wc, ws, we), DowntimeRows(wc, stops, id);
    var r, x :| r in rows && x in stops && r.workCenter == wc && r.reason.Some? && Overlaps(r.span, x.start, x.end);
    assert r in kept;
    hide KeptDowntime, Stops;
    var i :| 0 <= i < |kept| && kept[i] == r;
    var j :| 0 <= j < |stops| && stops[j] == x;
    PairwiseBroken(kept, added, i, j, EventsApart);
  }

  lemma KeptApart(rows: seq<DowntimeRow>, wc: string, ws: int, we: int, derived: seq<StateInterval>, id: nat,
                  r: DowntimeRow, y: DowntimeRow)
    requires !ClassifiedOverlaps(rows, wc, Stops(derived))
    requires forall i :: 0 <= i < |derived| ==> ws <= derived[i].start < derived[i].end <= we
    requires r in KeptDowntime(rows, wc, ws, we) && y in DowntimeRows(wc, Stops(derived), id)
    ensures EventsApart(r, y)
  {
    var stops, added := Stops(derived), DowntimeRows(wc, Stops(derived), id);
    var j :| 0 <= j < |added| && added[j] == y;
    assert stops[j] in stops && stops[j] in derived;
    assert SparesDowntime(r, wc, ws, we) && r in rows;
  }

  // ---- Downtime outside the window -----------------------------------------

  /** The work center has a downtime event at `t`. */
  ghost predicate DownAt(rows: seq<DowntimeRow>, wc: string, t: int) {
    exists r :: r in rows && r.workCenter == wc && r.span.Contains(t)
  }

  /** An unclassified event that reaches into the window and out of it. */
  predicate LooseStraddler(r: DowntimeRow, wc: string, ws: int, we: int) {
    && r.workCenter == wc && r.reason.None? && Overlaps(r.span, ws, we)
    && (r.span.start < ws || we < r.span.end)
  }

  /** No downtime outside the window appears or disappears. */
  ghost predicate DowntimeKeptOutside(before: seq<DowntimeRow>, after: seq<DowntimeRow>, wc: string, ws: int, we: int) {
    forall t :: !(ws <= t < we) ==> (DownAt(after, wc, t) <==> DownAt(before, wc, t))
  }

  lemma DownOutside(s: Tables, wc: string, ws: int, we: int, derived: seq<StateInterval>, t: int)
    requires forall i :: 0 <= i < |derived| ==> ws <= derived[i].start < derived[i].end <= we
    requires !(ws <= t < we)
    ensures DownAt(Replaced(s, wc, ws, we, derived, Stops(derived)).downtime, wc, t) <==>
            DownAt(KeptDowntime(s.downtime, wc, ws, we), wc, t)
  {
    var kept, added := KeptDowntime(s.downtime, wc, ws, we), DowntimeRows(wc, Stops(derived), s.nextId);
    assert forall x :: x in Stops(derived) ==> x in derived && !x.Contains(t);
    forall r | r in added ensures !r.span.Contains(t) {
      var j :| 0 <= j < |added| && added[j] == r;
      assert Stops(derived)[j] in Stops(derived);
    }
    hide KeptDowntime;
    assert forall r :: r in kept + added <==> r in kept || r in added;
  }

  /** An event that the recompute spares holds `t`. */
  ghost predicate SparedAt(rows: seq<DowntimeRow>, wc: string, ws: int, we: int, t: int) {
    exists q :: q in rows && q.workCenter == wc && q.span.Contains(t) && SparesDowntime(q, wc, ws, we)
  }

  /** Wherever an unclassified straddling event lies outside the window, a spared one does too. */
  ghost predicate StraddlersBacked(rows: seq<DowntimeRow>, wc: string, ws: int, we: int) {
    forall r, t :: r in rows && LooseStraddler(r, wc, ws, we) && r.span.Contains(t) && !(ws <= t < we) ==>
      SparedAt(rows, wc, ws, we, t)
  }

  lemma KeptIsSpared(rows: seq<DowntimeRow>, wc: string, ws: int, we: int, t: int)
    ensures DownAt(KeptDowntime(rows, wc, ws, we), wc, t) <==> SparedAt(rows, wc, ws, we, t)
  {
    var kept := KeptDowntime(rows, wc, ws, we);
    assert forall r :: r in kept <==> r in rows && SparesDowntime(r, wc, ws, we);
  }

  /** A recompute leaves the downtime outside its window alone exactly when every unclassified
      event that straddles the window's edge is backed there by an event that stays. */
  lemma DowntimeOutsideKeptIff(s: Tables, wc: string, ws: int, we: int, derived: seq<StateInterval>)
    requires forall i :: 0 <= i < |derived| ==> ws <= derived[i].start < derived[i].end <= we
    ensures var s' := Replaced(s, wc, ws, we, derived, Stops(derived));
            DowntimeKeptOutside(s.downtime, s'.downtime, wc, ws, we) <==> StraddlersBacked(s.downtime, wc, ws, we)
  {
    hide Replaced, Stops, KeptDowntime;
    var s' := Replaced(s, wc, ws, we, derived, Stops(derived));
    forall t | !(ws <= t < we) ensures DownAt(s'.downtime, wc, t) <==> SparedAt(s.downtime, wc, ws, we, t) {
      DownOutside(s, wc, ws, we, derived, t);
      KeptIsSpared(s.downtime, wc, ws, we, t);
    }
    BackedMeansKept(s.downtime, wc, ws, we);
  }

  lemma BackedMeansKept(rows: seq<DowntimeRow>, wc: string, ws: int, we: int)
    ensures StraddlersBacked(rows, wc, ws, we) <==>
            forall t :: !(ws <= t < we) ==> (SparedAt(rows, wc, ws, we, t) <==> DownAt(rows, wc, t))
  {
    if StraddlersBacked(rows, wc, ws, we) {
      forall t | !(ws <= t < we) && DownAt(rows, wc, t) ensures SparedAt(rows, wc, ws, we, t) {
        var r :| r in rows && r.workCenter == wc && r.span.Contains(t);
        assert LooseStraddler(r, wc, ws, we) || SparesDowntime(r, wc, ws, we);
      }
    }
  }

  lemma SameEvent(rows: seq<DowntimeRow>, r: DowntimeRow, q: DowntimeRow, wc: string, t: int)
    requires Pairwise(rows, EventsApart) && r in rows && q in rows && r.workCenter == q.workCenter == wc
    requires r.span.Contains(t) && q.span.Contains(t)
    ensures r == q
  {
  }

  /** Where events do not overlap, nothing backs a straddling event: downtime outside the window
      is kept exactly when no unclassified event straddles the edge. */
  lemma DowntimeOutsideKeptApart(s: Tables, wc: string, ws: int, we: int, derived: seq<StateInterval>)
    requires Consistent(s) && Pairwise(s.downtime, EventsApart)
    requires forall i :: 0 <= i < |derived| ==> ws <= derived[i].start < derived[i].end <= we
    ensures var s' := Replaced(s, wc, ws, we, derived, Stops(derived));
            DowntimeKeptOutside(s.downtime, s'.downtime, wc, ws, we) <==>
            forall r :: r in s.downtime ==> !LooseStraddler(r, wc, ws, we)
  {
    hide Replaced, Stops, Pairwise, EventsApart;
    DowntimeOutsideKeptIff(s, wc, ws, we, derived);
    if r :| r in s.downtime && LooseStraddler(r, wc, ws, we) {
      var t := if r.span.start < ws then r.span.start else r.span.end - 1;
      if SparedAt(s.downtime, wc, ws, we, t) {
        var q :| q in s.downtime && q.workCenter == wc && q.span.Contains(t) && SparesDowntime(q, wc, ws, we);
        SameEvent(s.downtime, r, q, wc, t);
      }
      assert r.span.Contains(t) && !(ws <= t < we);
    }
  }

  /** Recompute an idle window, then its second half: the first half's downtime is lost. */
  lemma DowntimeLost() returns (trace: seq<Tables>, actions: seq<Action>)
    ensures IsRun(trace, actions) && |actions| == 2
    ensures DownAt(trace[1].downtime, "w", 0) && !DownAt(trace[2].downtime, "w", 0)
  {
    hide Replaced, Step, Derived, Stops;
    var whole, half := StateInterval(MicroStop, 0, 10), StateInterval(MicroStop, 5, 10);
    var row := DowntimeRow(0, "w", whole, None, None);
    var s0 := Tables([], [], 0, {"w"}, {}, {});
    var s1 := s0.(states := [StateRow("w", whole)], downtime := [row], nextId := 1);
    var s2 := Replaced(s1, "w", 5, 10, [half], [half]);
    FirstRecompute(s0, whole);
    RecomputeIdle(s0, "w", 0, 10);
    RecomputeIdle(s1, "w", 5, 10);
    trace, actions := [s0, s1, s2], [Recompute("w", 0, 10, [], []), Recompute("w", 5, 10, [], [])];
    assert row in s1.downtime && row.span.Contains(0);
    IdleWindow(5, 10);
    DownOutside(s1, "w", 5, 10, [half], 0);
    KeptIsSpared(s1.downtime, "w", 5, 10, 0);
  }

  // ---- Recomputing again ---------------------------------------------------

  function WithoutIds(rows: seq<DowntimeRow>): (r: seq<DowntimeRow>)
    ensures |r| == |rows|
    ensures forall i :: 0 <= i < |rows| ==> r[i] == rows[i].(id := 0)
  {
    seq(|rows|, i requires 0 <= i < |rows| => rows[i].(id := 0))
  }

  lemma KeptAgain(rows: seq<DowntimeRow>, wc: string, ws: int, we: int, stops: seq<StateInterval>, id: nat)
    requires forall x :: x in stops ==> Overlaps(x, ws, we)
    ensures KeptDowntime(KeptDowntime(rows, wc, ws, we) + DowntimeRows(wc, stops, id), wc, ws, we) ==
            KeptDowntime(rows, wc, ws, we)
  {
    var keep := (r: DowntimeRow) => SparesDowntime(r, wc, ws, we);
    var kept, added := KeptDowntime(rows, wc, ws, we), DowntimeRows(wc, stops, id);
    SelectConcat(kept, added, keep);
    SelectAll(kept, keep);
    SelectNone(added, keep);
  }

  lemma KeptStatesAgain(rows: seq<StateRow>, wc: string, ws: int, we: int, spans: seq<StateInterval>)
    requires forall i :: 0 <= i < |spans| ==> Overlaps(spans[i], ws, we)
    ensures KeptStates(KeptStates(rows, wc, ws, we) + StateRows(wc, spans), wc, ws, we) == KeptStates(rows, wc, ws, we)
  {
    var keep := (r: StateRow) => SparesState(r, wc, ws, we);
    var kept, added := KeptStates(rows, wc, ws, we), StateRows(wc, spans);
    SelectConcat(kept, added, keep);
    SelectAll(kept, keep);
    SelectNone(added, keep);
  }

  lemma IdsForgotten(kept: seq<DowntimeRow>, wc: string, stops: seq<StateInterval>, id1: nat, id2: nat)
    ensures WithoutIds(kept + DowntimeRows(wc, stops, id1)) == WithoutIds(kept + DowntimeRows(wc, stops, id2))
  {
    var a, b := kept + DowntimeRows(wc, stops, id1), kept + DowntimeRows(wc, stops, id2);
    assert forall i :: 0 <= i < |a| ==> a[i].(id := 0) == b[i].(id := 0);
  }

  /** An immediate second recompute on the same signals changes nothing but ids. */
  lemma RecomputeTwice(s: Tables, a: Action, s1: Tables, s2: Tables)
    requires a.Recompute? && Step(s, a, s1) && Step(s1, a, s2)
    ensures s2.states == s1.states
    ensures WithoutIds(s2.downtime) == WithoutIds(s1.downtime)
  {
    hide Derived, Stops, WithoutIds, KeptDowntime, KeptStates;
    var f1 :| Derived(a.pulses, a.planned, a.ws, a.we, f1)
              && s1 == Committed(s, Rewritten(s, a.wc, a.ws, a.we, f1, Stops(f1)));
    var f2 :| Derived(a.pulses, a.planned, a.ws, a.we, f2)
              && s2 == Committed(s1, Rewritten(s1, a.wc, a.ws, a.we, f2, Stops(f2)));
    DerivedUnique(a.pulses, a.planned, a.ws, a.we, f1, f2);
    StopsInside(a, f1);
    KeptStatesAgain(s.states, a.wc, a.ws, a.we, f1);
    KeptAgain(s.downtime, a.wc, a.ws, a.we, Stops(f1), s.nextId);
    IdsForgotten(KeptDowntime(s.downtime, a.wc, a.ws, a.we), a.wc, Stops(f1), s.nextId, s1.nextId);
  }

  lemma StopsInside(a: Action, derived: seq<StateInterval>)
    requires a.Recompute? && Derived(a.pulses, a.planned, a.ws, a.we, derived)
    requires forall p :: p in a.pulses ==> a.ws <= p <= a.we
    ensures forall i :: 0 <= i < |derived| ==> Overlaps(derived[i], a.ws, a.we)
    ensures forall x :: x in Stops(derived) ==> Overlaps(x, a.ws, a.we)
  {
    DerivedMeaning(a.pulses, a.planned, a.ws, a.we, derived);
  }

  // ---- Splitting conserves downtime ----------------------------------------

  function TotalDowntime(rows: seq<DowntimeRow>, wc: string): int {
    if rows == [] then 0
    else
      var r := rows[|rows| - 1];
      TotalDowntime(rows[..|rows| - 1], wc) + (if r.workCenter == wc then r.span.end - r.span.start else 0)
  }

  lemma {:induction false} TotalUpdate(rows: seq<DowntimeRow>, i: nat, row: DowntimeRow, wc: string)
    requires i < |rows| && row.workCenter == rows[i].workCenter
    ensures TotalDowntime(rows[i := row], wc) ==
            TotalDowntime(rows, wc) + (if row.workCenter == wc
                                       then (row.span.end - row.span.start) - (rows[i].span.end - rows[i].span.start)
                                       else 0)
  {
    var n := |rows| - 1;
    if i < n {
      TotalUpdate(rows[..n], i, row, wc);
      assert rows[i := row][..n] == rows[..n][i := row];
    } else {
      assert rows[i := row][..n] == rows[..n];
    }
  }

  /** Splitting (and classifying) conserves the downtime of every work center. */
  lemma SplitConserves(s: Tables, a: Action, s': Tables, wc: string)
    requires Step(s, a, s') && (a.Split? || a.Classify?)
    ensures TotalDowntime(s'.downtime, wc) == TotalDowntime(s.downtime, wc)
  {
    if s' != s {
      var i := FindDowntime(s.downtime, a.id).value;
      TotalUpdate(s.downtime, i, s'.downtime[i], wc);
      if a.Split? {
        var n := |s.downtime|;
        assert s'.downtime[..n] == s.downtime[i := s'.downtime[i]];
        assert s'.downtime == s'.downtime[..n] + [s'.downtime[n]];
      }
    }
  }

  // ---- Fetching ------------------------------------------------------------

  /** All planned stops of the work center. */
  function AllPlanned(rows: seq<PlannedRow>, wc: string): seq<PlannedInterval> {
    Spans(Select(rows, (r: PlannedRow) => r.workCenter == wc))
  }

  lemma PlannedRowOf(rows: seq<PlannedRow>, wc: string, p: PlannedInterval)
    ensures p in AllPlanned(rows, wc) <==> exists r :: r in rows && r.workCenter == wc && r.span == p
  {
    var chosen := Select(rows, (r: PlannedRow) => r.workCenter == wc);
    assert p in Spans(chosen) <==> exists r :: r in chosen && r.span == p;
  }

  lemma SameFetchedCover(rows: seq<PlannedRow>, wc: string, ws: int, we: int, t: int)
    requires ws <= t < we
    ensures Covered(FetchPlanned(rows, wc, ws, we), t) <==> Covered(AllPlanned(rows, wc), t)
  {
    hide FetchPlanned, AllPlanned;
    var fetched, all := FetchPlanned(rows, wc, ws, we), AllPlanned(rows, wc);
    if Covered(all, t) {
      var p :| p in all && p.Contains(t);
      PlannedRowOf(rows, wc, p);
      assert p in fetched;
    }
    if Covered(fetched, t) {
      var p :| p in fetched && p.Contains(t);
      PlannedRowOf(rows, wc, p);
      assert p in all;
    }
  }

  /** Fetching only overlapping planned stops loses nothing, and the order in which they come
      does not matter: the window comes out as if the work center's whole planned table had
      been laid over it. */
  lemma FetchPlannedComplete(pulses: seq<int>, rows: seq<PlannedRow>, wc: string, ws: int, we: int,
                             a: seq<StateInterval>, b: seq<StateInterval>)
    requires forall p :: p in pulses ==> ws <= p <= we
    requires Derived(pulses, FetchPlanned(rows, wc, ws, we), ws, we, a)
    requires Derived(pulses, AllPlanned(rows, wc), ws, we, b)
    ensures a == b
  {
    hide FetchPlanned, AllPlanned, SM.IsRaw;
    var fetched, all := FetchPlanned(rows, wc, ws, we), AllPlanned(rows, wc);
    var ra :| SM.IsRaw(SM.DEFAULT_CONFIG, pulses, ws, we, ra) && PS.IsOverlay(ra, fetched, a);
    var rb :| SM.IsRaw(SM.DEFAULT_CONFIG, pulses, ws, we, rb) && PS.IsOverlay(rb, all, b);
    hide PS.IsOverlay, Covered;
    SM.RawUnique(SM.DEFAULT_CONFIG, pulses, ws, we, ra, rb);
    SM.RawTiles(SM.DEFAULT_CONFIG, pulses, ws, we, ra);
    forall t | StateAt(ra, t).Some? ensures Covered(fetched, t) <==> Covered(all, t) {
      SameFetchedCover(rows, wc, ws, we, t);
    }
    PS.OverlayCanonical(ra, fetched, all, a, b);
  }
}
