/** Quality holds: failed inspections raise a nonconformance (NCR) and hold the material,
    dispositions and explicit releases lift holds, and held material cannot be issued. */
module QualityHolds {
  import opened Prelude

  datatype Outcome = Pass | Fail

  /** Inclusive limits; a missing bound is not enforced. */
  function Evaluate(value: real, lower: Option<real>, upper: Option<real>): (r: Outcome)
    ensures r == Pass <==> (lower.Some? ==> lower.value <= value) && (upper.Some? ==> value <= upper.value)
  {
    if lower.Some? && value < lower.value then Fail
    else if upper.Some? && value > upper.value then Fail
    else Pass
  }

  datatype Disposition = Rework | Scrap | UseAsIs | Return {
    predicate ReleasesHold() {
      Rework? || UseAsIs?
    }
  }

  datatype NcrStatus = Open | Dispositioned | Closed

  /** `result` is the position of the failed inspection among the results. */
  datatype Ncr = Ncr(result: nat, lot: Option<Id>, serial: Option<Id>, part: Option<Id>, status: NcrStatus,
                     disposition: Option<Disposition>)

  /** What a hold is on: an entity type, such as "lot" or "serial", and an id. */
  datatype Material = Material(kind: string, id: Id)

  function Lot(id: Id): Material {
    Material("lot", id)
  }

  function Serial(id: Id): Material {
    Material("serial", id)
  }

  datatype Hold = Hold(on: Material, active: bool, ncr: Option<Id>)

  datatype Limits = Limits(lower: Option<real>, upper: Option<real>)

  /** What happened, in order of commit. */
  datatype Event =
    | InspectionFailed(ncr: Id, lot: Option<Id>, serial: Option<Id>, lotHold: Id, serialHold: Id)
    | HoldPlaced(hold: Id, on: Material)
    | HoldReleased(hold: Id)
    | NcrDispositioned(ncr: Id, disposition: Disposition)
    | Issued(lot: Option<Id>, serial: Option<Id>)

  /** A measurement of a lot, a serial, both or neither. */
  datatype Inspection = Inspection(characteristic: Id, lot: Option<Id>, serial: Option<Id>, operation: Option<Id>,
                                   value: real, inspector: Id)

  datatype InspectionResult = InspectionResult(inspection: Inspection, outcome: Outcome)

  /** The tables; `lots` gives each lot's part, `serials` each serial's lot, if it has one. */
  datatype Tables = Tables(characteristics: map<Id, Limits>, lots: map<Id, Id>, serials: map<Id, Option<Id>>,
                           operations: set<Id>, users: set<Id>, results: seq<InspectionResult>, ncrs: map<Id, Ncr>,
                           holds: map<Id, Hold>)

  // ---- Transactions on values ----------------------------------------------

  predicate IsHeld(t: Tables, x: Material) {
    exists h :: h in t.holds && t.holds[h].on == x && t.holds[h].active
  }

  /** Every reference of a row to another table is met. */
  predicate Known(t: Tables, lot: Option<Id>, serial: Option<Id>, operation: Option<Id>, user: Id) {
    && (lot.Some? ==> lot.value in t.lots) && (serial.Some? ==> serial.value in t.serials)
    && (operation.Some? ==> operation.value in t.operations) && user in t.users
  }

  /** An NCR number is the first ten characters of its id. */
  function NcrNo(id: Id): string {
    if |id| <= 10 then id else id[..10]
  }

  /** `ncr_no` is unique. */
  predicate NcrNoTaken(t: Tables, id: Id) {
    exists n :: n in t.ncrs && NcrNo(n) == NcrNo(id)
  }

  function WithHold(holds: map<Id, Hold>, id: Id, on: Option<Material>, ncr: Option<Id>): map<Id, Hold> {
    if on.None? then holds else holds[id := Hold(on.value, true, ncr)]
  }

  function LotOf(lot: Option<Id>): Option<Material> {
    if lot.None? then None else Some(Lot(lot.value))
  }

  function SerialOf(serial: Option<Id>): Option<Material> {
    if serial.None? then None else Some(Serial(serial.value))
  }

  /** The part of the inspected lot, as far as there is one. */
  function PartOf(t: Tables, lot: Option<Id>): Option<Id> {
    if lot.Some? && lot.value in t.lots then Some(t.lots[lot.value]) else None
  }

  function OpenNcr(t: Tables, i: Inspection): Ncr {
    Ncr(|t.results|, i.lot, i.serial, PartOf(t, i.lot), Open, None)
  }

  function WithResult(t: Tables, i: Inspection, outcome: Outcome): Tables {
    t.(results := t.results + [InspectionResult(i, outcome)])
  }

  /** `record_result`: the result and, on a fail, the NCR and its holds in one transaction. */
  function RecordResult(t: Tables, i: Inspection, ncr: Id, lotHold: Id, serialHold: Id): Result<(Tables, Outcome)> {
    if i.characteristic !in t.characteristics then Err(NotFound)
    else
      var limits := t.characteristics[i.characteristic];
      if !Known(t, i.lot, i.serial, i.operation, i.inspector) then Err(InvalidReference)
      else if Evaluate(i.value, limits.lower, limits.upper) == Pass then Ok((WithResult(t, i, Pass), Pass))
      else if NcrNoTaken(t, ncr) then Err(Conflict)
      else
        var lotHeld := WithHold(t.holds, lotHold, LotOf(i.lot), Some(ncr));
        Ok((WithResult(t, i, Fail).(ncrs := t.ncrs[ncr := OpenNcr(t, i)],
                                    holds := WithHold(lotHeld, serialHold, SerialOf(i.serial), Some(ncr))),
            Fail))
  }

  /** `UPDATE holds SET status = 'released' WHERE ncr_id = ncr AND status = 'active'`. */
  function ReleasedFor(holds: map<Id, Hold>, ncr: Id): map<Id, Hold> {
    map h | h in holds :: if holds[h].ncr == Some(ncr) then holds[h].(active := false) else holds[h]
  }

  function DispositionNcr(t: Tables, ncr: Id, d: Disposition, actor: Id): Result<Tables> {
    if ncr !in t.ncrs || t.ncrs[ncr].status != Open then Err(NotFound)
    else if actor !in t.users then Err(InvalidReference)
    else
      Ok(t.(ncrs := t.ncrs[ncr := t.ncrs[ncr].(status := Dispositioned, disposition := Some(d))],
            holds := if d.ReleasesHold() then ReleasedFor(t.holds, ncr) else t.holds))
  }

  /** A manual hold.  Nothing checks that the material exists. */
  function PlaceHold(t: Tables, hold: Id, on: Material, actor: Id): Result<Tables> {
    if hold in t.holds then Err(Conflict)
    else if actor !in t.users then Err(InvalidReference)
    else Ok(t.(holds := t.holds[hold := Hold(on, true, None)]))
  }

  function ReleaseHold(t: Tables, hold: Id, actor: Id): Result<Tables> {
    if hold !in t.holds || !t.holds[hold].active then Err(NotFound)
    else if actor !in t.users then Err(InvalidReference)
    else Ok(t.(holds := t.holds[hold := t.holds[hold].(active := false)]))
  }

  /** Material that is held, lot or serial, cannot be issued. */
  function CanIssue(t: Tables, lot: Option<Id>, serial: Option<Id>, operation: Option<Id>, user: Id): Result<()> {
    if lot.Some? && IsHeld(t, Lot(lot.value)) then Err(Conflict)
    else if serial.Some? && IsHeld(t, Serial(serial.value)) then Err(Conflict)
    else if !Known(t, lot, serial, operation, user) then Err(InvalidReference)
    else Ok(())
  }

  // ---- The tables, updated in place ----------------------------------------

  class Store {
    const characteristics: map<Id, Limits>
    const lots: map<Id, Id>
    const serials: map<Id, Option<Id>>
    const operations: set<Id>
    const users: set<Id>
    var results: seq<InspectionResult>
    var ncrs: map<Id, Ncr>
    var holds: map<Id, Hold>
    var issues: seq<(Option<Id>, Option<Id>)>

    function View(): Tables
      reads this
    {
      Tables(characteristics, lots, serials, operations, users, results, ncrs, holds)
    }

    constructor (characteristics: map<Id, Limits>, lots: map<Id, Id>, serials: map<Id, Option<Id>>, operations: set<Id>,
                 users: set<Id>)
      ensures View() == Tables(characteristics, lots, serials, operations, users, [], map[], map[]) && issues == []
    {
      this.characteristics, this.lots, this.serials := characteristics, lots, serials;
      this.operations, this.users := operations, users;
      results, ncrs, holds, issues := [], map[], map[], [];
    }

    method Record(i: Inspection, ncr: Id, lotHold: Id, serialHold: Id) returns (r: Result<Outcome>)
      modifies this`results, this`ncrs, this`holds
      ensures match RecordResult(old(View()), i, ncr, lotHold, serialHold)
              case Ok((t, outcome)) => r == Ok(outcome) && View() == t
              case Err(error) => r == Err(error) && View() == old(View())
    {
      if i.characteristic !in characteristics {
        return Err(NotFound);
      }
      var limits := characteristics[i.characteristic];
      var outcome := Evaluate(i.value, limits.lower, limits.upper);
      if !Known(View(), i.lot, i.serial, i.operation, i.inspector) {
        return Err(InvalidReference);
      }
      if outcome == Fail && NcrNoTaken(View(), ncr) {
        return Err(Conflict); // the NCR insert fails and the result is rolled back with it
      }
      ghost var t := View();
      results := results + [InspectionResult(i, outcome)];
      if outcome == Fail {
        ghost var before := holds;
        ncrs := ncrs[ncr := Ncr(|results| - 1, i.lot, i.serial, PartOf(View(), i.lot), Open, None)];
        assert ncrs == t.ncrs[ncr := OpenNcr(t, i)];
        ghost var raised := ncrs;
        var targets := [(lotHold, LotOf(i.lot)), (serialHold, SerialOf(i.serial))];
        for k := 0 to 2
          invariant ncrs == raised && results == t.results + [InspectionResult(i, Fail)]
          invariant k == 0 ==> holds == before
          invariant k == 1 ==> holds == WithHold(before, lotHold, LotOf(i.lot), Some(ncr))
          invariant k == 2 ==> holds == WithHold(WithHold(before, lotHold, LotOf(i.lot), Some(ncr)),
                                                 serialHold, SerialOf(i.serial), Some(ncr))
        {
          if targets[k].1.Some? {
            holds := holds[targets[k].0 := Hold(targets[k].1.value, true, Some(ncr))];
          }
        }
      }
      r := Ok(outcome);
    }

    method Disposition(ncr: Id, d: Disposition, actor: Id) returns (r: Result<Ncr>)
      modifies this`ncrs, this`holds
      ensures match DispositionNcr(old(View()), ncr, d, actor)
              case Ok(t) => View() == t && r == Ok(t.ncrs[ncr])
              case Err(error) => View() == old(View()) && r == Err(error)
    {
      if ncr !in ncrs || ncrs[ncr].status != Open {
        return Err(NotFound);
      }
      if actor !in users {
        return Err(InvalidReference);
      }
      ncrs := ncrs[ncr := ncrs[ncr].(status := Dispositioned, disposition := Some(d))];
      if d.ReleasesHold() {
        holds := ReleasedFor(holds, ncr);
      }
      r := Ok(ncrs[ncr]);
    }

    /** A manual hold blocks its material, and no other, from now on. */
    method Place(id: Id, on: Material, actor: Id) returns (r: Result<Id>)
      modifies this`holds
      ensures View() == match PlaceHold(old(View()), id, on, actor) { case Ok(t) => t case Err(_) => old(View()) }
      ensures r.Ok? <==> id !in old(holds) && actor in users
      ensures forall x :: IsHeld(View(), x) <==> (r.Ok? && x == on) || old(IsHeld(View(), x))
      ensures r.Ok? && on.kind == "lot" ==> forall serial, operation, user ::
                CanIssue(View(), Some(on.id), serial, operation, user) == Err(Conflict)
      ensures r.Ok? && on.kind == "serial" ==> forall lot, operation, user ::
                CanIssue(View(), lot, Some(on.id), operation, user) == Err(Conflict)
    {
      if id in holds {
        return Err(Conflict);
      }
      if actor !in users {
        return Err(InvalidReference);
      }
      ghost var before := View();
      holds := holds[id := Hold(on, true, None)];
      HoldAdded(before, View(), id, on);
      r := Ok(id);
    }

    method Release(id: Id, actor: Id) returns (r: Result<()>)
      modifies this`holds
      ensures match ReleaseHold(old(View()), id, actor)
              case Ok(t) => View() == t && r == Ok(())
              case Err(error) => View() == old(View()) && r == Err(error)
    {
      if id !in holds || !holds[id].active {
        return Err(NotFound);
      }
      if actor !in users {
        return Err(InvalidReference);
      }
      holds := holds[id := holds[id].(active := false)];
      r := Ok(());
    }

    method Issue(lot: Option<Id>, serial: Option<Id>, operation: Option<Id>, user: Id) returns (r: Result<()>)
      modifies this`issues
      ensures r == CanIssue(View(), lot, serial, operation, user)
      ensures issues == if r.Ok? then old(issues) + [(lot, serial)] else old(issues)
    {
      if lot.Some? && IsHeld(View(), Lot(lot.value)) {
        return Err(Conflict);
      }
      if serial.Some? && IsHeld(View(), Serial(serial.value)) {
        return Err(Conflict);
      }
      if !Known(View(), lot, serial, operation, user) {
        return Err(InvalidReference);
      }
      issues := issues + [(lot, serial)];
      r := Ok(());
    }
  }

  lemma HoldAdded(t: Tables, t': Tables, id: Id, on: Material)
    requires id !in t.holds && t'.holds == t.holds[id := Hold(on, true, None)]
    ensures forall x :: IsHeld(t', x) <==> x == on || IsHeld(t, x)
  {
    forall x ensures IsHeld(t', x) <==> x == on || IsHeld(t, x) {
      if x == on {
        assert t'.holds[id].on == x && t'.holds[id].active;
      }
      if h :| h in t.holds && t.holds[h].on == x && t.holds[h].active {
        assert t'.holds[h] == t.holds[h];
      }
    }
  }

  // ---- Runs ----------------------------------------------------------------

  /** The tables and everything that happened so far. */
  datatype State = State(t: Tables, log: seq<Event>)

  datatype Action =
    | Inspect(i: Inspection, ncr: Id, lotHold: Id, serialHold: Id)
    | Decide(ncr: Id, d: Disposition, actor: Id)
    | Place(hold: Id, on: Material, actor: Id)
    | Release(hold: Id, actor: Id)
    | Issue(lot: Option<Id>, serial: Option<Id>, operation: Option<Id>, user: Id)

  /** Generated ids are new. */
  ghost predicate Enabled(s: State, a: Action) {
    match a
    case Inspect(_, ncr, lotHold, serialHold) =>
      ncr !in s.t.ncrs && lotHold !in s.t.holds && serialHold !in s.t.holds && lotHold != serialHold
    case Place(hold, _, _) => hold !in s.t.holds
    case _ => true
  }

  /** One call, atomic; a refused call changes nothing. */
  function Next(s: State, a: Action): State {
    match a
    case Inspect(i, ncr, lotHold, serialHold) =>
      (match RecordResult(s.t, i, ncr, lotHold, serialHold)
       case Ok((t, Fail)) => State(t, s.log + [InspectionFailed(ncr, i.lot, i.serial, lotHold, serialHold)])
       case Ok((t, Pass)) => s.(t := t)
       case Err(_) => s)
    case Decide(ncr, d, actor) =>
      (match DispositionNcr(s.t, ncr, d, actor)
       case Ok(t) => State(t, s.log + [NcrDispositioned(ncr, d)])
       case Err(_) => s)
    case Place(hold, on, actor) =>
      (match PlaceHold(s.t, hold, on, actor)
       case Ok(t) => State(t, s.log + [HoldPlaced(hold, on)])
       case Err(_) => s)
    case Release(hold, actor) =>
      (match ReleaseHold(s.t, hold, actor)
       case Ok(t) => State(t, s.log + [HoldReleased(hold)])
       case Err(_) => s)
    case Issue(lot, serial, operation, user) =>
      if CanIssue(s.t, lot, serial, operation, user).Ok? then s.(log := s.log + [Issued(lot, serial)]) else s
  }

  ghost predicate IsRun(trace: seq<State>, actions: seq<Action>) {
    && |trace| == |actions| + 1
    && trace[0].t.results == [] && trace[0].t.ncrs == map[] && trace[0].t.holds == map[] && trace[0].log == []
    && forall k :: 0 <= k < |actions| ==> Enabled(trace[k], actions[k]) && trace[k + 1] == Next(trace[k], actions[k])
  }

  // ---- What the log says ---------------------------------------------------

  /** Event `e` put `x` on hold `hold`, for NCR `ncr` if any. */
  predicate Holds(e: Event, x: Material, hold: Id, ncr: Option<Id>) {
    match e
    case InspectionFailed(n, lot, serial, lotHold, serialHold) =>
      ncr == Some(n) &&
      (|| (lot.Some? && x == Lot(lot.value) && hold == lotHold)
       || (serial.Some? && x == Serial(serial.value) && hold == serialHold))
    case HoldPlaced(h, on) => ncr == None && x == on && hold == h
    case _ => false
  }

  /** Event `e` lifts hold `hold` of NCR `ncr`: an explicit release, or rework or use-as-is. */
  predicate Lifts(e: Event, hold: Id, ncr: Option<Id>) {
    match e
    case HoldReleased(h) => h == hold
    case NcrDispositioned(n, d) => ncr == Some(n) && d.ReleasesHold()
    case _ => false
  }

  ghost predicate LiftedBetween(log: seq<Event>, j: int, i: int, hold: Id, ncr: Option<Id>) {
    exists k :: 0 <= j < k < i <= |log| && Lifts(log[k], hold, ncr)
  }

  predicate Issues(e: Event, x: Material) {
    e.Issued? && ((e.lot.Some? && x == Lot(e.lot.value)) || (e.serial.Some? && x == Serial(e.serial.value)))
  }

  /** Each hold put on `x` before position `i` has been lifted before `i`. */
  ghost predicate Cleared(log: seq<Event>, x: Material, i: int)
    requires 0 <= i <= |log|
  {
    forall j, hold, ncr :: 0 <= j < i && Holds(log[j], x, hold, ncr) ==> LiftedBetween(log, j, i, hold, ncr)
  }

  // ---- The invariant -------------------------------------------------------

  /** The hold placed by event `j` is in the table, and is active unless something lifted it. */
  ghost predicate Recorded(s: State, j: int, x: Material, hold: Id, ncr: Option<Id>)
    requires 0 <= j < |s.log|
  {
    && hold in s.t.holds && s.t.holds[hold].on == x && s.t.holds[hold].ncr == ncr
    && (!s.t.holds[hold].active ==> LiftedBetween(s.log, j, |s.log|, hold, ncr))
  }

  ghost predicate HoldsRecorded(s: State) {
    forall j, x, hold, ncr :: 0 <= j < |s.log| && Holds(s.log[j], x, hold, ncr) ==> Recorded(s, j, x, hold, ncr)
  }

  ghost predicate DecidedOnce(s: State) {
    && (forall i :: 0 <= i < |s.log| && s.log[i].NcrDispositioned? ==>
          s.log[i].ncr in s.t.ncrs && s.t.ncrs[s.log[i].ncr].status != Open)
    && (forall i, j :: 0 <= i < j < |s.log| && s.log[i].NcrDispositioned? && s.log[j].NcrDispositioned? ==>
          s.log[i].ncr != s.log[j].ncr)
  }

  ghost predicate IssuesClear(log: seq<Event>) {
    forall i, x :: 0 <= i < |log| && Issues(log[i], x) ==> Cleared(log, x, i)
  }

  ghost predicate Inv(s: State) {
    HoldsRecorded(s) && DecidedOnce(s) && IssuesClear(s.log)
  }

  lemma LiftedGrows(log: seq<Event>, e: Event, j: int, i: int, i': int, hold: Id, ncr: Option<Id>)
    requires LiftedBetween(log, j, i, hold, ncr) && i <= i' <= |log| + 1
    ensures LiftedBetween(log + [e], j, i', hold, ncr)
  {
    var k :| 0 <= j < k < i <= |log| && Lifts(log[k], hold, ncr);
    assert (log + [e])[k] == log[k];
  }

  lemma IssuesStayClear(log: seq<Event>, e: Event)
    requires IssuesClear(log)
    requires forall x :: Issues(e, x) ==> Cleared(log, x, |log|)
    ensures IssuesClear(log + [e])
  {
    var log' := log + [e];
    forall i, x | 0 <= i < |log'| && Issues(log'[i], x) ensures Cleared(log', x, i) {
      assert Cleared(log, x, i);
      forall j, hold, ncr | 0 <= j < i && Holds(log'[j], x, hold, ncr) ensures LiftedBetween(log', j, i, hold, ncr) {
        assert log'[j] == log[j];
        LiftedGrows(log, e, j, i, i, hold, ncr);
      }
    }
  }

  /** A step keeps earlier holds recorded if it keeps each hold row, except that it may make
      inactive those that its own event lifts. */
  lemma HoldsStayRecorded(s: State, t: Tables, e: Event)
    requires HoldsRecorded(s)
    requires forall h :: h in s.t.holds ==>
               h in t.holds && t.holds[h].on == s.t.holds[h].on && t.holds[h].ncr == s.t.holds[h].ncr
    requires forall h :: h in s.t.holds && s.t.holds[h].active && !t.holds[h].active ==> Lifts(e, h, t.holds[h].ncr)
    requires forall x, hold, ncr :: Holds(e, x, hold, ncr) ==> hold in t.holds && t.holds[hold] == Hold(x, true, ncr)
    ensures HoldsRecorded(State(t, s.log + [e]))
  {
    var s' := State(t, s.log + [e]);
    forall j, x, hold, ncr | 0 <= j < |s'.log| && Holds(s'.log[j], x, hold, ncr) ensures Recorded(s', j, x, hold, ncr) {
      if j < |s.log| {
        assert s'.log[j] == s.log[j];
        assert Recorded(s, j, x, hold, ncr);
        if !s.t.holds[hold].active {
          LiftedGrows(s.log, e, j, |s.log|, |s'.log|, hold, ncr);
        } else if !t.holds[hold].active {
          assert Lifts(s'.log[|s.log|], hold, ncr);
        }
      }
    }
  }

  /** Nothing active is on `x`: every hold ever put on it has been lifted. */
  lemma NotHeldMeansCleared(s: State, x: Material)
    requires HoldsRecorded(s) && !IsHeld(s.t, x)
    ensures Cleared(s.log, x, |s.log|)
  {
    forall j, hold, ncr | 0 <= j < |s.log| && Holds(s.log[j], x, hold, ncr)
      ensures LiftedBetween(s.log, j, |s.log|, hold, ncr)
    {
      assert Recorded(s, j, x, hold, ncr);
    }
  }

  lemma DecidedOnceKept(s: State, t: Tables, e: Event)
    requires DecidedOnce(s) && !e.NcrDispositioned?
    requires forall n :: n in s.t.ncrs ==> n in t.ncrs && t.ncrs[n] == s.t.ncrs[n]
    ensures DecidedOnce(State(t, s.log + [e]))
  {
    var log' := s.log + [e];
    assert forall i :: 0 <= i < |s.log| ==> log'[i] == s.log[i];
  }

  lemma PassKeeps(s: State, t: Tables)
    requires Inv(s) && t.ncrs == s.t.ncrs && t.holds == s.t.holds
    ensures Inv(s.(t := t))
  {
    hide IssuesClear;
    forall j, x, hold, ncr | 0 <= j < |s.log| && Holds(s.log[j], x, hold, ncr)
      ensures Recorded(s.(t := t), j, x, hold, ncr)
    {
      assert Recorded(s, j, x, hold, ncr);
    }
  }

  lemma InspectKeeps(s: State, a: Action)
    requires Inv(s) && a.Inspect? && Enabled(s, a)
    ensures Inv(Next(s, a))
  {
    hide Inv, Evaluate, NcrNoTaken, Known;
    var r := RecordResult(s.t, a.i, a.ncr, a.lotHold, a.serialHold);
    if r.Ok? {
      if r.value.1 == Pass {
        PassKeeps(s, r.value.0);
      } else {
        FailKeeps(s, r.value.0, a);
      }
    }
  }

  lemma FailKeeps(s: State, t: Tables, a: Action)
    requires Inv(s) && a.Inspect? && Enabled(s, a)
    requires t.ncrs == s.t.ncrs[a.ncr := OpenNcr(s.t, a.i)]
    requires t.holds == WithHold(WithHold(s.t.holds, a.lotHold, LotOf(a.i.lot), Some(a.ncr)),
                                 a.serialHold, SerialOf(a.i.serial), Some(a.ncr))
    ensures Inv(State(t, s.log + [InspectionFailed(a.ncr, a.i.lot, a.i.serial, a.lotHold, a.serialHold)]))
  {
    hide IssuesClear, DecidedOnce, HoldsRecorded;
    var e := InspectionFailed(a.ncr, a.i.lot, a.i.serial, a.lotHold, a.serialHold);
    HoldsStayRecorded(s, t, e);
    DecidedOnceKept(s, t, e);
    IssuesStayClear(s.log, e);
  }

  lemma DecideKeeps(s: State, ncr: Id, d: Disposition, actor: Id)
    requires Inv(s)
    ensures Inv(Next(s, Decide(ncr, d, actor)))
  {
    var s' := Next(s, Decide(ncr, d, actor));
    if s' != s {
      hide IssuesClear, HoldsRecorded;
      var e := NcrDispositioned(ncr, d);
      HoldsStayRecorded(s, s'.t, e);
      IssuesStayClear(s.log, e);
      assert forall i :: 0 <= i < |s.log| ==> s'.log[i] == s.log[i];
    }
  }

  lemma ReleaseKeeps(s: State, hold: Id, actor: Id)
    requires Inv(s)
    ensures Inv(Next(s, Release(hold, actor)))
  {
    var s' := Next(s, Release(hold, actor));
    if s' != s {
      hide IssuesClear, DecidedOnce, HoldsRecorded;
      HoldsStayRecorded(s, s'.t, HoldReleased(hold));
      DecidedOnceKept(s, s'.t, HoldReleased(hold));
      IssuesStayClear(s.log, HoldReleased(hold));
    }
  }

  lemma PlaceKeeps(s: State, hold: Id, on: Material, actor: Id)
    requires Inv(s)
    ensures Inv(Next(s, Place(hold, on, actor)))
  {
    hide IssuesClear, DecidedOnce, HoldsRecorded;
    var s' := Next(s, Place(hold, on, actor));
    if s' != s {
      HoldsStayRecorded(s, s'.t, HoldPlaced(hold, on));
      DecidedOnceKept(s, s'.t, HoldPlaced(hold, on));
      IssuesStayClear(s.log, HoldPlaced(hold, on));
    }
  }

  lemma IssueKeeps(s: State, lot: Option<Id>, serial: Option<Id>, operation: Option<Id>, user: Id)
    requires Inv(s)
    ensures Inv(Next(s, Issue(lot, serial, operation, user)))
  {
    var s' := Next(s, Issue(lot, serial, operation, user));
    if s' != s {
      hide IssuesClear, DecidedOnce, HoldsRecorded, IsHeld;
      var e := Issued(lot, serial);
      HoldsStayRecorded(s, s.t, e);
      DecidedOnceKept(s, s.t, e);
      forall x | Issues(e, x) ensures Cleared(s.log, x, |s.log|) {
        NotHeldMeansCleared(s, x);
      }
      IssuesStayClear(s.log, e);
    }
  }

  lemma {:induction false} RunInv(trace: seq<State>, actions: seq<Action>, k: nat)
    requires IsRun(trace, actions) && k < |trace|
    ensures Inv(trace[k])
  {
    if k > 0 {
      RunInv(trace, actions, k - 1);
      hide Inv, Next;
      match actions[k - 1]
      case Inspect(_, _, _, _) => InspectKeeps(trace[k - 1], actions[k - 1]);
      case Decide(ncr, d, actor) => DecideKeeps(trace[k - 1], ncr, d, actor);
      case Place(hold, on, actor) => PlaceKeeps(trace[k - 1], hold, on, actor);
      case Release(hold, actor) => ReleaseKeeps(trace[k - 1], hold, actor);
      case Issue(lot, serial, operation, user) => IssueKeeps(trace[k - 1], lot, serial, operation, user);
    }
  }

  // ---- Safety of every run -------------------------------------------------

  /** No lot or serial is ever issued unless, for each earlier failed inspection of it and each
      manual hold on it, that NCR was dispositioned rework or use-as-is in between, or that
      very hold was released in between. */
  lemma NothingHeldIsIssued(trace: seq<State>, actions: seq<Action>, n: nat, i: int, x: Material, j: int, hold: Id,
                            ncr: Option<Id>)
    requires IsRun(trace, actions) && n < |trace|
    requires 0 <= j < i < |trace[n].log| && Issues(trace[n].log[i], x) && Holds(trace[n].log[j], x, hold, ncr)
    ensures exists k :: j < k < i &&
              (|| trace[n].log[k] == HoldReleased(hold)
               || (ncr.Some? && trace[n].log[k] == NcrDispositioned(ncr.value, Rework))
               || (ncr.Some? && trace[n].log[k] == NcrDispositioned(ncr.value, UseAsIs)))
  {
    RunInv(trace, actions, n);
    assert Cleared(trace[n].log, x, i);
    assert LiftedBetween(trace[n].log, j, i, hold, ncr);
    var k :| 0 <= j < k < i <= |trace[n].log| && Lifts(trace[n].log[k], hold, ncr);
  }

  /** An NCR is dispositioned at most once, in every run. */
  lemma DispositionedOnce(trace: seq<State>, actions: seq<Action>, n: nat, i: int, j: int)
    requires IsRun(trace, actions) && n < |trace| && 0 <= i < j < |trace[n].log|
    requires trace[n].log[i].NcrDispositioned? && trace[n].log[j].NcrDispositioned?
    ensures trace[n].log[i].ncr != trace[n].log[j].ncr
  {
    RunInv(trace, actions, n);
  }

  /** Material whose NCR was dispositioned scrap or return is issued again only after someone
      released that very hold. */
  lemma ScrapNeedsRelease(trace: seq<State>, actions: seq<Action>, n: nat, i: int, x: Material, j: int, hold: Id,
                          ncr: Id, m: int)
    requires IsRun(trace, actions) && n < |trace|
    requires 0 <= j < i < |trace[n].log| && Issues(trace[n].log[i], x) && Holds(trace[n].log[j], x, hold, Some(ncr))
    requires 0 <= m < |trace[n].log|
    requires trace[n].log[m] == NcrDispositioned(ncr, Scrap) || trace[n].log[m] == NcrDispositioned(ncr, Return)
    ensures exists k :: j < k < i && trace[n].log[k] == HoldReleased(hold)
  {
    NothingHeldIsIssued(trace, actions, n, i, x, j, hold, Some(ncr));
    var log := trace[n].log;
    var k :| j < k < i && (|| log[k] == HoldReleased(hold) || log[k] == NcrDispositioned(ncr, Rework)
                           || log[k] == NcrDispositioned(ncr, UseAsIs));
    if log[k].NcrDispositioned? {
      DispositionedOnce(trace, actions, n, if k < m then k else m, if k < m then m else k);
    }
  }

  /** An accepted disposition: after rework or use-as-is no hold of the NCR is active, after scrap
      or return all are as before; holds of other NCRs and manual ones are always as before. */
  lemma DispositionEffect(t: Tables, ncr: Id, d: Disposition, actor: Id, h: Id)
    ensures DispositionNcr(t, ncr, d, actor).Ok? <==>
            ncr in t.ncrs && t.ncrs[ncr].status == Open && actor in t.users
    ensures DispositionNcr(t, ncr, d, actor).Ok? ==>
              var t' := DispositionNcr(t, ncr, d, actor).value;
              && t'.ncrs[ncr].status == Dispositioned && t'.ncrs[ncr].disposition == Some(d)
              && t'.holds.Keys == t.holds.Keys
              && (h in t.holds && t.holds[h].ncr == Some(ncr) && (d == Rework || d == UseAsIs) ==>
                    t'.holds[h].on == t.holds[h].on && !t'.holds[h].active)
              && (h in t.holds && t.holds[h].ncr == Some(ncr) && (d == Scrap || d == Return) ==>
                    t'.holds[h] == t.holds[h])
              && (h in t.holds && t.holds[h].ncr != Some(ncr) ==> t'.holds[h] == t.holds[h])
  {
  }

  // ---- Results and NCRs ----------------------------------------------------

  /** Each NCR belongs to a failed inspection of its lot and serial, and names the lot's part. */
  ghost predicate NcrOk(t: Tables, n: Id)
    requires n in t.ncrs
  {
    var x := t.ncrs[n];
    && x.result < |t.results| && t.results[x.result].outcome == Fail
    && t.results[x.result].inspection.lot == x.lot && t.results[x.result].inspection.serial == x.serial
    && (x.lot.None? ==> x.part == None)
    && (x.lot.Some? && x.lot.value in t.lots ==> x.part == Some(t.lots[x.lot.value]))
  }

  ghost predicate Raised(t: Tables, k: int) {
    exists n :: n in t.ncrs && t.ncrs[n].result == k
  }

  /** Failed inspections and NCRs correspond one to one. */
  ghost predicate NcrsMatch(t: Tables) {
    && (forall n :: n in t.ncrs ==> NcrOk(t, n))
    && (forall n, m :: n in t.ncrs && m in t.ncrs && t.ncrs[n].result == t.ncrs[m].result ==> n == m)
    && (forall k :: 0 <= k < |t.results| && t.results[k].outcome == Fail ==> Raised(t, k))
  }

  lemma ResultKeepsMatch(t: Tables, i: Inspection)
    requires NcrsMatch(t)
    ensures NcrsMatch(WithResult(t, i, Pass))
  {
    var t' := WithResult(t, i, Pass);
    forall n | n in t'.ncrs ensures NcrOk(t', n) {
      assert NcrOk(t, n);
    }
    forall k | 0 <= k < |t'.results| && t'.results[k].outcome == Fail ensures Raised(t', k) {
      assert Raised(t, k);
    }
  }

  lemma FailKeepsMatch(t: Tables, i: Inspection, ncr: Id, t': Tables)
    requires NcrsMatch(t) && ncr !in t.ncrs
    requires t'.results == WithResult(t, i, Fail).results && t'.lots == t.lots
    requires t'.ncrs == t.ncrs[ncr := OpenNcr(t, i)]
    ensures NcrsMatch(t')
  {
    forall n | n in t'.ncrs ensures NcrOk(t', n) {
      assert n in t.ncrs ==> NcrOk(t, n);
    }
    forall n | n in t.ncrs ensures t.ncrs[n].result < |t.results| {
      assert NcrOk(t, n);
    }
    hide NcrOk;
    forall k | 0 <= k < |t'.results| && t'.results[k].outcome == Fail ensures Raised(t', k) {
      assert t'.ncrs[ncr].result == |t.results|;
      if k < |t.results| {
        assert Raised(t, k);
        RaisedStays(t, t', k);
      }
    }
  }

  lemma RaisedStays(t: Tables, t': Tables, k: int)
    requires Raised(t, k)
    requires forall n :: n in t.ncrs ==> n in t'.ncrs && t'.ncrs[n].result == t.ncrs[n].result
    ensures Raised(t', k)
  {
    var n :| n in t.ncrs && t.ncrs[n].result == k;
    assert t'.ncrs[n].result == k;
  }

  lemma DecideKeepsMatch(t: Tables, ncr: Id, d: Disposition, t': Tables)
    requires NcrsMatch(t) && ncr in t.ncrs && t'.results == t.results && t'.lots == t.lots
    requires t'.ncrs == t.ncrs[ncr := t.ncrs[ncr].(status := Dispositioned, disposition := Some(d))]
    ensures NcrsMatch(t')
  {
    assert forall n :: n in t.ncrs ==>
             && t'.ncrs[n].result == t.ncrs[n].result && t'.ncrs[n].lot == t.ncrs[n].lot
             && t'.ncrs[n].serial == t.ncrs[n].serial && t'.ncrs[n].part == t.ncrs[n].part;
    SameMatch(t, t');
  }

  lemma StepKeepsMatch(s: State, a: Action)
    requires NcrsMatch(s.t) && Enabled(s, a)
    ensures NcrsMatch(Next(s, a).t)
  {
    hide NcrsMatch, Evaluate, NcrNoTaken, Known, IsHeld, WithHold, ReleasedFor;
    match a
    case Inspect(i, ncr, lotHold, serialHold) =>
      var r := RecordResult(s.t, i, ncr, lotHold, serialHold);
      if r.Ok? && r.value.1 == Pass {
        ResultKeepsMatch(s.t, i);
      } else if r.Ok? {
        FailKeepsMatch(s.t, i, ncr, r.value.0);
      }
    case Decide(ncr, d, actor) =>
      var r := DispositionNcr(s.t, ncr, d, actor);
      if r.Ok? {
        DecideKeepsMatch(s.t, ncr, d, r.value);
      }
    case _ => OtherKeepsMatch(s, a);
  }

  lemma OtherKeepsMatch(s: State, a: Action)
    requires NcrsMatch(s.t) && !a.Inspect? && !a.Decide?
    ensures NcrsMatch(Next(s, a).t)
  {
    hide NcrsMatch, IsHeld, Known;
    SameMatch(s.t, Next(s, a).t);
  }

  lemma NcrOkSame(t: Tables, t': Tables, n: Id)
    requires n in t.ncrs && NcrOk(t, n) && n in t'.ncrs && t'.results == t.results && t'.lots == t.lots
    requires t'.ncrs[n].result == t.ncrs[n].result && t'.ncrs[n].lot == t.ncrs[n].lot
    requires t'.ncrs[n].serial == t.ncrs[n].serial && t'.ncrs[n].part == t.ncrs[n].part
    ensures NcrOk(t', n)
  {
  }

  /** Only the results and what NCRs say of them matter. */
  lemma SameMatch(t: Tables, t': Tables)
    requires NcrsMatch(t) && t'.results == t.results && t'.lots == t.lots && t'.ncrs.Keys == t.ncrs.Keys
    requires forall n :: n in t.ncrs ==>
               && t'.ncrs[n].result == t.ncrs[n].result && t'.ncrs[n].lot == t.ncrs[n].lot
               && t'.ncrs[n].serial == t.ncrs[n].serial && t'.ncrs[n].part == t.ncrs[n].part
    ensures NcrsMatch(t')
  {
    hide NcrOk, Raised;
    forall n | n in t'.ncrs ensures NcrOk(t', n) {
      NcrOkSame(t, t', n);
    }
    forall k | 0 <= k < |t'.results| && t'.results[k].outcome == Fail ensures Raised(t', k) {
      RaisedStays(t, t', k);
    }
  }

  /** In every state of every run, failed inspections and NCRs correspond one to one. */
  lemma {:induction false} RunNcrsMatch(trace: seq<State>, actions: seq<Action>, k: nat)
    requires IsRun(trace, actions) && k < |trace|
    ensures NcrsMatch(trace[k].t)
  {
    if k > 0 {
      hide NcrsMatch, Next, Enabled;
      RunNcrsMatch(trace, actions, k - 1);
      assert Enabled(trace[k - 1], actions[k - 1]) && trace[k] == Next(trace[k - 1], actions[k - 1]);
      StepKeepsMatch(trace[k - 1], actions[k - 1]);
    }
  }

  // ---- Serials of a held lot -----------------------------------------------

  /** The serial's lot is on hold. */
  predicate LotHeld(t: Tables, serial: Id) {
    serial in t.serials && t.serials[serial].Some? && IsHeld(t, Lot(t.serials[serial].value))
  }

  /** An issue looks at the lot it is given, not at the serial's own: no call issues a serial of
      a held lot exactly when every such serial is on hold itself. */
  lemma LotHoldReachesSerialsIff(t: Tables)
    requires t.users != {}
    ensures (forall lot, serial, operation, user ::
               CanIssue(t, lot, Some(serial), operation, user).Ok? ==> !LotHeld(t, serial)) <==>
            forall serial :: LotHeld(t, serial) ==> IsHeld(t, Serial(serial))
  {
    hide IsHeld;
    if serial :| LotHeld(t, serial) && !IsHeld(t, Serial(serial)) {
      var user :| user in t.users;
      assert CanIssue(t, None, Some(serial), None, user).Ok?;
    }
  }

  /** A lot is put on hold and then one of its serials is issued. */
  lemma SerialOfHeldLotIssued() returns (trace: seq<State>, actions: seq<Action>)
    ensures IsRun(trace, actions) && |actions| == 2 && LotHeld(trace[2].t, "s")
    ensures trace[2].log == [HoldPlaced("h", Lot("l")), Issued(None, Some("s"))]
  {
    var t0 := Tables(map[], map["l" := "p"], map["s" := Some("l")], {}, {"u"}, [], map[], map[]);
    var t1 := t0.(holds := map["h" := Hold(Lot("l"), true, None)]);
    var s0, s1 := State(t0, []), State(t1, [HoldPlaced("h", Lot("l"))]);
    var s2 := s1.(log := s1.log + [Issued(None, Some("s"))]);
    trace, actions := [s0, s1, s2], [Place("h", Lot("l"), "u"), Issue(None, Some("s"), None, "u")];
    assert t1.holds["h"].on == Lot("l") && Lot("l") != Serial("s");
    assert IsHeld(t1, Lot("l")) && !IsHeld(t1, Serial("s"));
  }

  /** A release goes through exactly for an active hold and a known user; then that hold is
      inactive and every other hold as before. */
  lemma ReleaseEffect(t: Tables, hold: Id, actor: Id)
    ensures ReleaseHold(t, hold, actor).Ok? <==> hold in t.holds && t.holds[hold].active && actor in t.users
    ensures ReleaseHold(t, hold, actor).Ok? ==>
              var t' := ReleaseHold(t, hold, actor).value;
              && t'.ncrs == t.ncrs && t'.holds.Keys == t.holds.Keys
              && !t'.holds[hold].active && t'.holds[hold].on == t.holds[hold].on
              && forall h :: h in t.holds && h != hold ==> t'.holds[h] == t.holds[h]
  {
  }

  // ---- What one call accepts -----------------------------------------------

  /** An issue goes through exactly when no active hold is on the given lot or serial and all it
      refers to exists. */
  lemma IssueIff(t: Tables, lot: Option<Id>, serial: Option<Id>, operation: Option<Id>, user: Id)
    ensures CanIssue(t, lot, serial, operation, user).Ok? <==>
            && (lot.Some? ==> lot.value in t.lots && forall h :: h in t.holds && t.holds[h].active ==>
                  t.holds[h].on != Material("lot", lot.value))
            && (serial.Some? ==> serial.value in t.serials && forall h :: h in t.holds && t.holds[h].active ==>
                  t.holds[h].on != Material("serial", serial.value))
            && (operation.Some? ==> operation.value in t.operations) && user in t.users
  {
  }

  /** An inspection is recorded, with its result as the last one, exactly when all it refers to
      exists and, if the value lies outside a limit, the NCR's number is free. */
  lemma RecordIff(t: Tables, i: Inspection, ncr: Id, lotHold: Id, serialHold: Id)
    ensures var r := RecordResult(t, i, ncr, lotHold, serialHold);
            && (r.Ok? <==>
                && i.characteristic in t.characteristics
                && (i.lot.Some? ==> i.lot.value in t.lots) && (i.serial.Some? ==> i.serial.value in t.serials)
                && (i.operation.Some? ==> i.operation.value in t.operations) && i.inspector in t.users
                && var limits := t.characteristics[i.characteristic];
                   && (limits.lower.Some? && i.value < limits.lower.value ==> !NcrNoTaken(t, ncr))
                   && (limits.upper.Some? && i.value > limits.upper.value ==> !NcrNoTaken(t, ncr)))
            && (r.Ok? ==> |r.value.0.results| == |t.results| + 1 && r.value.0.results[..|t.results|] == t.results
                          && r.value.0.results[|t.results|].inspection == i
                          && r.value.0.results[|t.results|].outcome == r.value.1)
            && (r.Ok? && r.value.1 == Pass ==> r.value.0.ncrs == t.ncrs && r.value.0.holds == t.holds)
  {
    hide NcrNoTaken;
  }

  /** NCR numbers of generated ids clash exactly when the first ten characters do. */
  lemma NcrNoIff(a: Id, b: Id)
    requires |a| >= 10 && |b| >= 10
    ensures NcrNo(a) == NcrNo(b) <==> a[..10] == b[..10]
  {
    assert |a| == 10 ==> a[..10] == a;
    assert |b| == 10 ==> b[..10] == b;
  }

  // ---- When a failed inspection does not hold ------------------------------

  /** A failing measurement of known material is recorded, and leaves the material held,
      exactly when no earlier NCR id starts with the same ten characters; otherwise the call
      is refused and changes nothing, so nothing is held on its account. */
  lemma FailHoldsIff(t: Tables, i: Inspection, ncr: Id, lotHold: Id, serialHold: Id)
    requires i.characteristic in t.characteristics && Known(t, i.lot, i.serial, i.operation, i.inspector)
    requires var limits := t.characteristics[i.characteristic]; Evaluate(i.value, limits.lower, limits.upper) == Fail
    requires lotHold != serialHold
    ensures var r := RecordResult(t, i, ncr, lotHold, serialHold);
            && (r.Ok? <==> !NcrNoTaken(t, ncr))
            && (r.Ok? ==> r.value.1 == Fail
                          && (i.lot.Some? ==> IsHeld(r.value.0, Lot(i.lot.value)))
                          && (i.serial.Some? ==> IsHeld(r.value.0, Serial(i.serial.value))))
            && (r.Err? ==> r.error == Conflict
                           && forall log :: Next(State(t, log), Inspect(i, ncr, lotHold, serialHold)) == State(t, log))
  {
    var r := RecordResult(t, i, ncr, lotHold, serialHold);
    if r.Ok? {
      if i.lot.Some? {
        assert lotHold in r.value.0.holds && r.value.0.holds[lotHold].active;
      }
      if i.serial.Some? {
        assert serialHold in r.value.0.holds && r.value.0.holds[serialHold].active;
      }
    }
  }

  /** Ids start with ten characters of time: these two were made in one millisecond. */
  const FIRST_NCR: Id := "01HZX4Q8RSA0000000000000AA"
  const SECOND_NCR: Id := "01HZX4Q8RSB0000000000000BB"

  /** Two lots of one part, a characteristic with a lower limit, and one user. */
  function TwoLots(): Tables {
    Tables(map["c" := Limits(Some(1.0), None)], map["a" := "p", "b" := "p"], map[], {}, {"u"}, [], map[], map[])
  }

  function FailOf(lot: Id): Inspection {
    Inspection("c", Some(lot), None, None, 0.0, "u")
  }

  /** The tables after the first failure. */
  function LotHeldTables(): Tables {
    TwoLots().(results := [InspectionResult(FailOf("a"), Fail)],
               ncrs := map[FIRST_NCR := Ncr(0, Some("a"), None, Some("p"), Open, None)],
               holds := map["h1" := Hold(Lot("a"), true, Some(FIRST_NCR))])
  }

  lemma FirstRecorded()
    ensures RecordResult(TwoLots(), FailOf("a"), FIRST_NCR, "h1", "h2") == Ok((LotHeldTables(), Fail))
  {
    hide NcrNo, FIRST_NCR;
    var t, i := TwoLots(), FailOf("a");
    assert !NcrNoTaken(t, FIRST_NCR);
    assert OpenNcr(t, i) == Ncr(0, Some("a"), None, Some("p"), Open, None);
    assert t.ncrs[FIRST_NCR := OpenNcr(t, i)] == LotHeldTables().ncrs;
    assert WithHold(WithHold(t.holds, "h1", LotOf(i.lot), Some(FIRST_NCR)), "h2", SerialOf(i.serial), Some(FIRST_NCR))
        == LotHeldTables().holds;
    assert WithResult(t, i, Fail).results == LotHeldTables().results;
  }

  lemma SameMillisecond()
    ensures |FIRST_NCR| == |SECOND_NCR| == 26 && NcrNo(FIRST_NCR) == NcrNo(SECOND_NCR)
  {
    assert FIRST_NCR[..10] == "01HZX4Q8RS" == SECOND_NCR[..10];
  }

  /** Two failures in one millisecond: the second is refused, and its lot stays issuable. */
  lemma CollidingNcrLeavesLotFree()
    ensures var first := RecordResult(TwoLots(), FailOf("a"), FIRST_NCR, "h1", "h2");
            && |FIRST_NCR| == |SECOND_NCR| == 26 && first.Ok?
            && RecordResult(first.value.0, FailOf("b"), SECOND_NCR, "h3", "h4") == Err(Conflict)
            && CanIssue(first.value.0, Some("b"), None, None, "u") == Ok(())
  {
    FirstRecorded();
    SameMillisecond();
    hide NcrNo, RecordResult, FIRST_NCR, SECOND_NCR;
    var t := LotHeldTables();
    assert FIRST_NCR in t.ncrs;
    FailHoldsIff(t, FailOf("b"), SECOND_NCR, "h3", "h4");
    assert t.holds["h1"].on == Lot("a") && Lot("a") != Lot("b");
  }
}
