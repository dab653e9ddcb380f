/** Commands from the cloud to a plant: exactly when one can still be applied there.  It cannot
    if another local order has its number; and since a pull returns at most 500 unacknowledged
    commands, oldest first, it cannot either once 500 such commands are queued before it. */
module SyncCommands {
  import opened Prelude
  import opened SyncDb
  import opened SyncProtocol
  import opened SyncOrder
  import opened SyncDrain

  // ---- Counting rows -------------------------------------------------------

  /** How many of the first `j` rows satisfy `p`. */
  ghost function Count(rows: seq<OutboxRow>, p: OutboxRow -> bool, j: int): nat
    requires 0 <= j <= |rows|
    decreases j
  {
    if j == 0 then 0 else Count(rows, p, j - 1) + (if p(rows[j - 1]) then 1 else 0)
  }

  lemma {:induction false} CountLe(a: seq<OutboxRow>, p: OutboxRow -> bool, b: seq<OutboxRow>, q: OutboxRow -> bool,
                                   j: int)
    requires 0 <= j <= |a| && j <= |b| && forall i :: 0 <= i < j && p(a[i]) ==> q(b[i])
    ensures Count(a, p, j) <= Count(b, q, j)
    decreases j
  {
    if j > 0 {
      CountLe(a, p, b, q, j - 1);
    }
  }

  lemma {:induction false} CountUpTo(rows: seq<OutboxRow>, p: OutboxRow -> bool, i: int, j: int)
    requires 0 <= i <= j <= |rows|
    ensures Count(rows, p, i) <= Count(rows, p, j)
    decreases j
  {
    if i < j {
      CountUpTo(rows, p, i, j - 1);
    }
  }

  lemma {:induction false} CountSelect(rows: seq<OutboxRow>, p: OutboxRow -> bool, j: int)
    requires 0 <= j <= |rows|
    ensures |Select(rows[..j], p)| == Count(rows, p, j)
    decreases j
  {
    if j > 0 {
      CountSelect(rows, p, j - 1);
      assert rows[..j][..j - 1] == rows[..j - 1];
    }
  }

  /** A selected row's place among the selected ones. */
  lemma PlaceOf(rows: seq<OutboxRow>, p: OutboxRow -> bool, j: int)
    requires 0 <= j < |rows| && p(rows[j])
    ensures Count(rows, p, j) < |Select(rows, p)| && Select(rows, p)[Count(rows, p, j)] == rows[j]
  {
    hide Select, Count;
    var before, rest, after := rows[..j], rows[j..], rows[j + 1..];
    CountSelect(rows, p, j);
    SelectConcat(before, rest, p);
    assert rows == before + rest;
    SelectConcat([rows[j]], after, p);
    assert rest == [rows[j]] + after;
    SelectAll([rows[j]], p);
  }

  // ---- The invariant -------------------------------------------------------

  /** Fewer than a batch of unacknowledged commands stand before entry `id`. */
  ghost predicate AheadOk(outbox: seq<OutboxRow>, p: Id, id: Id) {
    forall j :: 0 <= j < |outbox| && outbox[j].entry.id == id ==> Count(outbox, PendingFor(p), j) < MAX_BATCH
  }

  ghost predicate PulledOk(m: Msg, outbox: seq<OutboxRow>) {
    m.Commands? ==> forall e :: e in m.entries ==> AheadOk(outbox, m.plant, e.id)
  }

  ghost predicate CommandInv(s: Sys) {
    && NumbersUnique(s.cloud.orders) && Distinct(Queue(s.cloud.outbox))
    && forall m :: m in s.net ==> PulledOk(m, s.cloud.outbox)
  }

  lemma QuietCommands(s: Sys, s': Sys)
    requires CommandInv(s) && s'.cloud.orders == s.cloud.orders && s'.cloud.outbox == s.cloud.outbox
    requires forall m :: m in s'.net && m !in s.net ==> PulledOk(m, s'.cloud.outbox)
    ensures CommandInv(s')
  {
  }

  lemma SelectedCount(outbox: seq<OutboxRow>, wanted: OutboxRow -> bool, k: nat) returns (i: nat)
    requires k < |Select(outbox, wanted)|
    ensures i < |outbox| && outbox[i] == Select(outbox, wanted)[k] && Count(outbox, wanted, i) == k
    decreases |outbox|
  {
    var init := outbox[..|outbox| - 1];
    if k < |Select(init, wanted)| {
      i := SelectedCount(init, wanted, k);
      CountSelect(outbox, wanted, i);
      CountSelect(init, wanted, i);
      assert init[..i] == outbox[..i];
    } else {
      i := |outbox| - 1;
      CountSelect(outbox, wanted, i);
    }
  }

  lemma PulledAhead(outbox: seq<OutboxRow>, p: Id, limit: nat, e: SyncEntry)
    requires Distinct(Queue(outbox)) && limit <= MAX_BATCH
    requires e in Entries(Limit(Select(outbox, PendingFor(p)), limit))
    ensures AheadOk(outbox, p, e.id)
  {
    hide Count;
    var es, q := Entries(Limit(Select(outbox, PendingFor(p)), limit)), Queue(outbox);
    var k :| 0 <= k < |es| && es[k] == e;
    var i := SelectedCount(outbox, PendingFor(p), k);
    forall j | 0 <= j < |outbox| && outbox[j].entry.id == e.id ensures Count(outbox, PendingFor(p), j) < MAX_BATCH {
      assert q[i] == q[j];
    }
  }

  lemma PullKeepsCommands(s: Sys, p: Id, limit: nat)
    requires CommandInv(s)
    ensures CommandInv(Next(s, CloudPull(p, limit)))
  {
    var n := if limit < MAX_BATCH then limit else MAX_BATCH;
    forall e | e in PullForPlant(s.cloud, p, n) ensures AheadOk(s.cloud.outbox, p, e.id) {
      PulledAhead(s.cloud.outbox, p, n, e);
    }
    hide AheadOk, PullForPlant;
    QuietCommands(s, Next(s, CloudPull(p, limit)));
  }

  lemma AheadMarked(outbox: seq<OutboxRow>, ids: set<Id>, p: Id, id: Id)
    requires AheadOk(outbox, p, id)
    ensures AheadOk(MarkSynced(outbox, ids), p, id)
  {
    var after := MarkSynced(outbox, ids);
    forall j | 0 <= j < |after| && after[j].entry.id == id ensures Count(after, PendingFor(p), j) < MAX_BATCH {
      CountLe(after, PendingFor(p), outbox, PendingFor(p), j);
      assert outbox[j].entry.id == id;
    }
  }

  lemma AckKeepsCommands(s: Sys, m: Msg)
    requires CommandInv(s) && Enabled(s, CloudAck(m))
    ensures CommandInv(Next(s, CloudAck(m)))
  {
    hide AheadOk, NumbersUnique;
    var s' := Next(s, CloudAck(m));
    MarkedQueue(s.cloud.outbox, m.ids);
    hide MarkSynced;
    forall x | x in s'.net ensures PulledOk(x, s'.cloud.outbox) {
      assert PulledOk(x, s.cloud.outbox);
      if x.Commands? {
        forall e | e in x.entries ensures AheadOk(s'.cloud.outbox, x.plant, e.id) {
          AheadMarked(s.cloud.outbox, m.ids, x.plant, e.id);
        }
      }
    }
  }

  lemma AheadAppended(outbox: seq<OutboxRow>, row: OutboxRow, p: Id, id: Id)
    requires AheadOk(outbox, p, id) && row.entry.id != id
    ensures AheadOk(outbox + [row], p, id)
  {
    var after := outbox + [row];
    forall j | 0 <= j < |after| && after[j].entry.id == id ensures Count(after, PendingFor(p), j) < MAX_BATCH {
      CountLe(after, PendingFor(p), outbox, PendingFor(p), j);
      assert outbox[j].entry.id == id;
    }
  }

  /** A fresh id is in no command row and in no pulled message. */
  lemma FreshCommand(s: Sys, x: Id)
    requires Inv(s) && x !in s.used
    ensures forall r :: r in s.cloud.outbox ==> r.entry.id != x
    ensures forall m, e :: m in s.net && m.Commands? && e in m.entries ==> e.id != x
  {
    hide EdgesOk, CloudOk, EntryFor, HandlerOk;
    assert x !in s.born;
    forall r | r in s.cloud.outbox ensures r.entry.id != x {
      assert CommandOk(r, s.born, s.edges);
    }
    forall m, e | m in s.net && m.Commands? && e in m.entries ensures e.id != x {
      assert MsgOk(m, s.born, s.cloud.applied, s.edges);
    }
  }

  lemma QueueAppended(outbox: seq<OutboxRow>, row: OutboxRow)
    requires Distinct(Queue(outbox)) && forall r :: r in outbox ==> r.entry.id != row.entry.id
    ensures Distinct(Queue(outbox + [row]))
  {
    assert forall i :: 0 <= i < |outbox| ==> outbox[i] in outbox;
  }

  lemma CreateKeepsCommands(s: Sys, p: Id, input: WorkOrderInput, woId: Id, entryId: Id)
    requires Inv(s) && CommandInv(s) && Enabled(s, CloudCreate(p, input, woId, entryId))
    ensures CommandInv(Next(s, CloudCreate(p, input, woId, entryId)))
  {
    hide Inv, AheadOk, NumbersUnique, NumberTaken, Referenced, OpsOk, OperationRows;
    var s' := Next(s, CloudCreate(p, input, woId, entryId));
    var wo := Draft(woId, input.(routingId := None, plannedStart := None, plannedEnd := None));
    FreshCommand(s, entryId);
    if Insertable(s.cloud, wo, []) {
      InsertUnique(s.cloud, wo, Some(p));
      var row := OutboxRow(EntryFor(entryId, wo), Some(p), false);
      QueueAppended(s.cloud.outbox, row);
      AppendKeepsPulled(s.net, s.cloud.outbox, row);
    }
  }

  lemma AppendKeepsPulled(net: set<Msg>, outbox: seq<OutboxRow>, row: OutboxRow)
    requires forall m :: m in net ==> PulledOk(m, outbox)
    requires forall m, e :: m in net && m.Commands? && e in m.entries ==> e.id != row.entry.id
    ensures forall m :: m in net ==> PulledOk(m, outbox + [row])
  {
    hide AheadOk;
    forall m | m in net ensures PulledOk(m, outbox + [row]) {
      assert PulledOk(m, outbox);
      if m.Commands? {
        forall e | e in m.entries ensures AheadOk(outbox + [row], m.plant, e.id) {
          AheadAppended(outbox, row, m.plant, e.id);
        }
      }
    }
  }

  lemma ApplyKeepsCommands(s: Sys, h: Handler)
    requires Inv(s) && CommandInv(s) && Enabled(s, CloudApply(h))
    ensures CommandInv(Next(s, CloudApply(h)))
  {
    hide Inv, ApplyEntry, Applied, EntryFor, HandlerOk, NumbersUnique, NumberTaken, Referenced, PulledOk;
    var e := h.entries[h.pos];
    HandlerFacts(s, h);
    var wo := s.born[e.id].wo;
    if ApplyEntry(s.cloud, e, Some(h.plant)).Ok? {
      FirstApplyInserts(s.cloud, e, wo, Some(h.plant));
      if e.id !in s.cloud.applied {
        FirstApplyIff(s.cloud, e, wo, Some(h.plant));
        InsertUnique(s.cloud, wo, Some(h.plant));
      }
    }
  }

  lemma OtherKeepsCommands(s: Sys, a: Action)
    requires CommandInv(s) && Enabled(s, a)
    requires !a.CloudPull? && !a.CloudAck? && !a.CloudCreate? && !a.CloudApply?
    ensures CommandInv(Next(s, a))
  {
    hide CommandInv, ApplyEntry, Applied, Insertable, FetchToCloud, MarkSynced, OrderOf, OperationRows, EntryFor,
         IdsOf, AheadOk;
    QuietCommands(s, Next(s, a));
  }

  lemma StepKeepsCommands(s: Sys, a: Action)
    requires Inv(s) && CommandInv(s) && Enabled(s, a)
    ensures CommandInv(Next(s, a))
  {
    hide Inv, CommandInv, Next, Enabled;
    match a
    case CloudPull(p, limit) => PullKeepsCommands(s, p, limit);
    case CloudAck(m) => AckKeepsCommands(s, m);
    case CloudCreate(p, input, woId, entryId) => CreateKeepsCommands(s, p, input, woId, entryId);
    case CloudApply(h) => ApplyKeepsCommands(s, h);
    case _ => OtherKeepsCommands(s, a);
  }

  lemma {:induction false} RunCommands(trace: seq<Sys>, actions: seq<Action>, k: nat)
    requires IsRun(trace, actions) && k < |trace|
    ensures Inv(trace[k]) && CommandInv(trace[k])
  {
    hide Inv, CommandInv, Next, Enabled, Initial;
    RunInv(trace, actions, k);
    if k == 0 {
      InitialCommands(trace[0]);
    } else {
      RunCommands(trace, actions, k - 1);
      StepKeepsCommands(trace[k - 1], actions[k - 1]);
    }
  }

  lemma InitialCommands(s: Sys)
    requires Initial(s)
    ensures CommandInv(s)
  {
    assert s.cloud.outbox == [] && Queue(s.cloud.outbox) == [];
  }

  // ---- A refused command stays refused -------------------------------------

  /** The plant has not applied the command, and another of its orders has the number. */
  predicate Refused(db: Db, e: SyncEntry) {
    e.id !in db.applied && e.payload.WorkOrder? && NumberTaken(db, e.payload.wo.id, e.payload.wo.woNumber)
  }

  /** A command for the plant that it refuses. */
  function StuckAt(db: Db, p: Id): OutboxRow -> bool {
    (r: OutboxRow) => r.destination == Some(p) && Refused(db, r.entry)
  }

  /** The order is still at the plant, under its number. */
  ghost predicate KeepsOrder(s: Sys, s': Sys, p: Id, order: Id)
    requires p in s.edges && order in s.edges[p].orders
  {
    && p in s'.edges && order in s'.edges[p].orders
    && s'.edges[p].orders[order].woNumber == s.edges[p].orders[order].woNumber
  }

  lemma ApplyKeepsOrder(s: Sys, m: Msg, i: nat, p: Id, order: Id)
    requires Inv(s) && Enabled(s, EdgeApply(m, i)) && p in s.edges && order in s.edges[p].orders
    ensures KeepsOrder(s, Next(s, EdgeApply(m, i)), p, order)
  {
    hide Inv, ApplyEntry, EntryFor, OrderOf;
    CommandFacts(s, m, i);
    if ApplyEntry(s.edges[m.plant], m.entries[i], None).Ok? {
      FirstApplyInserts(s.edges[m.plant], m.entries[i], s.born[m.entries[i].id].wo, None);
    }
  }

  lemma OrderUsed(s: Sys, p: Id, order: Id)
    requires Inv(s) && p in s.edges && order in s.edges[p].orders
    ensures order in s.used
  {
    hide BirthsOk, CloudOk, CloudOutboxOk, FlightOk, EdgeOutboxOk, Received;
    assert EdgeOk(p, s.edges[p].orders, s.edges[p].applied, s.born, s.used);
  }

  lemma EdgeOrderKept(s: Sys, a: Action, p: Id, order: Id)
    requires Inv(s) && Enabled(s, a) && p in s.edges && order in s.edges[p].orders
    ensures KeepsOrder(s, Next(s, a), p, order)
  {
    hide Inv;
    if a.EdgeApply? {
      ApplyKeepsOrder(s, a.commands, a.i, p, order);
    } else {
      hide ApplyEntry, Applied, Insertable, FetchToCloud, PullForPlant, MarkSynced, OrderOf, OperationRows, EntryFor;
      OrderUsed(s, p, order);
    }
  }

  lemma RefusedKept(s: Sys, a: Action, p: Id, e: SyncEntry)
    requires Inv(s) && Enabled(s, a) && p in s.edges && CloudBorn(s.born, p, e) && Refused(s.edges[p], e)
    ensures p in Next(s, a).edges && Refused(Next(s, a).edges[p], e)
  {
    var wo, db := e.payload.wo, s.edges[p];
    var other :| other in db.orders && other != wo.id && db.orders[other].woNumber == wo.woNumber;
    EdgeOrderKept(s, a, p, other);
    NotYetApplied(s, a, p, e);
  }

  lemma NotYetApplied(s: Sys, a: Action, p: Id, e: SyncEntry)
    requires Inv(s) && Enabled(s, a) && p in s.edges && CloudBorn(s.born, p, e) && Refused(s.edges[p], e)
    ensures p in Next(s, a).edges && e.id !in Next(s, a).edges[p].applied
  {
    hide Inv, ApplyEntry, Insertable, FetchToCloud, PullForPlant, MarkSynced, OrderOf, OperationRows, NumberTaken,
         Referenced;
    match a
    case EdgeApply(m, i) =>
      CommandFacts(s, m, i);
      var x := m.entries[i];
      ApplyClaims(s.edges[m.plant], x, None);
      if m.plant == p && x.id == e.id {
        FirstApplyIff(s.edges[p], x, s.born[x.id].wo, None);
      }
    case _ =>
      hide EntryFor;
  }

  // ---- Five hundred of them shut the queue ---------------------------------

  /** Entry `id`, at position `j`, is not applied, and a batch of refused commands stands before it. */
  ghost predicate Shut(s: Sys, p: Id, j: int, id: Id) {
    && p in s.edges && 0 <= j < |s.cloud.outbox| && s.cloud.outbox[j].entry.id == id
    && id !in s.edges[p].applied
    && Count(s.cloud.outbox, StuckAt(s.edges[p], p), j) >= MAX_BATCH
  }

  /** Rows keep their place, entry and destination. */
  lemma RowsKept(s: Sys, a: Action, j: int)
    requires Enabled(s, a) && 0 <= j < |s.cloud.outbox|
    ensures var after := Next(s, a).cloud.outbox;
            && j < |after| && after[j].entry == s.cloud.outbox[j].entry
            && after[j].destination == s.cloud.outbox[j].destination
  {
    hide ApplyEntry, Insertable, FetchToCloud, PullForPlant, OrderOf, OperationRows, EntryFor;
    if a.CloudApply? {
      ApplyClaims(s.cloud, a.h.entries[a.h.pos], Some(a.h.plant));
    }
  }

  lemma RowBorn(s: Sys, p: Id, r: OutboxRow)
    requires Inv(s) && r in s.cloud.outbox && r.destination == Some(p)
    ensures CloudBorn(s.born, p, r.entry)
    ensures p in s.edges && r.entry.id !in s.edges[p].applied ==>
              !r.synced && s.born[r.entry.id].wo.id !in s.edges[p].orders
  {
    hide BirthsOk, CloudOk, EdgeOutboxOk, FlightOk;
    assert CommandOk(r, s.born, s.edges);
    if p in s.edges {
      assert EdgeOk(p, s.edges[p].orders, s.edges[p].applied, s.born, s.used);
    }
  }

  lemma StuckKept(s: Sys, a: Action, p: Id, i: int)
    requires Inv(s) && Enabled(s, a) && p in s.edges && 0 <= i < |s.cloud.outbox|
    requires StuckAt(s.edges[p], p)(s.cloud.outbox[i])
    ensures var s' := Next(s, a);
            p in s'.edges && i < |s'.cloud.outbox| && StuckAt(s'.edges[p], p)(s'.cloud.outbox[i])
  {
    hide Inv, Next, Enabled, Refused;
    RowsKept(s, a, i);
    RowBorn(s, p, s.cloud.outbox[i]);
    RefusedKept(s, a, p, s.cloud.outbox[i].entry);
  }

  /** A stuck command is pending. */
  lemma StuckIsPending(s: Sys, p: Id, j: int)
    requires Inv(s) && p in s.edges && 0 <= j <= |s.cloud.outbox|
    ensures Count(s.cloud.outbox, StuckAt(s.edges[p], p), j) <= Count(s.cloud.outbox, PendingFor(p), j)
  {
    hide Inv;
    var outbox := s.cloud.outbox;
    forall i | 0 <= i < j && StuckAt(s.edges[p], p)(outbox[i]) ensures PendingFor(p)(outbox[i]) {
      RowBorn(s, p, outbox[i]);
    }
    CountLe(outbox, StuckAt(s.edges[p], p), outbox, PendingFor(p), j);
  }

  /** No message can hold a command that is shut off. */
  lemma ShutNotPulled(s: Sys, m: Msg, p: Id, j: int, id: Id)
    requires Inv(s) && CommandInv(s) && Shut(s, p, j, id) && m in s.net && m.Commands? && m.plant == p
    ensures forall e :: e in m.entries ==> e.id != id
  {
    hide Inv, NumbersUnique, Distinct, Count;
    StuckIsPending(s, p, j);
    assert PulledOk(m, s.cloud.outbox);
    forall e | e in m.entries ensures e.id != id {
      assert AheadOk(s.cloud.outbox, p, e.id);
    }
  }

  lemma ShutKept(s: Sys, a: Action, p: Id, j: int, id: Id)
    requires Inv(s) && CommandInv(s) && Enabled(s, a) && Shut(s, p, j, id)
    ensures Shut(Next(s, a), p, j, id)
  {
    hide Inv, CommandInv, Enabled, Next, StuckAt;
    var s' := Next(s, a);
    RowsKept(s, a, j);
    ShutNotApplied(s, a, p, j, id);
    forall i | 0 <= i < j && StuckAt(s.edges[p], p)(s.cloud.outbox[i])
      ensures StuckAt(s'.edges[p], p)(s'.cloud.outbox[i])
    {
      StuckKept(s, a, p, i);
    }
    CountLe(s.cloud.outbox, StuckAt(s.edges[p], p), s'.cloud.outbox, StuckAt(s'.edges[p], p), j);
  }

  lemma ShutNotApplied(s: Sys, a: Action, p: Id, j: int, id: Id)
    requires Inv(s) && CommandInv(s) && Enabled(s, a) && Shut(s, p, j, id)
    ensures p in Next(s, a).edges && id !in Next(s, a).edges[p].applied
  {
    hide Inv, CommandInv, ApplyEntry, Insertable, FetchToCloud, PullForPlant, MarkSynced, OrderOf, OperationRows,
         EntryFor, Count;
    match a
    case EdgeApply(m, i) =>
      ApplyClaims(s.edges[m.plant], m.entries[i], None);
      if m.plant == p {
        ShutNotPulled(s, m, p, j, id);
        assert m.entries[i] in m.entries;
      }
    case _ =>
  }

  // ---- Never ---------------------------------------------------------------

  lemma {:induction false} ShutForever(s: Sys, more: seq<Action>, p: Id, j: int, id: Id)
    requires Inv(s) && CommandInv(s) && Runnable(s, more) && Shut(s, p, j, id)
    ensures Shut(After(s, more), p, j, id)
    decreases |more|
  {
    hide Inv, CommandInv, Enabled, Next, Shut;
    if more != [] {
      StepKeepsInv(s, more[0]);
      StepKeepsCommands(s, more[0]);
      ShutKept(s, more[0], p, j, id);
      ShutForever(Next(s, more[0]), more[1..], p, j, id);
    }
  }

  lemma {:induction false} RefusedForever(s: Sys, more: seq<Action>, p: Id, e: SyncEntry)
    requires Inv(s) && Runnable(s, more) && p in s.edges && CloudBorn(s.born, p, e) && Refused(s.edges[p], e)
    ensures p in After(s, more).edges && Refused(After(s, more).edges[p], e)
    decreases |more|
  {
    hide Inv, Enabled, Next, Refused;
    if more != [] {
      StepKeepsInv(s, more[0]);
      BirthKept(s, more[0], e.id);
      RefusedKept(s, more[0], p, e);
      RefusedForever(Next(s, more[0]), more[1..], p, e);
    }
  }

  // ---- Otherwise it can be applied -----------------------------------------

  /** What one undisturbed delivery of command `e` does. */
  ghost predicate Delivered(s: Sys, p: Id, e: SyncEntry, s': Sys)
    requires p in s.edges && e.payload.WorkOrder?
  {
    var wo, db := e.payload.wo, s.edges[p];
    && s'.born == s.born && s'.edges.Keys == s.edges.Keys
    && s'.cloud == s.cloud.(outbox := MarkSynced(s.cloud.outbox, {e.id}))
    && s'.edges[p].applied == db.applied + {e.id}
    && s'.edges[p].orders == if e.id in db.applied then db.orders else db.orders[wo.id := OrderOf(wo, None)]
  }

  /** The protocol's steps for the command at place `k` of a pull, after provisioning its master data. */
  function PullProtocol(s: Sys, p: Id, e: SyncEntry, k: nat): seq<Action>
    requires p in s.edges && e.payload.WorkOrder?
  {
    var db := WithParts(s.edges[p], e.payload.wo);
    var pulled := Commands(p, PullForPlant(s.cloud, p, MAX_BATCH));
    [Provision(Some(p), db.parts, db.routings), CloudPull(p, MAX_BATCH), EdgeApply(pulled, k), EdgeAck(p, {e.id}),
     CloudAck(Ack(p, {e.id}))]
  }

  lemma EdgeAccepts(db: Db, e: SyncEntry)
    requires e.payload.WorkOrder? && e == EntryFor(e.id, e.payload.wo) && !Refused(db, e)
    requires e.id !in db.applied ==> e.payload.wo.id !in db.orders
    ensures var after := Applied(WithParts(db, e.payload.wo), e, None);
            && after.applied == db.applied + {e.id}
            && after.orders == if e.id in db.applied then db.orders
                               else db.orders[e.payload.wo.id := OrderOf(e.payload.wo, None)]
  {
    var db', wo := WithParts(db, e.payload.wo), e.payload.wo;
    assert NumberTaken(db', wo.id, wo.woNumber) <==> NumberTaken(db, wo.id, wo.woNumber);
    hide NumberTaken, ApplyEntry;
    if e.id !in db'.applied {
      FirstApplyIff(db', e, wo, None);
    } else {
      Replay(db', e, None);
    }
    FirstApplyInserts(db', e, wo, None);
  }

  lemma PullSteps(s: Sys, p: Id, db: Db)
    requires p in s.edges && db == s.edges[p].(parts := db.parts, routings := db.routings)
    ensures var a := Provision(Some(p), db.parts, db.routings); var s1 := s.(edges := s.edges[p := db]);
            && Enabled(s, a) && Next(s, a) == s1
            && Enabled(s1, CloudPull(p, MAX_BATCH))
            && Next(s1, CloudPull(p, MAX_BATCH)) ==
               s1.(net := s1.net + {Commands(p, PullForPlant(s1.cloud, p, MAX_BATCH))})
  {
    hide PullForPlant;
  }

  lemma EdgeApplyStep(s: Sys, m: Msg, k: nat)
    requires m in s.net && m.Commands? && k < |m.entries| && m.plant in s.edges
    ensures Enabled(s, EdgeApply(m, k))
    ensures Next(s, EdgeApply(m, k)) == s.(edges := s.edges[m.plant := Applied(s.edges[m.plant], m.entries[k], None)])
  {
    hide Applied;
  }

  lemma AckSteps(s: Sys, p: Id, id: Id)
    requires p in s.edges && id in s.edges[p].applied
    ensures var s1 := s.(net := s.net + {Ack(p, {id})});
            && Enabled(s, EdgeAck(p, {id})) && Next(s, EdgeAck(p, {id})) == s1
            && Enabled(s1, CloudAck(Ack(p, {id})))
            && Next(s1, CloudAck(Ack(p, {id}))) == s1.(cloud := s.cloud.(outbox := MarkSynced(s.cloud.outbox, {id})))
  {
    hide MarkSynced;
  }

  lemma HandOver(s: Sys, p: Id, e: SyncEntry, k: nat) returns (s': Sys)
    requires p in s.edges && k < |PullForPlant(s.cloud, p, MAX_BATCH)| && PullForPlant(s.cloud, p, MAX_BATCH)[k] == e
    requires e.payload.WorkOrder? && e == EntryFor(e.id, e.payload.wo) && !Refused(s.edges[p], e)
    requires e.id !in s.edges[p].applied ==> e.payload.wo.id !in s.edges[p].orders
    ensures Runnable(s, PullProtocol(s, p, e, k)) && After(s, PullProtocol(s, p, e, k)) == s' && Delivered(s, p, e, s')
  {
    hide PullForPlant, MarkSynced, ApplyEntry, Applied, EntryFor, Refused, OrderOf, Runnable, After, Next, Enabled;
    var db := WithParts(s.edges[p], e.payload.wo);
    EdgeAccepts(s.edges[p], e);
    var pulled := Commands(p, PullForPlant(s.cloud, p, MAX_BATCH));
    var s1 := s.(edges := s.edges[p := db]);
    var s2 := s1.(net := s1.net + {pulled});
    var s3 := s2.(edges := s2.edges[p := Applied(db, e, None)]);
    var s4 := s3.(net := s3.net + {Ack(p, {e.id})});
    s' := s4.(cloud := s.cloud.(outbox := MarkSynced(s.cloud.outbox, {e.id})));
    PullSteps(s, p, db);
    EdgeApplyStep(s2, pulled, k);
    AckSteps(s3, p, e.id);
    Follows([s, s1, s2, s3, s4, s'], PullProtocol(s, p, e, k));
  }

  /** The oldest pending command for the plant that it does not refuse. */
  lemma {:induction false} FirstFree(outbox: seq<OutboxRow>, db: Db, p: Id, j: int) returns (i: int)
    requires 0 <= j < |outbox| && PendingFor(p)(outbox[j]) && !StuckAt(db, p)(outbox[j])
    ensures 0 <= i <= j && PendingFor(p)(outbox[i]) && !StuckAt(db, p)(outbox[i])
    ensures Count(outbox, PendingFor(p), i) <= Count(outbox, StuckAt(db, p), i)
    decreases j
  {
    hide Count, StuckAt;
    if k :| 0 <= k < j && PendingFor(p)(outbox[k]) && !StuckAt(db, p)(outbox[k]) {
      i := FirstFree(outbox, db, p, k);
    } else {
      i := j;
      CountLe(outbox, PendingFor(p), outbox, StuckAt(db, p), j);
    }
  }

  /** Its place in a pull. */
  lemma InPull(s: Sys, p: Id, i: int)
    requires 0 <= i < |s.cloud.outbox| && PendingFor(p)(s.cloud.outbox[i])
    requires Count(s.cloud.outbox, PendingFor(p), i) < MAX_BATCH
    ensures var k := Count(s.cloud.outbox, PendingFor(p), i); var es := PullForPlant(s.cloud, p, MAX_BATCH);
            k < |es| && es[k] == s.cloud.outbox[i].entry
  {
    hide Count;
    PlaceOf(s.cloud.outbox, PendingFor(p), i);
  }

  /** Two commands carry different numbers: both orders are in the cloud's table. */
  lemma NumbersDiffer(s: Sys, p: Id, e: SyncEntry, q: Id, x: SyncEntry)
    requires Inv(s) && CommandInv(s) && CloudBorn(s.born, p, e) && CloudBorn(s.born, q, x)
    requires e.payload.wo.id != x.payload.wo.id
    ensures e.payload.wo.woNumber != x.payload.wo.woNumber
  {
    hide CloudOutboxOk, EdgesOk, FlightOk;
    assert Tagged(s.cloud.orders, s.born[e.id]) && Tagged(s.cloud.orders, s.born[x.id]);
  }

  /** A delivery makes no further command refused. */
  lemma StillAccepted(s: Sys, p: Id, e: SyncEntry, s': Sys, x: SyncEntry)
    requires Inv(s) && CommandInv(s) && p in s.edges && CloudBorn(s.born, p, e) && CloudBorn(s.born, p, x)
    requires Delivered(s, p, e, s') && !Refused(s.edges[p], x)
    ensures !Refused(s'.edges[p], x)
  {
    hide Inv, CommandInv, MarkSynced;
    if e.payload.wo.id != x.payload.wo.id {
      NumbersDiffer(s, p, e, p, x);
    }
  }

  /** The command at position `j` is not refused, and fewer than a batch of refused ones precede it. */
  ghost predicate Deliverable(s: Sys, p: Id, j: int)
    requires p in s.edges && 0 <= j < |s.cloud.outbox|
  {
    && !Refused(s.edges[p], s.cloud.outbox[j].entry)
    && Count(s.cloud.outbox, StuckAt(s.edges[p], p), j) < 500
  }

  lemma StillDeliverable(s: Sys, p: Id, e: SyncEntry, s': Sys, j: int)
    requires Inv(s) && CommandInv(s) && p in s.edges && CloudBorn(s.born, p, e) && Delivered(s, p, e, s')
    requires 0 <= j < |s.cloud.outbox| && s.cloud.outbox[j].destination == Some(p) && Deliverable(s, p, j)
    ensures Deliverable(s', p, j)
  {
    hide Inv, CommandInv, Refused, Count;
    var before, after := s.cloud.outbox, s'.cloud.outbox;
    forall i | 0 <= i <= j && after[i].destination == Some(p) && !Refused(s.edges[p], before[i].entry)
      ensures !Refused(s'.edges[p], after[i].entry)
    {
      RowBorn(s, p, before[i]);
      StillAccepted(s, p, e, s', before[i].entry);
    }
    CountLe(after, StuckAt(s'.edges[p], p), before, StuckAt(s.edges[p], p), j);
  }

  /** Deliver the oldest free command. */
  lemma DeliverOne(s: Sys, p: Id, j: int) returns (first: seq<Action>, s': Sys)
    requires Inv(s) && CommandInv(s) && p in s.edges && 0 <= j < |s.cloud.outbox|
    requires s.cloud.outbox[j].destination == Some(p) && s.cloud.outbox[j].entry.id !in s.edges[p].applied
    requires Deliverable(s, p, j)
    ensures Runnable(s, first) && After(s, first) == s' && p in s'.edges
    ensures Inv(s') && CommandInv(s') && |s'.cloud.outbox| == |s.cloud.outbox| && Deliverable(s', p, j)
    ensures s'.cloud.outbox[j].entry == s.cloud.outbox[j].entry && s'.cloud.outbox[j].destination == Some(p)
    ensures Unsent(s'.cloud.outbox) < Unsent(s.cloud.outbox)
  {
    hide Inv, CommandInv, Refused, Count, Unsent, Runnable, After;
    var outbox, db := s.cloud.outbox, s.edges[p];
    RowBorn(s, p, outbox[j]);
    var i := FirstFree(outbox, db, p, j);
    CountUpTo(outbox, StuckAt(db, p), i, j);
    InPull(s, p, i);
    RowBorn(s, p, outbox[i]);
    var e, k := outbox[i].entry, Count(outbox, PendingFor(p), i);
    s' := HandOver(s, p, e, k);
    first := PullProtocol(s, p, e, k);
    RunnableKeepsCommands(s, first);
    StillDeliverable(s, p, e, s', j);
    MarkSends(outbox, {e.id}, i);
  }

  lemma {:induction false} RunnableKeepsCommands(s: Sys, more: seq<Action>)
    requires Inv(s) && CommandInv(s) && Runnable(s, more)
    ensures Inv(After(s, more)) && CommandInv(After(s, more))
    decreases |more|
  {
    hide Inv, CommandInv, Enabled, Next;
    if more != [] {
      StepKeepsInv(s, more[0]);
      StepKeepsCommands(s, more[0]);
      RunnableKeepsCommands(Next(s, more[0]), more[1..]);
    }
  }

  lemma {:induction false} DeliverUpTo(s: Sys, p: Id, j: int) returns (more: seq<Action>)
    requires Inv(s) && CommandInv(s) && p in s.edges && 0 <= j < |s.cloud.outbox|
    requires s.cloud.outbox[j].destination == Some(p) && Deliverable(s, p, j)
    ensures Runnable(s, more) && p in After(s, more).edges
    ensures s.cloud.outbox[j].entry.id in After(s, more).edges[p].applied
    decreases Unsent(s.cloud.outbox)
  {
    hide Inv, CommandInv, Enabled, Next, Deliverable;
    if s.cloud.outbox[j].entry.id in s.edges[p].applied {
      more := [];
    } else {
      var first, s' := DeliverOne(s, p, j);
      var rest := DeliverUpTo(s', p, j);
      RunOn(s, first, rest);
      more := first + rest;
    }
  }

  // ---- Exactly when --------------------------------------------------------

  /** Some continuation of the run from `s` makes plant `p` apply command `id`. */
  ghost predicate CanApply(s: Sys, p: Id, id: Id) {
    exists more :: Runnable(s, more) && p in After(s, more).edges && id in After(s, more).edges[p].applied
  }

  lemma UndeliverableNever(s: Sys, p: Id, j: int, more: seq<Action>)
    requires Inv(s) && CommandInv(s) && p in s.edges && 0 <= j < |s.cloud.outbox|
    requires s.cloud.outbox[j].destination == Some(p) && s.cloud.outbox[j].entry.id !in s.edges[p].applied
    requires !Deliverable(s, p, j) && Runnable(s, more)
    ensures p in After(s, more).edges && s.cloud.outbox[j].entry.id !in After(s, more).edges[p].applied
  {
    hide Inv, CommandInv, Enabled, Next, Runnable, After;
    var r := s.cloud.outbox[j];
    if Refused(s.edges[p], r.entry) {
      RowBorn(s, p, r);
      RefusedForever(s, more, p, r.entry);
    } else {
      ShutForever(s, more, p, j, r.entry.id);
    }
  }

  /** In any state of any run, a command that its plant has not applied can still be applied
      exactly when no other order of the plant has its number and fewer than 500 commands
      queued before it are refused for that reason. */
  lemma ApplicableIff(trace: seq<Sys>, actions: seq<Action>, k: nat, p: Id, j: int)
    requires IsRun(trace, actions) && k < |trace| && p in trace[k].edges && 0 <= j < |trace[k].cloud.outbox|
    requires trace[k].cloud.outbox[j].destination == Some(p)
    requires trace[k].cloud.outbox[j].entry.id !in trace[k].edges[p].applied
    ensures CanApply(trace[k], p, trace[k].cloud.outbox[j].entry.id) <==> Deliverable(trace[k], p, j)
  {
    hide Inv, CommandInv, Enabled, Next, Deliverable, Runnable, After;
    var s := trace[k];
    RunCommands(trace, actions, k);
    hide IsRun;
    var id := s.cloud.outbox[j].entry.id;
    if Deliverable(s, p, j) {
      var more := DeliverUpTo(s, p, j);
    } else if more :| Runnable(s, more) && p in After(s, more).edges && id in After(s, more).edges[p].applied {
      UndeliverableNever(s, p, j, more);
    }
  }

  lemma CloudCreateStep(s: Sys, p: Id, woId: Id, entryId: Id)
    requires s.cloud == FRESH && woId !in s.used && entryId !in s.used && woId != entryId
    ensures var a, wo := CloudCreate(p, ORDER, woId, entryId), Draft(woId, ORDER);
            && Enabled(s, a)
            && Next(s, a) == s.(cloud := WithOrder(FRESH, wo, [], Some(p), entryId, Some(p)),
                                born := s.born[entryId := Birth(p, wo, false)], used := s.used + {woId, entryId})
  {
    hide OperationRows;
    assert Insertable(FRESH, Draft(woId, ORDER), []);
  }

  /** A plant and the cloud choose one number: the plant has WO-1 of its own when the cloud
      orders a WO-1 from it, and that command can never be applied. */
  lemma RefusedIsReachable() returns (trace: seq<Sys>, actions: seq<Action>)
    ensures IsRun(trace, actions) && |actions| == 2 && "a" in trace[2].edges && |trace[2].cloud.outbox| == 1
    ensures trace[2].cloud.outbox[0].destination == Some("a") && !Deliverable(trace[2], "a", 0)
  {
    var s0 := Sys(FRESH, map["a" := FRESH], {}, {}, map[], {});
    assert Initial(s0);
    hide Initial, Enabled, Next;
    var a1, a2 := EdgeCreate("a", ORDER, "w1", "e1"), CloudCreate("a", ORDER, "w2", "e2");
    CreateStep(s0, "a", "w1", "e1");
    var s1 := Next(s0, a1);
    CloudCreateStep(s1, "a", "w2", "e2");
    var s2 := Next(s1, a2);
    trace, actions := [s0, s1, s2], [a1, a2];
    assert s2.edges["a"] == Created("e1", "w1");
    NumberClash();
    assert s2.cloud.outbox[0].entry == EntryFor("e2", Draft("w2", ORDER));
  }

  lemma NumberClash()
    ensures Refused(Created("e1", "w1"), EntryFor("e2", Draft("w2", ORDER)))
  {
    assert "w1" in Created("e1", "w1").orders && "w1" != "w2";
  }
}
