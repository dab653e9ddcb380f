/** One database of the offline-first sync: work orders, the transactional outbox and the
    idempotent-apply ledger.  Edges and the cloud share this schema. */
module SyncDb {
  import opened Prelude

  /** A work order as carried in a change-feed payload. */
  datatype WoPayload = WoPayload(id: Id, woNumber: string, partId: Id, routingId: Option<Id>, qtyOrdered: real,
                                 priority: int, status: string, plannedStart: Option<int>, plannedEnd: Option<int>)

  /** A payload that does not parse as a work order is `Malformed`. */
  datatype Payload = WorkOrder(wo: WoPayload) | Malformed

  datatype SyncEntry = SyncEntry(id: Id, aggregate: string, entityId: Id, op: string, payload: Payload)

  datatype Order = Order(woNumber: string, partId: Id, routingId: Option<Id>, qtyOrdered: real, priority: int,
                         status: string, plannedStart: Option<int>, plannedEnd: Option<int>, plantId: Option<Id>)

  datatype OutboxRow = OutboxRow(entry: SyncEntry, destination: Option<Id>, synced: bool)

  /** An operation as ordered: its number, and what it refers to. */
  datatype Op = Op(opNo: int, routingOp: Option<Id>, workCenter: Option<Id>)

  datatype Operation = Operation(orderId: Id, op: Op)

  /** The tables.  `outbox` is in creation order. */
  datatype Db = Db(orders: map<Id, Order>, operations: seq<Operation>, parts: set<Id>, routings: set<Id>,
                   routingOps: set<Id>, workCenters: set<Id>, applied: set<Id>, outbox: seq<OutboxRow>)

  /** The row a payload describes, tagged with a plant. */
  function OrderOf(wo: WoPayload, plant: Option<Id>): Order {
    Order(wo.woNumber, wo.partId, wo.routingId, wo.qtyOrdered, wo.priority, wo.status,
          wo.plannedStart, wo.plannedEnd, plant)
  }

  /** `wo_number` is unique: another order already has it. */
  predicate NumberTaken(db: Db, id: Id, woNumber: string) {
    exists k :: k in db.orders && k != id && db.orders[k].woNumber == woNumber
  }

  predicate Referenced(db: Db, partId: Id, routingId: Option<Id>) {
    partId in db.parts && (routingId.Some? ==> routingId.value in db.routings)
  }

  // ---- Idempotent apply ----------------------------------------------------

  /** The upsert.  An existing row keeps its part and routing, and its plant when none is given. */
  function ApplyWorkOrder(db: Db, payload: Payload, plant: Option<Id>): Result<Db> {
    if payload.Malformed? then Err(InvalidReference)
    else
      var wo := payload.wo;
      if NumberTaken(db, wo.id, wo.woNumber) then Err(Conflict)
      else if wo.id in db.orders then
        var row := db.orders[wo.id];
        var row' := row.(woNumber := wo.woNumber, qtyOrdered := wo.qtyOrdered, priority := wo.priority,
                         status := wo.status, plannedStart := wo.plannedStart, plannedEnd := wo.plannedEnd,
                         plantId := if plant.Some? then plant else row.plantId);
        Ok(db.(orders := db.orders[wo.id := row']))
      else if !Referenced(db, wo.partId, wo.routingId) then Err(InvalidReference)
      else Ok(db.(orders := db.orders[wo.id := OrderOf(wo, plant)]))
  }

  /** `apply_entry` as one transaction: the ledger claim and the write commit together. */
  function ApplyEntry(db: Db, e: SyncEntry, plant: Option<Id>): Result<(Db, bool)> {
    if e.id in db.applied then Ok((db, false))
    else
      var claimed := db.(applied := db.applied + {e.id});
      if e.aggregate == "work_order" then
        match ApplyWorkOrder(claimed, e.payload, plant)
        case Ok(db') => Ok((db', true))
        case Err(error) => Err(error)
      else Ok((claimed, true))
  }

  /** Column by column, a row holds what the payload says of the order, its status and plant aside. */
  ghost predicate Carries(row: Order, wo: WoPayload) {
    && row.woNumber == wo.woNumber && row.partId == wo.partId && row.routingId == wo.routingId
    && row.qtyOrdered == wo.qtyOrdered && row.priority == wo.priority
    && row.plannedStart == wo.plannedStart && row.plannedEnd == wo.plannedEnd
  }

  /** The first apply of a work-order entry.  It goes through exactly when no other order has the
      number and, for a new order, part and routing exist.  A new order gets the payload's
      columns and the given plant.  An existing one keeps its part and routing, takes the other
      columns, and keeps its plant unless one is given.  No other order changes. */
  lemma ApplyMeaning(db: Db, e: SyncEntry, plant: Option<Id>)
    requires e.id !in db.applied && e.aggregate == "work_order" && e.payload.WorkOrder?
    ensures var wo := e.payload.wo;
            ApplyEntry(db, e, plant).Ok? <==>
            && (forall k :: k in db.orders && k != wo.id ==> db.orders[k].woNumber != wo.woNumber)
            && (wo.id !in db.orders ==>
                  wo.partId in db.parts && (wo.routingId.Some? ==> wo.routingId.value in db.routings))
    ensures ApplyEntry(db, e, plant).Ok? ==>
              var (db', newly) := ApplyEntry(db, e, plant).value; var wo := e.payload.wo;
              && newly && db'.applied == db.applied + {e.id} && db'.orders.Keys == db.orders.Keys + {wo.id}
              && (forall k :: k in db.orders && k != wo.id ==> db'.orders[k] == db.orders[k])
              && db'.orders[wo.id].status == wo.status
              && (wo.id !in db.orders ==> Carries(db'.orders[wo.id], wo) && db'.orders[wo.id].plantId == plant)
              && (wo.id in db.orders ==>
                    var row, row' := db.orders[wo.id], db'.orders[wo.id];
                    && Carries(row', wo.(partId := row.partId, routingId := row.routingId))
                    && row'.plantId == if plant.None? then row.plantId else plant)
  {
    var wo, claimed := e.payload.wo, db.(applied := db.applied + {e.id});
    assert NumberTaken(claimed, wo.id, wo.woNumber) <==> NumberTaken(db, wo.id, wo.woNumber);
  }

  /** Entries of other kinds are claimed and change no order; a work-order entry whose payload
      does not parse is refused. */
  lemma ApplyOthers(db: Db, e: SyncEntry, plant: Option<Id>)
    requires e.id !in db.applied
    ensures e.aggregate != "work_order" ==>
              ApplyEntry(db, e, plant) == Ok((db.(applied := db.applied + {e.id}), true))
    ensures e.aggregate == "work_order" && e.payload.Malformed? ==> ApplyEntry(db, e, plant) == Err(InvalidReference)
  {
  }

  datatype Delivery = Delivery(entry: SyncEntry, plant: Option<Id>)

  /** How far a batch got: the database it left, the counters, and the error that stopped it. */
  datatype Progress = Progress(db: Db, applied: nat, skipped: nat, failed: Option<RepoError>)

  /** Deliver entries one transaction after the other, stopping at the first error. */
  function Deliver(db: Db, ds: seq<Delivery>): Progress {
    if ds == [] then Progress(db, 0, 0, None)
    else
      var p := Deliver(db, ds[..|ds| - 1]);
      if p.failed.Some? then p
      else
        match ApplyEntry(p.db, ds[|ds| - 1].entry, ds[|ds| - 1].plant)
        case Err(error) => p.(failed := Some(error))
        case Ok((db', true)) => p.(db := db', applied := p.applied + 1)
        case Ok((db', false)) => p.(db := db', skipped := p.skipped + 1)
  }

  function From(entries: seq<SyncEntry>, plant: Option<Id>): (ds: seq<Delivery>)
    ensures |ds| == |entries|
    ensures forall i :: 0 <= i < |ds| ==> ds[i] == Delivery(entries[i], plant)
  {
    seq(|entries|, i requires 0 <= i < |entries| => Delivery(entries[i], plant))
  }

  ghost function EntryIds(ds: seq<Delivery>): set<Id> {
    set d | d in ds :: d.entry.id
  }

  /** Keep the first delivery of each entry id. */
  ghost function FirstOnly(ds: seq<Delivery>): seq<Delivery> {
    if ds == [] then []
    else
      var init, d := ds[..|ds| - 1], ds[|ds| - 1];
      if d.entry.id in EntryIds(init) then FirstOnly(init) else FirstOnly(init) + [d]
  }

  lemma EntryIdsAppend(ds: seq<Delivery>, d: Delivery)
    ensures EntryIds(ds + [d]) == EntryIds(ds) + {d.entry.id}
  {
    assert forall x :: x in ds + [d] <==> x in ds || x == d;
  }

  /** An apply without error leaves the id claimed, does nothing when it was claimed before,
      and never touches the outbox. */
  lemma ApplyClaims(db: Db, e: SyncEntry, plant: Option<Id>)
    ensures ApplyEntry(db, e, plant).Ok? ==>
              var (db', newly) := ApplyEntry(db, e, plant).value;
              && db'.applied == db.applied + {e.id}
              && (newly <==> e.id !in db.applied)
              && (!newly ==> db' == db)
              && db'.outbox == db.outbox
  {
  }

  /** Deliveries without error claim exactly their ids, and the counters add up. */
  lemma {:induction false} DeliverClaims(db: Db, ds: seq<Delivery>)
    ensures var p := Deliver(db, ds);
            && p.applied + p.skipped <= |ds|
            && (p.failed.None? ==> p.applied + p.skipped == |ds| && p.db.applied == db.applied + EntryIds(ds))
  {
    hide ApplyEntry, EntryIds;
    if ds == [] {
      NoEntryIds();
    } else {
      var init, d := ds[..|ds| - 1], ds[|ds| - 1];
      assert ds == init + [d];
      DeliverClaims(db, init);
      EntryIdsAppend(init, d);
      ApplyClaims(Deliver(db, init).db, d.entry, d.plant);
    }
  }

  /** Each delivery counted as applied adds one new id to the ledger. */
  lemma {:induction false} DeliverCounts(db: Db, ds: seq<Delivery>)
    ensures var p := Deliver(db, ds);
            db.applied <= p.db.applied && |p.db.applied| == |db.applied| + p.applied
  {
    hide ApplyEntry;
    if ds != [] {
      var init, d := ds[..|ds| - 1], ds[|ds| - 1];
      DeliverCounts(db, init);
      ApplyClaims(Deliver(db, init).db, d.entry, d.plant);
    }
  }

  lemma NoEntryIds()
    ensures EntryIds([]) == {}
  {
  }

  lemma DeliverAppend(db: Db, ds: seq<Delivery>, d: Delivery)
    requires Deliver(db, ds).failed.None?
    ensures var p, q := Deliver(db, ds), Deliver(db, ds + [d]);
            match ApplyEntry(p.db, d.entry, d.plant)
            case Err(error) => q == p.(failed := Some(error))
            case Ok((db', newly)) => q.db == db' && q.failed.None? && q.applied == p.applied + (if newly then 1 else 0)
  {
    assert (ds + [d])[..|ds|] == ds;
  }

  /** Repeated deliveries end in the state that the first delivery of each id alone reaches. */
  lemma {:induction false} RepeatsFold(db: Db, ds: seq<Delivery>)
    requires Deliver(db, ds).failed.None?
    ensures var all, once := Deliver(db, ds), Deliver(db, FirstOnly(ds));
            once.failed.None? && once.db == all.db && once.applied == all.applied
  {
    if ds != [] {
      hide ApplyEntry, EntryIds;
      var init, d := ds[..|ds| - 1], ds[|ds| - 1];
      assert ds == init + [d];
      RepeatsFold(db, init);
      DeliverClaims(db, init);
      DeliverAppend(db, init, d);
      DeliverAppend(db, FirstOnly(init), d);
      ApplyClaims(Deliver(db, init).db, d.entry, d.plant);
    }
  }

  /** Each id not claimed before counts as applied exactly once in total, however often and
      in whatever order it is delivered. */
  lemma AppliedOnce(db: Db, ds: seq<Delivery>)
    requires Deliver(db, ds).failed.None?
    ensures Deliver(db, ds).applied == |EntryIds(ds) - db.applied|
  {
    DeliverClaims(db, ds);
    DeliverCounts(db, ds);
    assert Deliver(db, ds).db.applied == db.applied + (EntryIds(ds) - db.applied);
  }

  lemma {:induction false} DeliverPrefix(db: Db, ds: seq<Delivery>)
    requires Deliver(db, ds).failed.Some?
    ensures var p := Deliver(db, ds); var k := p.applied + p.skipped;
            && k < |ds|
            && Deliver(db, ds[..k]) == p.(failed := None)
            && ApplyEntry(p.db, ds[k].entry, ds[k].plant) == Err(p.failed.value)
  {
    hide ApplyEntry;
    var init := ds[..|ds| - 1];
    var q := Deliver(db, init);
    if q.failed.Some? {
      DeliverPrefix(db, init);
      assert init[..q.applied + q.skipped] == ds[..q.applied + q.skipped];
    } else {
      DeliverClaims(db, init);
    }
  }

  lemma {:induction false} AllSkipped(db: Db, ds: seq<Delivery>)
    requires EntryIds(ds) <= db.applied
    ensures Deliver(db, ds) == Progress(db, 0, |ds|, None)
  {
    if ds != [] {
      var init, d := ds[..|ds| - 1], ds[|ds| - 1];
      assert ds == init + [d];
      EntryIdsAppend(init, d);
      AllSkipped(db, init);
    }
  }

  /** A batch that fails at entry `k` keeps its prefix: a retry skips the first `k` entries
      and meets entry `k` in the very same database. */
  lemma RetryResumes(db: Db, ds: seq<Delivery>)
    requires Deliver(db, ds).failed.Some?
    ensures var p := Deliver(db, ds); var k := p.applied + p.skipped;
            && k < |ds|
            && Deliver(db, ds[..k]) == p.(failed := None)
            && Deliver(p.db, ds[..k]) == Progress(p.db, 0, k, None)
            && ApplyEntry(p.db, ds[k].entry, ds[k].plant) == Err(p.failed.value)
  {
    DeliverPrefix(db, ds);
    var p := Deliver(db, ds);
    var k := p.applied + p.skipped;
    DeliverClaims(db, ds[..k]);
    AllSkipped(p.db, ds[..k]);
  }

  // ---- Outbox --------------------------------------------------------------

  function Entries(rows: seq<OutboxRow>): (es: seq<SyncEntry>)
    ensures |es| == |rows|
    ensures forall i :: 0 <= i < |rows| ==> es[i] == rows[i].entry
  {
    seq(|rows|, i requires 0 <= i < |rows| => rows[i].entry)
  }

  function Limit<T>(rows: seq<T>, limit: nat): seq<T> {
    if limit < |rows| then rows[..limit] else rows
  }

  /** Unsynced cloud-bound entries, oldest first. */
  function FetchToCloud(db: Db, limit: nat): seq<SyncEntry> {
    Entries(Limit(Select(db.outbox, (r: OutboxRow) => r.destination.None? && !r.synced), limit))
  }

  /** Unsynced, and a command for the plant. */
  function PendingFor(plant: Id): OutboxRow -> bool {
    (r: OutboxRow) => r.destination == Some(plant) && !r.synced
  }

  /** Unsynced commands for a plant, oldest first. */
  function PullForPlant(db: Db, plant: Id, limit: nat): seq<SyncEntry> {
    Entries(Limit(Select(db.outbox, PendingFor(plant)), limit))
  }

  lemma FetchedRow(rows: seq<OutboxRow>, p: OutboxRow -> bool, limit: nat, e: SyncEntry) returns (r: OutboxRow)
    requires e in Entries(Limit(Select(rows, p), limit))
    ensures r in rows && p(r) && r.entry == e
  {
    var chosen := Limit(Select(rows, p), limit);
    var i :| 0 <= i < |Entries(chosen)| && Entries(chosen)[i] == e;
    r := chosen[i];
    assert r in Select(rows, p);
  }

  /** A fetch returns at most `limit` entries, all of unsynced cloud-bound rows, and every one of
      them when the limit allows; a pull does the same for the commands of its plant. */
  lemma FetchMeaning(db: Db, plant: Id, limit: nat, e: SyncEntry)
    ensures |FetchToCloud(db, limit)| <= limit && |PullForPlant(db, plant, limit)| <= limit
    ensures e in FetchToCloud(db, limit) ==>
              exists r :: r in db.outbox && r.entry == e && r.destination == None && !r.synced
    ensures limit >= |db.outbox| ==>
              ((exists r :: r in db.outbox && r.entry == e && r.destination == None && !r.synced) ==>
                 e in FetchToCloud(db, limit))
    ensures e in PullForPlant(db, plant, limit) ==>
              exists r :: r in db.outbox && r.entry == e && r.destination == Some(plant) && !r.synced
    ensures limit >= |db.outbox| ==>
              ((exists r :: r in db.outbox && r.entry == e && r.destination == Some(plant) && !r.synced) ==>
                 e in PullForPlant(db, plant, limit))
  {
    var wanted := (r: OutboxRow) => r.destination.None? && !r.synced;
    if e in FetchToCloud(db, limit) {
      var r := FetchedRow(db.outbox, wanted, limit, e);
    }
    if e in PullForPlant(db, plant, limit) {
      var r := FetchedRow(db.outbox, PendingFor(plant), limit, e);
    }
    if limit >= |db.outbox| {
      if r :| r in db.outbox && r.entry == e && r.destination == None && !r.synced {
        InEntries(Select(db.outbox, wanted), r);
      }
      if r :| r in db.outbox && r.entry == e && r.destination == Some(plant) && !r.synced {
        InEntries(Select(db.outbox, PendingFor(plant)), r);
      }
    }
  }

  lemma InEntries(rows: seq<OutboxRow>, r: OutboxRow)
    requires r in rows
    ensures r.entry in Entries(rows)
  {
    var i :| 0 <= i < |rows| && rows[i] == r;
    assert Entries(rows)[i] == r.entry;
  }

  /** What is fetched or pulled is not synced yet. */
  lemma FetchedUnsynced(db: Db, ids: set<Id>)
    requires forall r :: r in db.outbox && r.entry.id in ids ==> r.synced
    ensures forall limit, e :: e in FetchToCloud(db, limit) ==> e.id !in ids
    ensures forall plant, limit, e :: e in PullForPlant(db, plant, limit) ==> e.id !in ids
  {
    forall limit, e | e in FetchToCloud(db, limit) ensures e.id !in ids {
      var r := FetchedRow(db.outbox, (r: OutboxRow) => r.destination.None? && !r.synced, limit, e);
    }
    forall plant, limit, e | e in PullForPlant(db, plant, limit) ensures e.id !in ids {
      var r := FetchedRow(db.outbox, PendingFor(plant), limit, e);
    }
  }

  /** `mark_synced`: by id alone, whoever asks. */
  function MarkSynced(outbox: seq<OutboxRow>, ids: set<Id>): (r: seq<OutboxRow>)
    ensures |r| == |outbox|
    ensures forall i :: 0 <= i < |r| ==> r[i] == outbox[i].(synced := outbox[i].synced || outbox[i].entry.id in ids)
  {
    seq(|outbox|, i requires 0 <= i < |outbox| => outbox[i].(synced := outbox[i].synced || outbox[i].entry.id in ids))
  }

  /** The change-feed entry written beside a new work order. */
  function EntryFor(entryId: Id, wo: WoPayload): SyncEntry {
    SyncEntry(entryId, "work_order", wo.id, "upsert", WorkOrder(wo))
  }

  datatype WorkOrderInput = WorkOrderInput(woNumber: string, partId: Id, routingId: Option<Id>, qtyOrdered: real,
                                           priority: Option<int>, plannedStart: Option<int>, plannedEnd: Option<int>,
                                           ops: seq<Op>)

  /** A new order is a draft, of priority 100 unless the input says otherwise. */
  function Draft(woId: Id, input: WorkOrderInput): WoPayload {
    WoPayload(woId, input.woNumber, input.partId, input.routingId, input.qtyOrdered,
              if input.priority.Some? then input.priority.value else 100, "draft", input.plannedStart, input.plannedEnd)
  }

  /** Operation numbers differ, and what the operations refer to exists. */
  ghost predicate OpsOk(db: Db, ops: seq<Op>) {
    && (forall i, j :: 0 <= i < j < |ops| ==> ops[i].opNo != ops[j].opNo)
    && (forall i :: 0 <= i < |ops| ==> OpReferenced(db, ops[i]))
  }

  predicate OpReferenced(db: Db, op: Op) {
    && (op.routingOp.Some? ==> op.routingOp.value in db.routingOps)
    && (op.workCenter.Some? ==> op.workCenter.value in db.workCenters)
  }

  function OperationRows(orderId: Id, ops: seq<Op>): (rows: seq<Operation>)
    ensures |rows| == |ops|
    ensures forall i :: 0 <= i < |rows| ==> rows[i] == Operation(orderId, ops[i])
  {
    seq(|ops|, i requires 0 <= i < |ops| => Operation(orderId, ops[i]))
  }

  /** A new order, its operations and its outbox row, in one transaction. */
  function WithOrder(db: Db, wo: WoPayload, ops: seq<Op>, plant: Option<Id>, entryId: Id, destination: Option<Id>): Db {
    db.(orders := db.orders[wo.id := OrderOf(wo, plant)],
        operations := db.operations + OperationRows(wo.id, ops),
        outbox := db.outbox + [OutboxRow(EntryFor(entryId, wo), destination, false)])
  }

  ghost predicate Insertable(db: Db, wo: WoPayload, ops: seq<Op>) {
    && wo.id !in db.orders && !NumberTaken(db, wo.id, wo.woNumber)
    && Referenced(db, wo.partId, wo.routingId) && OpsOk(db, ops)
  }

  /** A creation: possible exactly when id and number are free, everything referred to exists and
      operation numbers differ.  It writes the order column by column, its operations in order,
      and an unsynced outbox row that carries the whole order. */
  lemma CreateMeaning(db: Db, wo: WoPayload, ops: seq<Op>, plant: Option<Id>, entryId: Id, destination: Option<Id>)
    ensures Insertable(db, wo, ops) <==>
            && wo.id !in db.orders && (forall k :: k in db.orders ==> db.orders[k].woNumber != wo.woNumber)
            && wo.partId in db.parts && (wo.routingId.Some? ==> wo.routingId.value in db.routings)
            && (forall i, j :: 0 <= i < j < |ops| ==> ops[i].opNo != ops[j].opNo)
            && (forall i :: 0 <= i < |ops| && ops[i].routingOp.Some? ==> ops[i].routingOp.value in db.routingOps)
            && (forall i :: 0 <= i < |ops| && ops[i].workCenter.Some? ==> ops[i].workCenter.value in db.workCenters)
    ensures var db' := WithOrder(db, wo, ops, plant, entryId, destination); var n := |db.operations|;
            && db'.orders.Keys == db.orders.Keys + {wo.id}
            && (forall k :: k in db.orders && k != wo.id ==> db'.orders[k] == db.orders[k])
            && Carries(db'.orders[wo.id], wo) && db'.orders[wo.id].status == wo.status
            && db'.orders[wo.id].plantId == plant
            && |db'.operations| == n + |ops| && db'.operations[..n] == db.operations
            && (forall i :: 0 <= i < |ops| ==>
                  db'.operations[n + i].orderId == wo.id && db'.operations[n + i].op == ops[i])
            && |db'.outbox| == |db.outbox| + 1 && db'.outbox[..|db.outbox|] == db.outbox
            && var row := db'.outbox[|db.outbox|];
               && row.destination == destination && !row.synced && row.entry.id == entryId
               && row.entry.aggregate == "work_order" && row.entry.entityId == wo.id && row.entry.op == "upsert"
               && row.entry.payload == WorkOrder(wo)
  {
    forall i | 0 <= i < |ops| ensures OpReferenced(db, ops[i]) <==>
                                      && (ops[i].routingOp.Some? ==> ops[i].routingOp.value in db.routingOps)
                                      && (ops[i].workCenter.Some? ==> ops[i].workCenter.value in db.workCenters) {
    }
  }

  // ---- The database, updated in place --------------------------------------

  class Store {
    var orders: map<Id, Order>
    var operations: seq<Operation>
    const parts: set<Id>
    const routings: set<Id>
    const routingOps: set<Id>
    const workCenters: set<Id>
    var applied: set<Id>
    var outbox: seq<OutboxRow>

    function View(): Db
      reads this
    {
      Db(orders, operations, parts, routings, routingOps, workCenters, applied, outbox)
    }

    constructor (parts: set<Id>, routings: set<Id>, routingOps: set<Id>, workCenters: set<Id>)
      ensures View() == Db(map[], [], parts, routings, routingOps, workCenters, {}, [])
    {
      this.parts, this.routings, this.routingOps, this.workCenters := parts, routings, routingOps, workCenters;
      orders, operations, applied, outbox := map[], [], {}, [];
    }

    method ApplyOne(e: SyncEntry, plant: Option<Id>) returns (r: Result<bool>)
      modifies this
      ensures match ApplyEntry(old(View()), e, plant)
              case Ok((db, newly)) => r == Ok(newly) && View() == db
              case Err(error) => r == Err(error) && View() == old(View())
    {
      var before := applied;
      applied := applied + {e.id};
      if e.id in before {
        return Ok(false);
      }
      if e.aggregate == "work_order" {
        match ApplyWorkOrder(View(), e.payload, plant) {
          case Ok(db) => orders := db.orders;
          case Err(error) =>
            applied := before; // the transaction rolls back, and with it the claim
            return Err(error);
        }
      }
      r := Ok(true);
    }

    /** Apply a batch entry by entry; an error stops it and keeps what was applied. */
    method ApplyBatch(entries: seq<SyncEntry>, plant: Option<Id>) returns (r: Result<(nat, nat)>)
      modifies this
      ensures var p := Deliver(old(View()), From(entries, plant));
              && View() == p.db
              && r == (if p.failed.Some? then Err(p.failed.value) else Ok((p.applied, p.skipped)))
    {
      hide ApplyEntry;
      ghost var db, ds := View(), From(entries, plant);
      var done, skipped := 0, 0;
      for i := 0 to |entries|
        invariant Deliver(db, ds[..i]) == Progress(View(), done, skipped, None)
      {
        assert ds[..i + 1][..i] == ds[..i];
        var newly := ApplyOne(entries[i], plant);
        if newly.Err? {
          FailureIsFinal(db, ds, i + 1);
          return Err(newly.error);
        }
        if newly.value {
          done := done + 1;
        } else {
          skipped := skipped + 1;
        }
      }
      assert ds[..|entries|] == ds;
      r := Ok((done, skipped));
    }

    /** Exactly the named rows become synced, in whatever direction they go; no row moves or
        changes otherwise, and none of the named ones is ever fetched or pulled again. */
    method Mark(ids: set<Id>)
      modifies this`outbox
      ensures |outbox| == |old(outbox)|
      ensures forall i :: 0 <= i < |outbox| ==>
                && outbox[i].entry == old(outbox[i].entry) && outbox[i].destination == old(outbox[i].destination)
                && (outbox[i].synced <==> old(outbox[i].synced) || old(outbox[i].entry.id) in ids)
      ensures forall limit, e :: e in FetchToCloud(View(), limit) ==> e.id !in ids
      ensures forall plant, limit, e :: e in PullForPlant(View(), plant, limit) ==> e.id !in ids
    {
      outbox := MarkSynced(outbox, ids);
      FetchedUnsynced(View(), ids);
    }

    /** Create an order with its operations, and queue it, in one transaction. */
    method CreateWorkOrder(wo: WoPayload, ops: seq<Op>, plant: Option<Id>, entryId: Id, destination: Option<Id>)
      returns (r: Result<Id>)
      modifies this
      ensures r.Ok? <==> old(Insertable(View(), wo, ops))
      ensures r.Ok? ==> r.value == wo.id && View() == WithOrder(old(View()), wo, ops, plant, entryId, destination)
      ensures r.Err? ==> View() == old(View())
    {
      if wo.id in orders || NumberTaken(View(), wo.id, wo.woNumber) {
        return Err(Conflict);
      }
      if !Referenced(View(), wo.partId, wo.routingId) {
        return Err(InvalidReference);
      }
      var rows := [];
      for i := 0 to |ops|
        invariant rows == OperationRows(wo.id, ops[..i]) && OpsOk(View(), ops[..i])
      {
        if exists j :: 0 <= j < i && ops[j].opNo == ops[i].opNo {
          return Err(Conflict);
        }
        if !OpReferenced(View(), ops[i]) {
          return Err(InvalidReference);
        }
        rows := rows + [Operation(wo.id, ops[i])];
        assert ops[..i + 1] == ops[..i] + [ops[i]];
      }
      assert ops[..|ops|] == ops;
      orders := orders[wo.id := OrderOf(wo, plant)];
      operations := operations + rows;
      outbox := outbox + [OutboxRow(EntryFor(entryId, wo), destination, false)];
      r := Ok(wo.id);
    }
  }

  lemma {:induction false} FailureIsFinal(db: Db, ds: seq<Delivery>, i: nat)
    requires i <= |ds| && Deliver(db, ds[..i]).failed.Some?
    ensures Deliver(db, ds) == Deliver(db, ds[..i])
    decreases |ds| - i
  {
    if i < |ds| {
      assert ds[..i + 1][..i] == ds[..i];
      FailureIsFinal(db, ds, i + 1);
    } else {
      assert ds[..i] == ds;
    }
  }
}
