/** Convergence of the edge and cloud tables, and exactly when an entry can still be claimed and
    an edge's outbox drained: when the cloud holds no other order with the number of that
    entry's order, or of one queued before it. */
module SyncDrain {
  import opened Prelude
  import opened SyncDb
  import opened SyncProtocol
  import opened SyncOrder

  // ---- Continuing a run ----------------------------------------------------

  ghost predicate Runnable(s: Sys, more: seq<Action>)
    decreases |more|
  {
    more == [] || (Enabled(s, more[0]) && Runnable(Next(s, more[0]), more[1..]))
  }

  ghost function After(s: Sys, more: seq<Action>): Sys
    requires Runnable(s, more)
    decreases |more|
  {
    if more == [] then s else After(Next(s, more[0]), more[1..])
  }

  lemma {:induction false} RunOn(s: Sys, a: seq<Action>, b: seq<Action>)
    requires Runnable(s, a) && Runnable(After(s, a), b)
    ensures Runnable(s, a + b) && After(s, a + b) == After(After(s, a), b)
    decreases |a|
  {
    hide Enabled, Next;
    if a == [] {
      assert a + b == b;
    } else {
      RunOn(Next(s, a[0]), a[1..], b);
      assert (a + b)[0] == a[0] && (a + b)[1..] == a[1..] + b;
    }
  }

  // ---- Order numbers at an edge --------------------------------------------

  ghost predicate NumbersUnique(orders: map<Id, Order>) {
    forall a, b :: a in orders && b in orders && orders[a].woNumber == orders[b].woNumber ==> a == b
  }

  /** Every order born at the edge is still in its table as created, up to its status. */
  ghost predicate Owned(p: Id, orders: map<Id, Order>, born: map<Id, Birth>) {
    forall id :: id in born && born[id].atEdge && born[id].plant == p ==>
      Received(orders, born[id])
  }

  ghost predicate Numbered(edges: map<Id, Db>, born: map<Id, Birth>) {
    forall p :: p in edges ==> NumbersUnique(edges[p].orders) && Owned(p, edges[p].orders, born)
  }

  lemma InsertUnique(db: Db, wo: WoPayload, plant: Option<Id>)
    requires NumbersUnique(db.orders) && wo.id !in db.orders && !NumberTaken(db, wo.id, wo.woNumber)
    ensures NumbersUnique(db.orders[wo.id := OrderOf(wo, plant)])
  {
  }

  lemma OwnedInsert(p: Id, orders: map<Id, Order>, born: map<Id, Birth>, wo: WoPayload, plant: Option<Id>)
    requires Owned(p, orders, born) && wo.id !in orders
    ensures Owned(p, orders[wo.id := OrderOf(wo, plant)], born)
  {
  }

  lemma OwnedBirth(p: Id, orders: map<Id, Order>, born: map<Id, Birth>, id: Id, b: Birth)
    requires Owned(p, orders, born)
    requires b.atEdge && b.plant == p ==> Received(orders, b)
    ensures Owned(p, orders, born[id := b])
  {
  }

  lemma EdgeCreateNumbered(s: Sys, p: Id, input: WorkOrderInput, woId: Id, entryId: Id)
    requires Inv(s) && Numbered(s.edges, s.born) && Enabled(s, EdgeCreate(p, input, woId, entryId))
    ensures var s' := Next(s, EdgeCreate(p, input, woId, entryId)); Numbered(s'.edges, s'.born)
  {
    hide Inv, NumbersUnique, Owned, NumberTaken, Referenced, OpsOk, OperationRows;
    var wo, db := Draft(woId, input), s.edges[p];
    if Insertable(db, wo, input.ops) {
      InsertUnique(db, wo, None);
      OwnedInsert(p, db.orders, s.born, wo, None);
      var b := Birth(p, wo, true);
      OwnedBirth(p, db.orders[woId := OrderOf(wo, None)], s.born, entryId, b);
      forall q | q in s.edges && q != p ensures Owned(q, s.edges[q].orders, s.born[entryId := b]) {
        OwnedBirth(q, s.edges[q].orders, s.born, entryId, b);
      }
    }
  }

  lemma CloudCreateNumbered(s: Sys, p: Id, input: WorkOrderInput, woId: Id, entryId: Id)
    requires Numbered(s.edges, s.born) && Enabled(s, CloudCreate(p, input, woId, entryId))
    ensures var s' := Next(s, CloudCreate(p, input, woId, entryId)); Numbered(s'.edges, s'.born)
  {
    hide NumbersUnique, Owned, Insertable, WithOrder;
    var wo := Draft(woId, input.(routingId := None, plannedStart := None, plannedEnd := None));
    forall q | q in s.edges ensures Owned(q, s.edges[q].orders, s.born[entryId := Birth(p, wo, false)]) {
      OwnedBirth(q, s.edges[q].orders, s.born, entryId, Birth(p, wo, false));
    }
  }

  lemma CommandFacts(s: Sys, m: Msg, i: nat)
    requires Inv(s) && Enabled(s, EdgeApply(m, i))
    ensures var e, db := m.entries[i], s.edges[m.plant];
            && e.id in s.born && e == EntryFor(e.id, s.born[e.id].wo)
            && (e.id !in db.applied ==> s.born[e.id].wo.id !in db.orders)
  {
    hide BirthsOk, CloudOk, CloudOutboxOk, EdgeOutboxOk, HandlerOk, Received;
    assert MsgOk(m, s.born, s.cloud.applied, s.edges) && m.entries[i] in m.entries;
    assert EdgeOk(m.plant, s.edges[m.plant].orders, s.edges[m.plant].applied, s.born, s.used);
  }

  lemma EdgeApplyNumbered(s: Sys, m: Msg, i: nat)
    requires Inv(s) && Numbered(s.edges, s.born) && Enabled(s, EdgeApply(m, i))
    ensures var s' := Next(s, EdgeApply(m, i)); Numbered(s'.edges, s'.born)
  {
    hide Inv, NumbersUnique, Owned, NumberTaken, Referenced, ApplyEntry, EntryFor;
    CommandFacts(s, m, i);
    var e, db := m.entries[i], s.edges[m.plant];
    var wo := s.born[e.id].wo;
    if ApplyEntry(db, e, None).Ok? {
      FirstApplyInserts(db, e, wo, None);
      if e.id !in db.applied {
        FirstApplyIff(db, e, wo, None);
        InsertUnique(db, wo, None);
        OwnedInsert(m.plant, db.orders, s.born, wo, None);
      }
    }
  }

  lemma StatusNumbered(s: Sys, p: Id, order: Id, status: string)
    requires Numbered(s.edges, s.born) && Enabled(s, EdgeSetStatus(p, order, status))
    ensures var s' := Next(s, EdgeSetStatus(p, order, status)); Numbered(s'.edges, s'.born)
  {
    var orders := s.edges[p].orders;
    var orders' := orders[order := orders[order].(status := status)];
    assert NumbersUnique(orders') && Owned(p, orders', s.born);
    hide NumbersUnique, Owned;
  }

  lemma NumberedKept(s: Sys, a: Action)
    requires Inv(s) && Numbered(s.edges, s.born) && Enabled(s, a)
    ensures Numbered(Next(s, a).edges, Next(s, a).born)
  {
    hide Inv, Numbered;
    match a
    case EdgeCreate(p, input, woId, entryId) => EdgeCreateNumbered(s, p, input, woId, entryId);
    case CloudCreate(p, input, woId, entryId) => CloudCreateNumbered(s, p, input, woId, entryId);
    case EdgeApply(m, i) => EdgeApplyNumbered(s, m, i);
    case EdgeSetStatus(p, order, status) => StatusNumbered(s, p, order, status);
    case _ => SameOrders(s, a);
  }

  lemma SameOrders(s: Sys, a: Action)
    requires Numbered(s.edges, s.born) && Enabled(s, a)
    requires !a.EdgeCreate? && !a.CloudCreate? && !a.EdgeApply? && !a.EdgeSetStatus?
    ensures Numbered(Next(s, a).edges, Next(s, a).born)
  {
    hide NumbersUnique, Owned, ApplyEntry, Applied, FetchToCloud, PullForPlant, MarkSynced;
  }

  /** Order numbers are unique at every edge, in every state of every run. */
  lemma {:induction false} RunNumbered(trace: seq<Sys>, actions: seq<Action>, k: nat)
    requires IsRun(trace, actions) && k < |trace|
    ensures Inv(trace[k]) && Numbered(trace[k].edges, trace[k].born)
  {
    hide Inv, Next, Enabled, Initial, Numbered;
    RunInv(trace, actions, k);
    if k == 0 {
      InitialNumbered(trace[0]);
    } else {
      RunNumbered(trace, actions, k - 1);
      NumberedKept(trace[k - 1], actions[k - 1]);
    }
  }

  lemma InitialNumbered(s: Sys)
    requires Initial(s)
    ensures Numbered(s.edges, s.born)
  {
  }

  /** Once an edge's outbox is drained the two tables agree on every order it created: the
      cloud's row is the edge's own row, tagged, and with the status it was created with. */
  lemma TablesConverge(trace: seq<Sys>, actions: seq<Action>, k: nat, p: Id, id: Id)
    requires IsRun(trace, actions) && k < |trace| && p in trace[k].edges && Drained(trace[k], p)
    requires id in trace[k].born && trace[k].born[id].atEdge && trace[k].born[id].plant == p
    ensures var s, wo := trace[k], trace[k].born[id].wo;
            && wo.id in s.cloud.orders && wo.id in s.edges[p].orders
            && s.cloud.orders[wo.id] == s.edges[p].orders[wo.id].(status := wo.status, plantId := Some(p))
  {
    hide Inv, Next, Enabled, Initial, IsRun;
    RunNumbered(trace, actions, k);
    DrainedMeansConverged(trace, actions, k, p, id);
    assert Received(trace[k].edges[p].orders, trace[k].born[id]);
  }

  // ---- A clash is for ever -------------------------------------------------

  /** The cloud has not claimed the entry, and holds another order under its number. */
  ghost predicate Clashing(cloud: Db, e: SyncEntry) {
    e.id !in cloud.applied && e.payload.WorkOrder? && NumberTaken(cloud, e.payload.wo.id, e.payload.wo.woNumber)
  }

  /** At or before position `j` of plant `p`'s outbox is an order whose number is taken at the cloud. */
  ghost predicate Blocked(s: Sys, p: Id, j: int)
    requires p in s.edges
  {
    exists i :: 0 <= i <= j && i < |s.edges[p].outbox| && Clashing(s.cloud, s.edges[p].outbox[i].entry)
  }

  ghost predicate ClashOf(s: Sys, p: Id, id: Id, other: Id) {
    && id in s.born && s.born[id].atEdge && s.born[id].plant == p && id !in s.cloud.applied
    && other in s.cloud.orders && other != s.born[id].wo.id && s.cloud.orders[other].woNumber == s.born[id].wo.woNumber
  }

  lemma ClashStays(s: Sys, a: Action, p: Id, id: Id, other: Id)
    requires Inv(s) && Enabled(s, a) && ClashOf(s, p, id, other)
    ensures Inv(Next(s, a)) && ClashOf(Next(s, a), p, id, other)
  {
    hide Inv, Enabled, Next;
    StepKeepsInv(s, a);
    ClashKept(s, a, id, other);
    BirthKept(s, a, id);
    CloudOrderKept(s, a, other);
  }

  lemma {:induction false} ClashForever(s: Sys, more: seq<Action>, p: Id, id: Id, other: Id)
    requires Inv(s) && Runnable(s, more) && ClashOf(s, p, id, other)
    ensures Inv(After(s, more)) && ClashOf(After(s, more), p, id, other)
    decreases |more|
  {
    hide Inv, Enabled, Next, ClashOf;
    if more != [] {
      ClashStays(s, more[0], p, id, other);
      ClashForever(Next(s, more[0]), more[1..], p, id, other);
    }
  }

  lemma ClashedNotDrained(s: Sys, p: Id, id: Id, other: Id)
    requires Inv(s) && ClashOf(s, p, id, other) && p in s.edges
    ensures !Drained(s, p)
  {
    hide BirthsOk, CloudOk, CloudOutboxOk, FlightOk, EdgeOk;
    assert Queued(s.edges[p].outbox, id);
    var r :| r in s.edges[p].outbox && r.entry.id == id;
    assert QueuedOk(p, r, s.born, s.cloud.applied);
  }

  /** The entry that clashes is never claimed. */
  lemma ClashNeverClaimed(s: Sys, p: Id, r: OutboxRow, more: seq<Action>)
    requires Inv(s) && p in s.edges && r in s.edges[p].outbox && Clashing(s.cloud, r.entry) && Runnable(s, more)
    ensures r.entry.id !in After(s, more).cloud.applied
    ensures p in After(s, more).edges ==> !Drained(After(s, more), p)
  {
    QueuedFacts(s, p, r);
    hide Inv, Next, Enabled, Drained;
    var wo := r.entry.payload.wo;
    var other :| other in s.cloud.orders && other != wo.id && s.cloud.orders[other].woNumber == wo.woNumber;
    ClashForever(s, more, p, r.entry.id, other);
    if p in After(s, more).edges {
      ClashedNotDrained(After(s, more), p, r.entry.id, other);
    }
  }

  lemma QueuedFacts(s: Sys, p: Id, r: OutboxRow)
    requires Inv(s) && p in s.edges && r in s.edges[p].outbox
    ensures r.destination.None? && EdgeBorn(s.born, p, r.entry)
    ensures r.entry.id !in s.cloud.applied ==> s.born[r.entry.id].wo.id !in s.cloud.orders
  {
    hide BirthsOk, CloudOutboxOk, FlightOk, EdgeOk, CloudOk;
    assert QueuedOk(p, r, s.born, s.cloud.applied);
    NotYetThere(s.cloud.orders, s.cloud.applied, s.born, s.used, r.entry.id);
  }

  // ---- Without a clash, one entry at a time --------------------------------

  /** How many entries are still to be sent. */
  function Unsent(outbox: seq<OutboxRow>): nat {
    if outbox == [] then 0 else Unsent(outbox[..|outbox| - 1]) + (if outbox[|outbox| - 1].synced then 0 else 1)
  }

  lemma {:induction false} MarkSends(outbox: seq<OutboxRow>, ids: set<Id>, i: int)
    requires -1 <= i < |outbox|
    ensures Unsent(MarkSynced(outbox, ids)) <= Unsent(outbox)
    ensures 0 <= i && !outbox[i].synced && outbox[i].entry.id in ids ==>
            Unsent(MarkSynced(outbox, ids)) < Unsent(outbox)
  {
    if outbox != [] {
      var init := outbox[..|outbox| - 1];
      MarkSends(init, ids, if i < |init| then i else -1);
      assert MarkSynced(outbox, ids)[..|init|] == MarkSynced(init, ids);
    }
  }

  lemma FirstUnsent(outbox: seq<OutboxRow>, k: nat) returns (i: nat)
    requires k < |outbox| && !outbox[k].synced
    ensures i <= k && !outbox[i].synced && forall j :: 0 <= j < i ==> outbox[j].synced
  {
    i := 0;
    while outbox[i].synced
      invariant i <= k && forall j :: 0 <= j < i ==> outbox[j].synced
      decreases k - i
    {
      i := i + 1;
    }
  }

  /** The oldest unsynced entry is the one fetched. */
  lemma FetchOne(s: Sys, p: Id, i: nat)
    requires Inv(s) && p in s.edges && i < |s.edges[p].outbox| && !s.edges[p].outbox[i].synced
    requires forall j :: 0 <= j < i ==> s.edges[p].outbox[j].synced
    ensures FetchToCloud(s.edges[p], 1) == [s.edges[p].outbox[i].entry]
  {
    var db := s.edges[p];
    QueuedFacts(s, p, db.outbox[i]);
    hide Inv;
    FetchOldest(db, i);
  }

  lemma FetchOldest(db: Db, i: nat)
    requires i < |db.outbox| && !db.outbox[i].synced && db.outbox[i].destination.None?
    requires forall j :: 0 <= j < i ==> db.outbox[j].synced
    ensures FetchToCloud(db, 1) == [db.outbox[i].entry]
  {
    var wanted := (r: OutboxRow) => r.destination.None? && !r.synced;
    var chosen := Select(db.outbox, wanted);
    assert db.outbox[i] in chosen;
    var k := SelectedAt(db.outbox, wanted, 0);
    assert chosen[0] in chosen && wanted(chosen[0]);
    assert k == i;
    assert Limit(chosen, 1) == [chosen[0]];
  }

  /** What the cloud must know to insert the order. */
  function WithParts(cloud: Db, wo: WoPayload): Db {
    cloud.(parts := cloud.parts + {wo.partId},
           routings := if wo.routingId.Some? then cloud.routings + {wo.routingId.value} else cloud.routings)
  }

  /** The protocol's steps for one entry, after provisioning its master data. */
  function Protocol(s: Sys, p: Id, e: SyncEntry): seq<Action>
    requires e.payload.WorkOrder?
  {
    var cloud := WithParts(s.cloud, e.payload.wo);
    [Provision(None, cloud.parts, cloud.routings), EdgePush(p, 1), CloudAccept(Push(p, [e])),
     CloudApply(Handler(p, [e], 0)), CloudReply(Handler(p, [e], 1)), EdgeMark(PushOk(p, {e.id}))]
  }

  /** What one undisturbed exchange of entry `e` does. */
  ghost predicate Exchanged(s: Sys, p: Id, e: SyncEntry, s': Sys)
    requires p in s.edges && e.payload.WorkOrder?
  {
    var wo := e.payload.wo;
    && s'.born == s.born
    && s'.edges == s.edges[p := s.edges[p].(outbox := MarkSynced(s.edges[p].outbox, {e.id}))]
    && s'.cloud.applied == s.cloud.applied + {e.id}
    && s'.cloud.orders == if e.id in s.cloud.applied then s.cloud.orders
         else s.cloud.orders[wo.id := OrderOf(wo, Some(p))]
  }

  lemma AcceptsEntry(s: Sys, p: Id, e: SyncEntry)
    requires e.payload.WorkOrder? && e == EntryFor(e.id, e.payload.wo) && !Clashing(s.cloud, e)
    requires e.id !in s.cloud.applied ==> e.payload.wo.id !in s.cloud.orders
    ensures var cloud := WithParts(s.cloud, e.payload.wo);
            && ApplyEntry(cloud, e, Some(p)).Ok?
            && Applied(cloud, e, Some(p)).applied == s.cloud.applied + {e.id}
            && Applied(cloud, e, Some(p)).orders ==
               if e.id in s.cloud.applied then s.cloud.orders
               else s.cloud.orders[e.payload.wo.id := OrderOf(e.payload.wo, Some(p))]
  {
    var cloud, wo := WithParts(s.cloud, e.payload.wo), e.payload.wo;
    assert NumberTaken(cloud, wo.id, wo.woNumber) <==> NumberTaken(s.cloud, wo.id, wo.woNumber);
    hide NumberTaken, ApplyEntry;
    if e.id !in cloud.applied {
      FirstApplyIff(cloud, e, wo, Some(p));
    } else {
      Replay(cloud, e, Some(p));
    }
    FirstApplyInserts(cloud, e, wo, Some(p));
  }

  lemma Replay(db: Db, e: SyncEntry, plant: Option<Id>)
    requires e.id in db.applied
    ensures ApplyEntry(db, e, plant) == Ok((db, false))
  {
  }

  /** The entry travels to the cloud. */
  lemma SendSteps(s: Sys, p: Id, e: SyncEntry)
    requires p in s.edges && FetchToCloud(s.edges[p], 1) == [e]
    ensures var sent := s.(net := s.net + {Push(p, [e])});
            && Enabled(s, EdgePush(p, 1)) && Next(s, EdgePush(p, 1)) == sent
            && Enabled(sent, CloudAccept(Push(p, [e])))
            && Next(sent, CloudAccept(Push(p, [e]))) == sent.(handlers := sent.handlers + {Handler(p, [e], 0)})
  {
    hide FetchToCloud;
  }

  lemma ApplyStep(s: Sys, h: Handler, e: SyncEntry)
    requires h in s.handlers && h.entries == [e] && h.pos == 0 && ApplyEntry(s.cloud, e, Some(h.plant)).Ok?
    ensures Enabled(s, CloudApply(h))
    ensures Next(s, CloudApply(h)) ==
            s.(cloud := Applied(s.cloud, e, Some(h.plant)), handlers := s.handlers + {h.(pos := 1)})
  {
    hide ApplyEntry, Applied;
  }

  /** The confirmation travels back. */
  lemma ReplySteps(s: Sys, p: Id, e: SyncEntry)
    requires p in s.edges && Handler(p, [e], 1) in s.handlers
    ensures var back := s.(net := s.net + {PushOk(p, {e.id})});
            && Enabled(s, CloudReply(Handler(p, [e], 1))) && Next(s, CloudReply(Handler(p, [e], 1))) == back
            && Enabled(back, EdgeMark(PushOk(p, {e.id})))
            && Next(back, EdgeMark(PushOk(p, {e.id}))) ==
               back.(edges := s.edges[p := s.edges[p].(outbox := MarkSynced(s.edges[p].outbox, {e.id}))])
  {
    hide MarkSynced;
    assert IdsOf([e]) == {e.id};
  }

  lemma Exchange(s: Sys, p: Id, e: SyncEntry) returns (s': Sys)
    requires p in s.edges && FetchToCloud(s.edges[p], 1) == [e]
    requires e.payload.WorkOrder? && e == EntryFor(e.id, e.payload.wo) && !Clashing(s.cloud, e)
    requires e.id !in s.cloud.applied ==> e.payload.wo.id !in s.cloud.orders
    ensures Runnable(s, Protocol(s, p, e)) && After(s, Protocol(s, p, e)) == s' && Exchanged(s, p, e, s')
  {
    hide FetchToCloud, MarkSynced, ApplyEntry, Applied, EntryFor, Clashing, OrderOf, Runnable, After, Next, Enabled;
    var cloud := WithParts(s.cloud, e.payload.wo);
    AcceptsEntry(s, p, e);
    var s1 := s.(cloud := cloud);
    var s2 := s1.(net := s1.net + {Push(p, [e])});
    var s3 := s2.(handlers := s2.handlers + {Handler(p, [e], 0)});
    var s4 := s3.(cloud := Applied(cloud, e, Some(p)), handlers := s3.handlers + {Handler(p, [e], 1)});
    var s5 := s4.(net := s4.net + {PushOk(p, {e.id})});
    s' := s5.(edges := s.edges[p := s.edges[p].(outbox := MarkSynced(s.edges[p].outbox, {e.id}))]);
    ProvisionStep(s, cloud);
    SendSteps(s1, p, e);
    ApplyStep(s3, Handler(p, [e], 0), e);
    ReplySteps(s4, p, e);
    Follows([s, s1, s2, s3, s4, s5, s'], Protocol(s, p, e));
  }

  /** Step by step is the same as all at once. */
  lemma {:induction false} Follows(states: seq<Sys>, more: seq<Action>)
    requires |states| == |more| + 1
    requires forall i :: 0 <= i < |more| ==> Enabled(states[i], more[i]) && Next(states[i], more[i]) == states[i + 1]
    ensures Runnable(states[0], more) && After(states[0], more) == states[|more|]
  {
    hide Enabled, Next;
    if more != [] {
      Follows(states[1..], more[1..]);
    }
  }

  lemma ProvisionStep(s: Sys, cloud: Db)
    requires cloud == s.cloud.(parts := cloud.parts, routings := cloud.routings)
    ensures var a := Provision(None, cloud.parts, cloud.routings);
            Enabled(s, a) && Next(s, a) == s.(cloud := cloud)
  {
  }

  // ---- The whole outbox ----------------------------------------------------

  lemma StillFree(s: Sys, p: Id, e: SyncEntry, s': Sys, j: int)
    requires Inv(s) && Numbered(s.edges, s.born) && p in s.edges
    requires !Blocked(s, p, j) && EdgeBorn(s.born, p, e) && Exchanged(s, p, e, s')
    ensures !Blocked(s', p, j)
  {
    hide Inv, Numbered, Clashing;
    var before, after := s.edges[p].outbox, s'.edges[p].outbox;
    forall i | 0 <= i <= j && i < |after| ensures !Clashing(s'.cloud, after[i].entry) {
      assert after[i].entry == before[i].entry && before[i] in before;
      QueuedFacts(s, p, before[i]);
      StillFreeOne(s, p, e, before[i].entry, s');
    }
  }

  lemma StillFreeOne(s: Sys, p: Id, e: SyncEntry, x: SyncEntry, s': Sys)
    requires Numbered(s.edges, s.born) && p in s.edges && EdgeBorn(s.born, p, e) && EdgeBorn(s.born, p, x)
    requires !Clashing(s.cloud, x) && Exchanged(s, p, e, s')
    ensures !Clashing(s'.cloud, x)
  {
    hide MarkSynced;
    assert Owned(p, s.edges[p].orders, s.born) && NumbersUnique(s.edges[p].orders);
  }

  /** The outbox's entries are unchanged, and those up to position `j` are synced. */
  ghost predicate SentUpTo(before: seq<OutboxRow>, after: seq<OutboxRow>, j: int) {
    && |after| == |before| && (forall i :: 0 <= i < |after| ==> after[i].entry == before[i].entry)
    && forall i :: 0 <= i <= j && i < |after| ==> after[i].synced
  }

  /** Where nothing up to position `j` is blocked, the protocol sends those entries one by one. */
  lemma {:induction false} SendUpTo(s: Sys, p: Id, j: int) returns (more: seq<Action>)
    requires Inv(s) && Numbered(s.edges, s.born) && p in s.edges && !Blocked(s, p, j)
    ensures Runnable(s, more) && p in After(s, more).edges
    ensures SentUpTo(s.edges[p].outbox, After(s, more).edges[p].outbox, j)
    decreases Unsent(s.edges[p].outbox)
  {
    hide Inv, Numbered, Enabled, Next;
    var outbox := s.edges[p].outbox;
    if k :| 0 <= k <= j && k < |outbox| && !outbox[k].synced {
      var i := FirstUnsent(outbox, k);
      var first, s' := SendOne(s, p, i, j);
      var rest := SendUpTo(s', p, j);
      RunOn(s, first, rest);
      more := first + rest;
    } else {
      more := [];
    }
  }

  /** One exchange, of the oldest unsynced entry. */
  lemma SendOne(s: Sys, p: Id, i: nat, j: int) returns (first: seq<Action>, s': Sys)
    requires Inv(s) && Numbered(s.edges, s.born) && p in s.edges && !Blocked(s, p, j)
    requires i <= j && i < |s.edges[p].outbox| && !s.edges[p].outbox[i].synced
    requires forall k :: 0 <= k < i ==> s.edges[p].outbox[k].synced
    ensures Runnable(s, first) && After(s, first) == s' && p in s'.edges
    ensures Inv(s') && Numbered(s'.edges, s'.born) && !Blocked(s', p, j)
    ensures Unsent(s'.edges[p].outbox) < Unsent(s.edges[p].outbox)
    ensures |s'.edges[p].outbox| == |s.edges[p].outbox|
    ensures forall k :: 0 <= k < |s.edges[p].outbox| ==> s'.edges[p].outbox[k].entry == s.edges[p].outbox[k].entry
  {
    hide Inv, Numbered, Enabled, Next, Unsent, Runnable, After, Clashing;
    var outbox := s.edges[p].outbox;
    var e := outbox[i].entry;
    FetchOne(s, p, i);
    QueuedFacts(s, p, outbox[i]);
    assert !Clashing(s.cloud, e);
    s' := Exchange(s, p, e);
    first := Protocol(s, p, e);
    RunnableKeeps(s, first);
    StillFree(s, p, e, s', j);
    MarkSends(outbox, {e.id}, i);
  }

  lemma {:induction false} RunnableKeeps(s: Sys, more: seq<Action>)
    requires Inv(s) && Numbered(s.edges, s.born) && Runnable(s, more)
    ensures Inv(After(s, more)) && Numbered(After(s, more).edges, After(s, more).born)
    decreases |more|
  {
    hide Inv, Numbered, Enabled, Next;
    if more != [] {
      StepKeepsInv(s, more[0]);
      NumberedKept(s, more[0]);
      RunnableKeeps(Next(s, more[0]), more[1..]);
    }
  }

  /** Some continuation of the run from `s` drains plant `p`. */
  ghost predicate CanDrain(s: Sys, p: Id) {
    exists more :: Runnable(s, more) && p in After(s, more).edges && Drained(After(s, more), p)
  }

  /** In any state of any run, an edge can be drained exactly when none of its unclaimed
      entries carries the number of another order in the cloud's table. */
  lemma DrainableIff(trace: seq<Sys>, actions: seq<Action>, k: nat, p: Id)
    requires IsRun(trace, actions) && k < |trace| && p in trace[k].edges
    ensures CanDrain(trace[k], p) <==> !Blocked(trace[k], p, |trace[k].edges[p].outbox| - 1)
  {
    hide Inv, Numbered, Enabled, Next, Clashing;
    var s := trace[k];
    var n := |s.edges[p].outbox|;
    RunNumbered(trace, actions, k);
    hide IsRun;
    if Blocked(s, p, n - 1) {
      var i :| 0 <= i <= n - 1 && Clashing(s.cloud, s.edges[p].outbox[i].entry);
      if more :| Runnable(s, more) && p in After(s, more).edges && Drained(After(s, more), p) {
        ClashNeverClaimed(s, p, s.edges[p].outbox[i], more);
      }
    } else {
      var more := SendUpTo(s, p, n - 1);
      AllSynced(s.edges[p].outbox, After(s, more).edges[p].outbox);
    }
  }

  lemma AllSynced(before: seq<OutboxRow>, after: seq<OutboxRow>)
    requires SentUpTo(before, after, |before| - 1)
    ensures forall r :: r in after ==> r.synced
  {
  }

  // ---- One entry -----------------------------------------------------------

  lemma QueueGrows(s: Sys, a: Action, p: Id)
    requires Enabled(s, a) && p in s.edges
    ensures p in Next(s, a).edges && Queue(s.edges[p].outbox) <= Queue(Next(s, a).edges[p].outbox)
  {
    hide ApplyEntry, Insertable, FetchToCloud, PullForPlant, OrderOf, OperationRows, EntryFor, IdsOf;
    match a
    case EdgeApply(m, i) => ApplyClaims(s.edges[m.plant], m.entries[i], None);
    case EdgeCreate(q, input, woId, entryId) =>
    case EdgeMark(ok) =>
    case _ =>
  }

  lemma {:induction false} QueueGrowsOn(s: Sys, more: seq<Action>, p: Id)
    requires Inv(s) && OrderInv(s) && Runnable(s, more) && p in s.edges
    ensures Inv(After(s, more)) && OrderInv(After(s, more)) && p in After(s, more).edges
    ensures Queue(s.edges[p].outbox) <= Queue(After(s, more).edges[p].outbox)
    decreases |more|
  {
    hide Inv, OrderInv, Enabled, Next, Queue;
    if more != [] {
      StepKeepsInv(s, more[0]);
      StepKeepsOrder(s, more[0]);
      QueueGrows(s, more[0], p);
      QueueGrowsOn(Next(s, more[0]), more[1..], p);
    }
  }

  /** Some continuation of the run from `s` makes the cloud claim entry `id`. */
  ghost predicate CanClaim(s: Sys, id: Id) {
    exists more :: Runnable(s, more) && id in After(s, more).cloud.applied
  }

  lemma BlockedNeverClaimed(s: Sys, p: Id, j: int, more: seq<Action>)
    requires Inv(s) && OrderInv(s) && p in s.edges && 0 <= j < |s.edges[p].outbox| && Blocked(s, p, j)
    requires Runnable(s, more)
    ensures s.edges[p].outbox[j].entry.id !in After(s, more).cloud.applied
  {
    hide Inv, OrderInv, Enabled, Next, Clashing;
    var outbox := s.edges[p].outbox;
    var i :| 0 <= i <= j && Clashing(s.cloud, outbox[i].entry);
    ClashNeverClaimed(s, p, outbox[i], more);
    QueueGrowsOn(s, more, p);
    var s' := After(s, more);
    QueueFacts(s', p);
    var q, q' := Queue(outbox), Queue(s'.edges[p].outbox);
    assert q'[i] == q[i] && q'[j] == q[j];
  }

  /** In any state of any run, the entry at position `j` of an edge's outbox is claimed already
      or can still be claimed exactly when neither its order nor any queued before it has a
      number the cloud holds for another order: one clash starves all that follow. */
  lemma ClaimableIff(trace: seq<Sys>, actions: seq<Action>, k: nat, p: Id, j: int)
    requires IsRun(trace, actions) && k < |trace| && p in trace[k].edges && 0 <= j < |trace[k].edges[p].outbox|
    ensures CanClaim(trace[k], trace[k].edges[p].outbox[j].entry.id) <==> !Blocked(trace[k], p, j)
  {
    hide Inv, OrderInv, Numbered, Enabled, Next, Blocked;
    var s := trace[k];
    RunNumbered(trace, actions, k);
    RunOrdered(trace, actions, k);
    hide IsRun;
    var id := s.edges[p].outbox[j].entry.id;
    if Blocked(s, p, j) {
      if more :| Runnable(s, more) && id in After(s, more).cloud.applied {
        BlockedNeverClaimed(s, p, j, more);
      }
    } else {
      var more := SendUpTo(s, p, j);
      RunnableKeeps(s, more);
      SyncedClaimed(After(s, more), p, j);
    }
  }

  lemma SyncedClaimed(s: Sys, p: Id, j: int)
    requires Inv(s) && p in s.edges && 0 <= j < |s.edges[p].outbox| && s.edges[p].outbox[j].synced
    ensures s.edges[p].outbox[j].entry.id in s.cloud.applied
  {
    hide BirthsOk, CloudOk, CloudOutboxOk, FlightOk, EdgeOk;
    assert s.edges[p].outbox[j] in s.edges[p].outbox;
    assert QueuedOk(p, s.edges[p].outbox[j], s.born, s.cloud.applied);
  }

  // ---- Two plants, one number ----------------------------------------------

  lemma {:induction false} ExtendRun(trace: seq<Sys>, actions: seq<Action>, more: seq<Action>)
    returns (trace': seq<Sys>, actions': seq<Action>)
    requires IsRun(trace, actions) && Runnable(trace[|actions|], more)
    ensures IsRun(trace', actions') && trace'[|actions'|] == After(trace[|actions|], more)
    decreases |more|
  {
    hide Enabled, Next, Initial;
    if more == [] {
      trace', actions' := trace, actions;
    } else {
      var s := Next(trace[|actions|], more[0]);
      trace', actions' := ExtendRun(trace + [s], actions + [more[0]], more[1..]);
    }
  }

  /** An edge as installed: one part, nothing else. */
  const FRESH := Db(map[], [], {"part"}, {}, {}, {}, {}, [])

  const ORDER := WorkOrderInput("WO-1", "part", None, 1.0, None, None, None, [])

  function Created(entryId: Id, woId: Id): Db {
    WithOrder(FRESH, Draft(woId, ORDER), [], None, entryId, None)
  }

  /** Two plants have each created an order numbered WO-1. */
  ghost function TwoOrders(): Sys {
    Sys(FRESH, map["a" := Created("e1", "w1"), "b" := Created("e2", "w2")], {}, {},
        map["e1" := Birth("a", Draft("w1", ORDER), true), "e2" := Birth("b", Draft("w2", ORDER), true)],
        {"w1", "e1", "w2", "e2"})
  }

  lemma CreateStep(s: Sys, p: Id, woId: Id, entryId: Id)
    requires p in s.edges && s.edges[p] == FRESH && woId !in s.used && entryId !in s.used && woId != entryId
    ensures var a := EdgeCreate(p, ORDER, woId, entryId);
            && Enabled(s, a)
            && Next(s, a) == s.(edges := s.edges[p := Created(entryId, woId)],
                                born := s.born[entryId := Birth(p, Draft(woId, ORDER), true)],
                                used := s.used + {woId, entryId})
  {
    hide OperationRows;
    assert Insertable(FRESH, Draft(woId, ORDER), []);
  }

  lemma TwoOrdersReached() returns (trace: seq<Sys>, actions: seq<Action>)
    ensures IsRun(trace, actions) && trace[|actions|] == TwoOrders()
  {
    var s0 := Sys(FRESH, map["a" := FRESH, "b" := FRESH], {}, {}, map[], {});
    assert Initial(s0);
    hide Initial, Enabled, Next, Created, Draft, ORDER, FRESH;
    var a1, a2 := EdgeCreate("a", ORDER, "w1", "e1"), EdgeCreate("b", ORDER, "w2", "e2");
    CreateStep(s0, "a", "w1", "e1");
    var s1 := Next(s0, a1);
    CreateStep(s1, "b", "w2", "e2");
    var s2 := Next(s1, a2);
    assert s2.edges == TwoOrders().edges && s2.born == TwoOrders().born && s2.used == TwoOrders().used;
    trace, actions := [s0, s1, s2], [a1, a2];
  }

  /** Not every edge can drain: once plant "a" has sent its order WO-1, plant "b", which
      numbered an order the same, is blocked. */
  lemma BlockedIsReachable() returns (trace: seq<Sys>, actions: seq<Action>)
    ensures IsRun(trace, actions) && "b" in trace[|actions|].edges && Blocked(trace[|actions|], "b", 0)
  {
    var s, e := TwoOrders(), EntryFor("e1", Draft("w1", ORDER));
    assert s.edges["a"].outbox == [OutboxRow(e, None, false)];
    FetchSingle(s.edges["a"], e);
    var s' := Exchange(s, "a", e);
    SecondBlocked(s');
    hide Enabled, Next, Blocked, Initial;
    trace, actions := TwoOrdersReached();
    trace, actions := ExtendRun(trace, actions, Protocol(s, "a", e));
  }

  lemma FetchSingle(db: Db, e: SyncEntry)
    requires db.outbox == [OutboxRow(e, None, false)]
    ensures FetchToCloud(db, 1) == [e]
  {
    var row := OutboxRow(e, None, false);
    SelectAll([row], (r: OutboxRow) => r.destination.None? && !r.synced);
  }

  lemma SecondBlocked(s': Sys)
    requires Exchanged(TwoOrders(), "a", EntryFor("e1", Draft("w1", ORDER)), s')
    ensures "b" in s'.edges && Blocked(s', "b", 0)
  {
    var entry := EntryFor("e2", Draft("w2", ORDER));
    assert s'.edges["b"].outbox == [OutboxRow(entry, None, false)];
    assert "w1" in s'.cloud.orders && NumberTaken(s'.cloud, "w2", "WO-1");
    assert s'.edges["b"].outbox[0].entry == entry && Clashing(s'.cloud, entry);
  }
}
