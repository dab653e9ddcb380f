/** The sync protocol as a step system: one cloud, any number of edges, and a network that
    loses, duplicates and reorders messages.

    Messages and request handlers are never removed, so any of them may act again at any
    later time (duplication, reordering) or never act at all (loss, crash).  A plant's
    messages carry its own id: plant authentication is taken as given. */
module SyncProtocol {
  import opened Prelude
  import opened SyncDb

  const MAX_BATCH := 500

  datatype Msg =
    | Push(plant: Id, entries: seq<SyncEntry>)
    | PushOk(plant: Id, ids: set<Id>)
    | Commands(plant: Id, entries: seq<SyncEntry>)
    | Ack(plant: Id, ids: set<Id>)

  /** A push being applied by the cloud: the first `pos` entries are done. */
  datatype Handler = Handler(plant: Id, entries: seq<SyncEntry>, pos: nat)

  /** Where an outbox entry was written, and the order it describes. */
  datatype Birth = Birth(plant: Id, wo: WoPayload, atEdge: bool)

  /** `born` remembers every outbox entry ever written; `used` every id ever generated. */
  datatype Sys = Sys(cloud: Db, edges: map<Id, Db>, net: set<Msg>, handlers: set<Handler>,
                     born: map<Id, Birth>, used: set<Id>)

  datatype Action =
    | EdgeCreate(p: Id, input: WorkOrderInput, woId: Id, entryId: Id)
    | EdgeSetStatus(p: Id, order: Id, status: string)
    | EdgePush(p: Id, limit: nat)
    | CloudAccept(push: Msg)
    | CloudApply(h: Handler)
    | CloudReply(h: Handler)
    | EdgeMark(ok: Msg)
    | CloudCreate(p: Id, input: WorkOrderInput, woId: Id, entryId: Id)
    | CloudPull(p: Id, limit: nat)
    | EdgeApply(commands: Msg, i: nat)
    | EdgeAck(p: Id, ids: set<Id>)
    | CloudAck(ack: Msg)
    | Provision(at: Option<Id>, newParts: set<Id>, newRoutings: set<Id>)

  function IdsOf(entries: seq<SyncEntry>): set<Id> {
    set e | e in entries :: e.id
  }

  ghost predicate Enabled(s: Sys, a: Action) {
    match a
    case EdgeCreate(p, input, woId, entryId) =>
      p in s.edges && woId !in s.used && entryId !in s.used && woId != entryId
    case EdgeSetStatus(p, order, _) => p in s.edges && order in s.edges[p].orders
    case EdgePush(p, _) => p in s.edges
    case CloudAccept(push) => push in s.net && push.Push? && |push.entries| <= MAX_BATCH
    case CloudApply(h) => h in s.handlers && h.pos < |h.entries|
    case CloudReply(h) => h in s.handlers && h.pos == |h.entries|
    case EdgeMark(ok) => ok in s.net && ok.PushOk?
    case CloudCreate(_, input, woId, entryId) => woId !in s.used && entryId !in s.used && woId != entryId
    case CloudPull(_, _) => true
    case EdgeApply(commands, i) => commands in s.net && commands.Commands? && i < |commands.entries|
        && commands.plant in s.edges
    case EdgeAck(p, ids) => p in s.edges && ids <= s.edges[p].applied
    case CloudAck(ack) => ack in s.net && ack.Ack?
    case Provision(at, _, _) => at.Some? ==> at.value in s.edges
  }

  /** The database after an apply; a failed apply rolls back. */
  function Applied(db: Db, e: SyncEntry, plant: Option<Id>): Db {
    match ApplyEntry(db, e, plant)
    case Ok((db', _)) => db'
    case Err(_) => db
  }

  ghost function Next(s: Sys, a: Action): Sys
    requires Enabled(s, a)
  {
    match a
    case EdgeCreate(p, input, woId, entryId) =>
      var wo := Draft(woId, input);
      if !Insertable(s.edges[p], wo, input.ops) then s.(used := s.used + {woId, entryId})
      else s.(edges := s.edges[p := WithOrder(s.edges[p], wo, input.ops, None, entryId, None)],
              born := s.born[entryId := Birth(p, wo, true)], used := s.used + {woId, entryId})
    case EdgeSetStatus(p, order, status) =>
      var db := s.edges[p];
      s.(edges := s.edges[p := db.(orders := db.orders[order := db.orders[order].(status := status)])])
    case EdgePush(p, limit) => s.(net := s.net + {Push(p, FetchToCloud(s.edges[p], limit))})
    case CloudAccept(push) => s.(handlers := s.handlers + {Handler(push.plant, push.entries, 0)})
    case CloudApply(h) =>
      var e := h.entries[h.pos];
      if ApplyEntry(s.cloud, e, Some(h.plant)).Err? then s
      else s.(cloud := Applied(s.cloud, e, Some(h.plant)), handlers := s.handlers + {h.(pos := h.pos + 1)})
    case CloudReply(h) => s.(net := s.net + {PushOk(h.plant, IdsOf(h.entries))})
    case EdgeMark(ok) =>
      if ok.plant !in s.edges then s
      else
        var db := s.edges[ok.plant];
        s.(edges := s.edges[ok.plant := db.(outbox := MarkSynced(db.outbox, ok.ids))])
    case CloudCreate(p, input, woId, entryId) =>
      var wo := Draft(woId, input.(routingId := None, plannedStart := None, plannedEnd := None));
      if !Insertable(s.cloud, wo, []) then s.(used := s.used + {woId, entryId})
      else s.(cloud := WithOrder(s.cloud, wo, [], Some(p), entryId, Some(p)),
              born := s.born[entryId := Birth(p, wo, false)], used := s.used + {woId, entryId})
    case CloudPull(p, limit) =>
      s.(net := s.net + {Commands(p, PullForPlant(s.cloud, p, if limit < MAX_BATCH then limit else MAX_BATCH))})
    case EdgeApply(commands, i) =>
      s.(edges := s.edges[commands.plant := Applied(s.edges[commands.plant], commands.entries[i], None)])
    case EdgeAck(p, ids) => s.(net := s.net + {Ack(p, ids)})
    case CloudAck(ack) => s.(cloud := s.cloud.(outbox := MarkSynced(s.cloud.outbox, ack.ids)))
    case Provision(None, ps, rs) => s.(cloud := s.cloud.(parts := ps, routings := rs))
    case Provision(Some(p), ps, rs) => s.(edges := s.edges[p := s.edges[p].(parts := ps, routings := rs)])
  }

  /** Fresh databases everywhere, and nothing under way. */
  ghost predicate Initial(s: Sys) {
    && (forall db :: db == s.cloud || (exists p :: p in s.edges && s.edges[p] == db) ==>
          db.orders == map[] && db.applied == {} && db.outbox == [])
    && s.net == {} && s.handlers == {} && s.born == map[]
  }

  ghost predicate IsRun(trace: seq<Sys>, actions: seq<Action>) {
    && |trace| == |actions| + 1
    && Initial(trace[0])
    && forall k :: 0 <= k < |actions| ==> Enabled(trace[k], actions[k]) && trace[k + 1] == Next(trace[k], actions[k])
  }

  // ---- The invariant -------------------------------------------------------

  ghost predicate EdgeBorn(born: map<Id, Birth>, p: Id, e: SyncEntry) {
    e.id in born && born[e.id].atEdge && born[e.id].plant == p && e == EntryFor(e.id, born[e.id].wo)
  }

  ghost predicate CloudBorn(born: map<Id, Birth>, p: Id, e: SyncEntry) {
    e.id in born && !born[e.id].atEdge && born[e.id].plant == p && e == EntryFor(e.id, born[e.id].wo)
  }

  /** The order described by the birth is in `orders` exactly as created, with its plant's tag. */
  ghost predicate Tagged(orders: map<Id, Order>, b: Birth) {
    b.wo.id in orders && orders[b.wo.id] == OrderOf(b.wo, Some(b.plant))
  }

  /** The commanded order is in `orders` as created, up to later local status changes. */
  ghost predicate Received(orders: map<Id, Order>, b: Birth) {
    b.wo.id in orders && orders[b.wo.id].(status := b.wo.status) == OrderOf(b.wo, None)
  }

  /** What a message in flight may claim. */
  ghost predicate MsgOk(m: Msg, born: map<Id, Birth>, claimed: set<Id>, edges: map<Id, Db>) {
    match m
    case Push(p, es) => forall e :: e in es ==> EdgeBorn(born, p, e)
    case PushOk(p, ids) => ids <= claimed
    case Commands(p, es) => forall e :: e in es ==> CloudBorn(born, p, e)
    case Ack(p, ids) => p in edges && ids <= edges[p].applied
  }

  ghost predicate HandlerOk(h: Handler, born: map<Id, Birth>, claimed: set<Id>) {
    && h.pos <= |h.entries|
    && (forall e :: e in h.entries ==> EdgeBorn(born, h.plant, e))
    && (forall j :: 0 <= j < h.pos ==> h.entries[j].id in claimed)
  }

  ghost predicate FlightOk(s: Sys) {
    && (forall m :: m in s.net ==> MsgOk(m, s.born, s.cloud.applied, s.edges))
    && (forall h :: h in s.handlers ==> HandlerOk(h, s.born, s.cloud.applied))
  }

  /** Generated ids are recorded, and no two entries describe the same order. */
  ghost predicate BirthsOk(born: map<Id, Birth>, used: set<Id>, plants: set<Id>) {
    && (forall id :: id in born ==>
          id in used && born[id].wo.id in used && (born[id].atEdge ==> born[id].plant in plants))
    && (forall a, b :: a in born && b in born && born[a].wo.id == born[b].wo.id ==> a == b)
  }

  /** The cloud's rows: an order arrives with its entry's claim and is then never changed. */
  ghost predicate CloudOk(orders: map<Id, Order>, claimed: set<Id>, born: map<Id, Birth>, used: set<Id>) {
    && orders.Keys <= used
    && (forall id :: id in claimed ==> id in born && born[id].atEdge)
    && (forall id :: id in born ==>
          if born[id].atEdge && id !in claimed then born[id].wo.id !in orders else Tagged(orders, born[id]))
  }

  ghost predicate CommandOk(r: OutboxRow, born: map<Id, Birth>, edges: map<Id, Db>) {
    && r.destination.Some? && CloudBorn(born, r.destination.value, r.entry)
    && (r.synced ==> r.destination.value in edges && r.entry.id in edges[r.destination.value].applied)
  }

  ghost predicate CloudOutboxOk(outbox: seq<OutboxRow>, born: map<Id, Birth>, edges: map<Id, Db>) {
    forall r :: r in outbox ==> CommandOk(r, born, edges)
  }

  /** An edge's rows: a commanded order arrives with its entry's claim. */
  ghost predicate EdgeOk(p: Id, orders: map<Id, Order>, claimed: set<Id>, born: map<Id, Birth>, used: set<Id>) {
    && orders.Keys <= used
    && (forall id :: id in claimed ==>
          id in born && !born[id].atEdge && born[id].plant == p && Received(orders, born[id]))
    && (forall id :: id in born && !born[id].atEdge && id !in claimed ==> born[id].wo.id !in orders)
  }

  ghost predicate QueuedOk(p: Id, r: OutboxRow, born: map<Id, Birth>, claimed: set<Id>) {
    r.destination.None? && EdgeBorn(born, p, r.entry) && (r.synced ==> r.entry.id in claimed)
  }

  ghost predicate Queued(outbox: seq<OutboxRow>, id: Id) {
    exists r :: r in outbox && r.entry.id == id
  }

  /** Every entry born at the edge is in its outbox; a synced one is claimed by the cloud. */
  ghost predicate EdgeOutboxOk(p: Id, outbox: seq<OutboxRow>, born: map<Id, Birth>, claimed: set<Id>) {
    && (forall r :: r in outbox ==> QueuedOk(p, r, born, claimed))
    && (forall id :: id in born && born[id].atEdge && born[id].plant == p ==> Queued(outbox, id))
  }

  ghost predicate EdgesOk(edges: map<Id, Db>, born: map<Id, Birth>, used: set<Id>, claimed: set<Id>) {
    forall p :: p in edges ==>
      EdgeOk(p, edges[p].orders, edges[p].applied, born, used) && EdgeOutboxOk(p, edges[p].outbox, born, claimed)
  }

  ghost predicate Inv(s: Sys) {
    && BirthsOk(s.born, s.used, s.edges.Keys)
    && CloudOk(s.cloud.orders, s.cloud.applied, s.born, s.used)
    && CloudOutboxOk(s.cloud.outbox, s.born, s.edges)
    && EdgesOk(s.edges, s.born, s.used, s.cloud.applied)
    && FlightOk(s)
  }

  // ---- Steps that only send ------------------------------------------------

  /** Facts that messages, handlers and commands rely on are never taken back. */
  ghost predicate Grows(s: Sys, s': Sys) {
    && (forall id :: id in s.born ==> id in s'.born && s'.born[id] == s.born[id])
    && s.cloud.applied <= s'.cloud.applied
    && (forall p :: p in s.edges ==> p in s'.edges && s.edges[p].applied <= s'.edges[p].applied)
  }

  lemma FlightKept(s: Sys, s': Sys)
    requires Grows(s, s') && FlightOk(s)
    requires forall m :: m in s'.net && m !in s.net ==> MsgOk(m, s'.born, s'.cloud.applied, s'.edges)
    requires forall h :: h in s'.handlers && h !in s.handlers ==> HandlerOk(h, s'.born, s'.cloud.applied)
    ensures FlightOk(s')
  {
    forall m | m in s'.net ensures MsgOk(m, s'.born, s'.cloud.applied, s'.edges) {
      if m in s.net {
        assert MsgOk(m, s.born, s.cloud.applied, s.edges);
      }
    }
    forall h | h in s'.handlers ensures HandlerOk(h, s'.born, s'.cloud.applied) {
      if h in s.handlers {
        assert HandlerOk(h, s.born, s.cloud.applied);
      }
    }
  }

  lemma CommandsKept(s: Sys, s': Sys)
    requires Grows(s, s') && CloudOutboxOk(s.cloud.outbox, s.born, s.edges)
    ensures CloudOutboxOk(s.cloud.outbox, s'.born, s'.edges)
  {
    forall r | r in s.cloud.outbox ensures CommandOk(r, s'.born, s'.edges) {
      assert CommandOk(r, s.born, s.edges);
    }
  }

  lemma SendKeeps(s: Sys, m: Msg)
    requires Inv(s) && MsgOk(m, s.born, s.cloud.applied, s.edges)
    ensures Inv(s.(net := s.net + {m}))
  {
    hide BirthsOk, CloudOk, CloudOutboxOk, EdgesOk, FlightOk, MsgOk, HandlerOk;
    FlightKept(s, s.(net := s.net + {m}));
  }

  lemma PushKeeps(s: Sys, p: Id, limit: nat)
    requires Inv(s) && Enabled(s, EdgePush(p, limit))
    ensures Inv(Next(s, EdgePush(p, limit)))
  {
    hide BirthsOk, CloudOk, CloudOutboxOk, FlightOk, EdgeOk, EdgeBorn;
    var es := FetchToCloud(s.edges[p], limit);
    forall e | e in es ensures EdgeBorn(s.born, p, e) {
      var r := FetchedRow(s.edges[p].outbox, (r: OutboxRow) => r.destination.None? && !r.synced, limit, e);
      assert QueuedOk(p, r, s.born, s.cloud.applied);
    }
    SendKeeps(s, Push(p, es));
  }

  lemma PullKeeps(s: Sys, p: Id, limit: nat)
    requires Inv(s)
    ensures Inv(Next(s, CloudPull(p, limit)))
  {
    hide BirthsOk, CloudOk, FlightOk, EdgesOk, CloudBorn;
    var n := if limit < MAX_BATCH then limit else MAX_BATCH;
    var es := PullForPlant(s.cloud, p, n);
    forall e | e in es ensures CloudBorn(s.born, p, e) {
      var r := FetchedRow(s.cloud.outbox, PendingFor(p), n, e);
      assert CommandOk(r, s.born, s.edges);
    }
    SendKeeps(s, Commands(p, es));
  }

  lemma ReplyKeeps(s: Sys, h: Handler)
    requires Inv(s) && Enabled(s, CloudReply(h))
    ensures Inv(Next(s, CloudReply(h)))
  {
    hide BirthsOk, CloudOk, CloudOutboxOk, EdgesOk;
    assert HandlerOk(h, s.born, s.cloud.applied);
    SendKeeps(s, PushOk(h.plant, IdsOf(h.entries)));
  }

  lemma EdgeAckKeeps(s: Sys, p: Id, ids: set<Id>)
    requires Inv(s) && Enabled(s, EdgeAck(p, ids))
    ensures Inv(Next(s, EdgeAck(p, ids)))
  {
    hide BirthsOk, CloudOk, CloudOutboxOk, EdgesOk, FlightOk;
    SendKeeps(s, Ack(p, ids));
  }

  lemma AcceptKeeps(s: Sys, push: Msg)
    requires Inv(s) && Enabled(s, CloudAccept(push))
    ensures Inv(Next(s, CloudAccept(push)))
  {
    hide BirthsOk, CloudOk, CloudOutboxOk, EdgesOk;
    assert MsgOk(push, s.born, s.cloud.applied, s.edges);
    FlightKept(s, Next(s, CloudAccept(push)));
  }

  // ---- Steps that apply ----------------------------------------------------

  /** A genuine entry's first apply inserts exactly its order; the order was not there before. */
  lemma FirstApplyInserts(db: Db, e: SyncEntry, wo: WoPayload, plant: Option<Id>)
    requires e == EntryFor(e.id, wo) && ApplyEntry(db, e, plant).Ok?
    requires e.id !in db.applied ==> wo.id !in db.orders
    ensures var db' := Applied(db, e, plant);
            && db'.applied == db.applied + {e.id} && db'.outbox == db.outbox
            && db'.orders == if e.id in db.applied then db.orders else db.orders[wo.id := OrderOf(wo, plant)]
  {
  }

  lemma CloudClaimed(orders: map<Id, Order>, claimed: set<Id>, born: map<Id, Birth>, used: set<Id>, plants: set<Id>,
                     id: Id)
    requires BirthsOk(born, used, plants) && CloudOk(orders, claimed, born, used) && id in born && born[id].atEdge
    ensures var row := OrderOf(born[id].wo, Some(born[id].plant));
            CloudOk(if id in claimed then orders else orders[born[id].wo.id := row], claimed + {id}, born, used)
  {
  }

  lemma ClaimsGrow(edges: map<Id, Db>, born: map<Id, Birth>, used: set<Id>, claimed: set<Id>, id: Id)
    requires EdgesOk(edges, born, used, claimed)
    ensures EdgesOk(edges, born, used, claimed + {id})
  {
    hide EdgeOk, EdgeBorn, Queued;
    forall p | p in edges ensures EdgeOutboxOk(p, edges[p].outbox, born, claimed + {id}) {
      forall r | r in edges[p].outbox ensures QueuedOk(p, r, born, claimed + {id}) {
        assert QueuedOk(p, r, born, claimed);
      }
    }
  }

  lemma CloudApplyKeeps(s: Sys, h: Handler)
    requires Inv(s) && Enabled(s, CloudApply(h))
    ensures Inv(Next(s, CloudApply(h)))
  {
    hide Inv, ApplyEntry, Applied, EntryFor, HandlerOk;
    var e := h.entries[h.pos];
    HandlerFacts(s, h);
    if ApplyEntry(s.cloud, e, Some(h.plant)).Ok? {
      FirstApplyInserts(s.cloud, e, s.born[e.id].wo, Some(h.plant));
      CloudClaimKeeps(s, h, e, Applied(s.cloud, e, Some(h.plant)));
    }
  }

  lemma HandlerFacts(s: Sys, h: Handler)
    requires Inv(s) && h in s.handlers && h.pos < |h.entries|
    ensures HandlerOk(h, s.born, s.cloud.applied) && EdgeBorn(s.born, h.plant, h.entries[h.pos])
    ensures var e := h.entries[h.pos]; e.id !in s.cloud.applied ==> s.born[e.id].wo.id !in s.cloud.orders
  {
    hide BirthsOk, CloudOutboxOk, EdgesOk, CloudOk;
    assert HandlerOk(h, s.born, s.cloud.applied) && h.entries[h.pos] in h.entries;
    NotYetThere(s.cloud.orders, s.cloud.applied, s.born, s.used, h.entries[h.pos].id);
  }

  lemma CloudClaimKeeps(s: Sys, h: Handler, e: SyncEntry, cloud: Db)
    requires Inv(s) && h.pos < |h.entries| && e == h.entries[h.pos] && EdgeBorn(s.born, h.plant, e)
    requires HandlerOk(h, s.born, s.cloud.applied)
    requires cloud.applied == s.cloud.applied + {e.id} && cloud.outbox == s.cloud.outbox
    requires var b := s.born[e.id];
             cloud.orders == if e.id in s.cloud.applied then s.cloud.orders
                             else s.cloud.orders[b.wo.id := OrderOf(b.wo, Some(h.plant))]
    ensures Inv(s.(cloud := cloud, handlers := s.handlers + {h.(pos := h.pos + 1)}))
  {
    hide BirthsOk, CloudOutboxOk, EdgesOk, CloudOk, FlightOk, MsgOk, EntryFor, OrderOf;
    var s' := s.(cloud := cloud, handlers := s.handlers + {h.(pos := h.pos + 1)});
    CloudClaimed(s.cloud.orders, s.cloud.applied, s.born, s.used, s.edges.Keys, e.id);
    ClaimsGrow(s.edges, s.born, s.used, s.cloud.applied, e.id);
    assert HandlerOk(h.(pos := h.pos + 1), s'.born, s'.cloud.applied);
    FlightKept(s, s');
  }

  lemma NotYetThere(orders: map<Id, Order>, claimed: set<Id>, born: map<Id, Birth>, used: set<Id>, id: Id)
    requires CloudOk(orders, claimed, born, used) && id in born && born[id].atEdge
    ensures id !in claimed ==> born[id].wo.id !in orders
  {
  }

  lemma EdgeClaimed(p: Id, orders: map<Id, Order>, claimed: set<Id>, born: map<Id, Birth>, used: set<Id>,
                    plants: set<Id>, id: Id)
    requires BirthsOk(born, used, plants) && EdgeOk(p, orders, claimed, born, used)
    requires id in born && !born[id].atEdge && born[id].plant == p
    ensures EdgeOk(p, if id in claimed then orders else orders[born[id].wo.id := OrderOf(born[id].wo, None)],
                   claimed + {id}, born, used)
    ensures id !in claimed ==> born[id].wo.id !in orders
  {
  }

  /** Replacing one edge's database by a good one keeps the invariant. */
  lemma EdgeReplaced(s: Sys, p: Id, db: Db)
    requires Inv(s) && p in s.edges && s.edges[p].applied <= db.applied
    requires EdgeOk(p, db.orders, db.applied, s.born, s.used) && EdgeOutboxOk(p, db.outbox, s.born, s.cloud.applied)
    ensures Inv(s.(edges := s.edges[p := db]))
  {
    hide BirthsOk, CloudOk, CloudOutboxOk, FlightOk, EdgeOk, EdgeOutboxOk;
    var s' := s.(edges := s.edges[p := db]);
    assert s'.edges.Keys == s.edges.Keys;
    FlightKept(s, s');
    CommandsKept(s, s');
  }

  lemma EdgeApplyKeeps(s: Sys, m: Msg, i: nat)
    requires Inv(s) && Enabled(s, EdgeApply(m, i))
    ensures Inv(Next(s, EdgeApply(m, i)))
  {
    hide BirthsOk, CloudOk, CloudOutboxOk, EdgeOk, EdgeOutboxOk, ApplyEntry, EntryFor;
    var p, e := m.plant, m.entries[i];
    var db := s.edges[p];
    assert MsgOk(m, s.born, s.cloud.applied, s.edges) && e in m.entries;
    assert CloudBorn(s.born, p, e);
    if ApplyEntry(db, e, None).Ok? {
      EdgeClaimed(p, db.orders, db.applied, s.born, s.used, s.edges.Keys, e.id);
      FirstApplyInserts(db, e, s.born[e.id].wo, None);
      EdgeReplaced(s, p, Applied(db, e, None));
    } else {
      EdgeReplaced(s, p, db);
    }
  }

  // ---- Steps that mark or write --------------------------------------------

  lemma MarkedOutboxOk(p: Id, outbox: seq<OutboxRow>, born: map<Id, Birth>, claimed: set<Id>, ids: set<Id>)
    requires EdgeOutboxOk(p, outbox, born, claimed) && ids <= claimed
    ensures EdgeOutboxOk(p, MarkSynced(outbox, ids), born, claimed)
  {
    var after := MarkSynced(outbox, ids);
    forall r | r in after ensures QueuedOk(p, r, born, claimed) {
      var i :| 0 <= i < |after| && after[i] == r;
      assert QueuedOk(p, outbox[i], born, claimed);
    }
    forall id | Queued(outbox, id) ensures Queued(after, id) {
      var r :| r in outbox && r.entry.id == id;
      var i :| 0 <= i < |outbox| && outbox[i] == r;
      assert after[i] in after && after[i].entry.id == id;
    }
  }

  lemma EdgeMarkKeeps(s: Sys, m: Msg)
    requires Inv(s) && Enabled(s, EdgeMark(m))
    ensures Inv(Next(s, EdgeMark(m)))
  {
    hide BirthsOk, CloudOk, CloudOutboxOk, EdgeOk, EdgeOutboxOk;
    if m.plant in s.edges {
      var p, db := m.plant, s.edges[m.plant];
      assert MsgOk(m, s.born, s.cloud.applied, s.edges);
      MarkedOutboxOk(p, db.outbox, s.born, s.cloud.applied, m.ids);
      EdgeReplaced(s, p, db.(outbox := MarkSynced(db.outbox, m.ids)));
    }
  }

  /** Only the destination plant can have claimed, and so acknowledged, a command. */
  lemma AckedOutboxOk(outbox: seq<OutboxRow>, born: map<Id, Birth>, used: set<Id>, edges: map<Id, Db>, claimed: set<Id>,
                      p: Id, ids: set<Id>)
    requires CloudOutboxOk(outbox, born, edges) && EdgesOk(edges, born, used, claimed) && p in edges
             && ids <= edges[p].applied
    ensures CloudOutboxOk(MarkSynced(outbox, ids), born, edges)
  {
    hide EdgeOutboxOk, Received;
    var after := MarkSynced(outbox, ids);
    forall r | r in after ensures CommandOk(r, born, edges) {
      var i :| 0 <= i < |after| && after[i] == r;
      assert CommandOk(outbox[i], born, edges);
    }
  }

  lemma CloudAckKeeps(s: Sys, m: Msg)
    requires Inv(s) && Enabled(s, CloudAck(m))
    ensures Inv(Next(s, CloudAck(m)))
  {
    hide BirthsOk, CloudOk, CloudOutboxOk, EdgesOk;
    assert MsgOk(m, s.born, s.cloud.applied, s.edges);
    AckedOutboxOk(s.cloud.outbox, s.born, s.used, s.edges, s.cloud.applied, m.plant, m.ids);
    FlightKept(s, Next(s, CloudAck(m)));
  }

  /** Fresh ids keep births in order. */
  lemma BirthAdded(born: map<Id, Birth>, used: set<Id>, plants: set<Id>, id: Id, b: Birth)
    requires BirthsOk(born, used, plants) && id !in used && b.wo.id !in used && (b.atEdge ==> b.plant in plants)
    ensures BirthsOk(born[id := b], used + {b.wo.id, id}, plants)
  {
  }

  lemma CloudWithBirth(orders: map<Id, Order>, claimed: set<Id>, born: map<Id, Birth>, used: set<Id>, plants: set<Id>,
                       id: Id, b: Birth)
    requires BirthsOk(born, used, plants) && CloudOk(orders, claimed, born, used) && id !in used && b.wo.id !in used
    ensures CloudOk(if b.atEdge then orders else orders[b.wo.id := OrderOf(b.wo, Some(b.plant))],
                    claimed, born[id := b], used + {b.wo.id, id})
  {
  }

  lemma EdgeWithBirth(p: Id, orders: map<Id, Order>, claimed: set<Id>, born: map<Id, Birth>, used: set<Id>,
                      plants: set<Id>, id: Id, b: Birth)
    requires BirthsOk(born, used, plants) && EdgeOk(p, orders, claimed, born, used) && id !in used && b.wo.id !in used
    ensures EdgeOk(p, orders, claimed, born[id := b], used + {b.wo.id, id})
    ensures b.atEdge ==> EdgeOk(p, orders[b.wo.id := OrderOf(b.wo, None)], claimed, born[id := b], used + {b.wo.id, id})
  {
  }

  /** A birth elsewhere (or at the cloud) leaves an edge's outbox in order. */
  lemma OutboxWithBirth(p: Id, outbox: seq<OutboxRow>, born: map<Id, Birth>, claimed: set<Id>, id: Id, b: Birth)
    requires EdgeOutboxOk(p, outbox, born, claimed) && id !in born
    ensures !(b.atEdge && b.plant == p) ==> EdgeOutboxOk(p, outbox, born[id := b], claimed)
    ensures b.atEdge && b.plant == p ==>
              EdgeOutboxOk(p, outbox + [OutboxRow(EntryFor(id, b.wo), None, false)], born[id := b], claimed)
  {
    var row := OutboxRow(EntryFor(id, b.wo), None, false);
    forall r | r in outbox ensures QueuedOk(p, r, born[id := b], claimed) {
      assert QueuedOk(p, r, born, claimed);
    }
    forall x | Queued(outbox, x) ensures Queued(outbox + [row], x) {
      var r :| r in outbox && r.entry.id == x;
      assert r in outbox + [row];
    }
    assert row in outbox + [row] && row.entry.id == id;
    assert Queued(outbox + [row], id);
  }

  lemma BornGrows(s: Sys, id: Id, b: Birth)
    requires id !in s.used && BirthsOk(s.born, s.used, s.edges.Keys)
    ensures id !in s.born
  {
  }

  lemma EdgeCreateKeeps(s: Sys, p: Id, input: WorkOrderInput, woId: Id, entryId: Id)
    requires Inv(s) && Enabled(s, EdgeCreate(p, input, woId, entryId))
    ensures Inv(Next(s, EdgeCreate(p, input, woId, entryId)))
  {
    var wo := Draft(woId, input);
    hide BirthsOk, CloudOk, CloudOutboxOk, EdgesOk, FlightOk, Insertable, WithOrder;
    if Insertable(s.edges[p], wo, input.ops) {
      EdgeInsertKeeps(s, p, wo, input.ops, entryId);
    } else {
      MoreUsed(s, s.used + {woId, entryId});
    }
  }

  lemma EdgeInsertKeeps(s: Sys, p: Id, wo: WoPayload, ops: seq<Op>, entryId: Id)
    requires Inv(s) && p in s.edges && wo.id !in s.used && entryId !in s.used
    ensures Inv(s.(edges := s.edges[p := WithOrder(s.edges[p], wo, ops, None, entryId, None)],
                   born := s.born[entryId := Birth(p, wo, true)], used := s.used + {wo.id, entryId}))
  {
    var s' := s.(edges := s.edges[p := WithOrder(s.edges[p], wo, ops, None, entryId, None)],
                 born := s.born[entryId := Birth(p, wo, true)], used := s.used + {wo.id, entryId});
    var b := Birth(p, wo, true);
    hide BirthsOk, CloudOk, CloudOutboxOk, EdgesOk, FlightOk, MsgOk, HandlerOk;
    BornGrows(s, entryId, b);
    BirthAdded(s.born, s.used, s.edges.Keys, entryId, b);
    CloudWithBirth(s.cloud.orders, s.cloud.applied, s.born, s.used, s.edges.Keys, entryId, b);
    assert s'.edges.Keys == s.edges.Keys;
    EdgesWithBirth(s.edges, s.born, s.used, s.cloud.applied, p, wo, ops, entryId);
    FlightKept(s, s');
    CommandsKept(s, s');
  }

  lemma EdgesWithBirth(edges: map<Id, Db>, born: map<Id, Birth>, used: set<Id>, claimed: set<Id>, p: Id, wo: WoPayload,
                       ops: seq<Op>, entryId: Id)
    requires BirthsOk(born, used, edges.Keys) && EdgesOk(edges, born, used, claimed) && p in edges
    requires wo.id !in used && entryId !in used && entryId !in born
    ensures EdgesOk(edges[p := WithOrder(edges[p], wo, ops, None, entryId, None)],
                    born[entryId := Birth(p, wo, true)], used + {wo.id, entryId}, claimed)
  {
    hide BirthsOk, EdgeOk, EdgeOutboxOk, OrderOf, EntryFor, OperationRows;
    var b := Birth(p, wo, true);
    var edges' := edges[p := WithOrder(edges[p], wo, ops, None, entryId, None)];
    forall q | q in edges'
      ensures EdgeOk(q, edges'[q].orders, edges'[q].applied, born[entryId := b], used + {wo.id, entryId})
      ensures EdgeOutboxOk(q, edges'[q].outbox, born[entryId := b], claimed)
    {
      EdgeWithBirth(q, edges[q].orders, edges[q].applied, born, used, edges.Keys, entryId, b);
      OutboxWithBirth(q, edges[q].outbox, born, claimed, entryId, b);
    }
  }

  lemma MoreUsed(s: Sys, used: set<Id>)
    requires Inv(s) && s.used <= used
    ensures Inv(s.(used := used))
  {
    hide CloudOutboxOk, EdgeOutboxOk, Received, Tagged, MsgOk, HandlerOk;
    assert FlightOk(s.(used := used));
  }

  lemma CloudCreateKeeps(s: Sys, p: Id, input: WorkOrderInput, woId: Id, entryId: Id)
    requires Inv(s) && Enabled(s, CloudCreate(p, input, woId, entryId))
    ensures Inv(Next(s, CloudCreate(p, input, woId, entryId)))
  {
    var wo := Draft(woId, input.(routingId := None, plannedStart := None, plannedEnd := None));
    hide BirthsOk, CloudOk, CloudOutboxOk, EdgesOk, FlightOk, Insertable, WithOrder;
    if Insertable(s.cloud, wo, []) {
      CloudInsertKeeps(s, p, wo, entryId);
    } else {
      MoreUsed(s, s.used + {woId, entryId});
    }
  }

  lemma CloudInsertKeeps(s: Sys, p: Id, wo: WoPayload, entryId: Id)
    requires Inv(s) && wo.id !in s.used && entryId !in s.used
    ensures Inv(s.(cloud := WithOrder(s.cloud, wo, [], Some(p), entryId, Some(p)),
                   born := s.born[entryId := Birth(p, wo, false)], used := s.used + {wo.id, entryId}))
  {
    var s' := s.(cloud := WithOrder(s.cloud, wo, [], Some(p), entryId, Some(p)),
                 born := s.born[entryId := Birth(p, wo, false)], used := s.used + {wo.id, entryId});
    var b := Birth(p, wo, false);
    hide BirthsOk, CloudOk, EdgeOk, EdgeOutboxOk, FlightOk, OrderOf, OperationRows;
    BornGrows(s, entryId, b);
    BirthAdded(s.born, s.used, s.edges.Keys, entryId, b);
    CloudWithBirth(s.cloud.orders, s.cloud.applied, s.born, s.used, s.edges.Keys, entryId, b);
    forall q | q in s.edges
      ensures EdgeOk(q, s.edges[q].orders, s.edges[q].applied, s'.born, s'.used)
      ensures EdgeOutboxOk(q, s.edges[q].outbox, s'.born, s'.cloud.applied)
    {
      EdgeWithBirth(q, s.edges[q].orders, s.edges[q].applied, s.born, s.used, s.edges.Keys, entryId, b);
      OutboxWithBirth(q, s.edges[q].outbox, s.born, s.cloud.applied, entryId, b);
    }
    FlightKept(s, s');
    CommandsKept(s, s');
    assert CommandOk(OutboxRow(EntryFor(entryId, wo), Some(p), false), s'.born, s'.edges);
  }

  lemma StatusChanged(p: Id, orders: map<Id, Order>, claimed: set<Id>, born: map<Id, Birth>, used: set<Id>, order: Id,
                      status: string)
    requires EdgeOk(p, orders, claimed, born, used) && order in orders
    ensures EdgeOk(p, orders[order := orders[order].(status := status)], claimed, born, used)
  {
  }

  lemma SetStatusKeeps(s: Sys, p: Id, order: Id, status: string)
    requires Inv(s) && Enabled(s, EdgeSetStatus(p, order, status))
    ensures Inv(Next(s, EdgeSetStatus(p, order, status)))
  {
    hide BirthsOk, CloudOk, CloudOutboxOk, EdgeOk, EdgeOutboxOk, FlightOk;
    var db := s.edges[p];
    StatusChanged(p, db.orders, db.applied, s.born, s.used, order, status);
    EdgeReplaced(s, p, db.(orders := db.orders[order := db.orders[order].(status := status)]));
  }

  lemma ProvisionKeeps(s: Sys, at: Option<Id>, parts: set<Id>, routings: set<Id>)
    requires Inv(s) && Enabled(s, Provision(at, parts, routings))
    ensures Inv(Next(s, Provision(at, parts, routings)))
  {
    hide BirthsOk, CloudOk, CloudOutboxOk, EdgeOk, EdgeOutboxOk, FlightOk;
    if at.Some? {
      EdgeReplaced(s, at.value, s.edges[at.value].(parts := parts, routings := routings));
    } else {
      FlightKept(s, Next(s, Provision(at, parts, routings)));
    }
  }

  /** Every step of every interleaving keeps the invariant. */
  lemma StepKeepsInv(s: Sys, a: Action)
    requires Inv(s) && Enabled(s, a)
    ensures Inv(Next(s, a))
  {
    hide Inv, Next, Enabled;
    match a
    case EdgeCreate(p, input, woId, entryId) => EdgeCreateKeeps(s, p, input, woId, entryId);
    case EdgeSetStatus(p, order, status) => SetStatusKeeps(s, p, order, status);
    case EdgePush(p, limit) => PushKeeps(s, p, limit);
    case CloudAccept(push) => AcceptKeeps(s, push);
    case CloudApply(h) => CloudApplyKeeps(s, h);
    case CloudReply(h) => ReplyKeeps(s, h);
    case EdgeMark(ok) => EdgeMarkKeeps(s, ok);
    case CloudCreate(p, input, woId, entryId) => CloudCreateKeeps(s, p, input, woId, entryId);
    case CloudPull(p, limit) => PullKeeps(s, p, limit);
    case EdgeApply(commands, i) => EdgeApplyKeeps(s, commands, i);
    case EdgeAck(p, ids) => EdgeAckKeeps(s, p, ids);
    case CloudAck(ack) => CloudAckKeeps(s, ack);
    case Provision(at, ps, rs) => ProvisionKeeps(s, at, ps, rs);
  }

  lemma InitialInv(s: Sys)
    requires Initial(s)
    ensures Inv(s)
  {
  }

  lemma {:induction false} RunInv(trace: seq<Sys>, actions: seq<Action>, k: nat)
    requires IsRun(trace, actions) && k < |trace|
    ensures Inv(trace[k])
  {
    hide Inv, Next, Enabled, Initial;
    if k == 0 {
      InitialInv(trace[0]);
    } else {
      RunInv(trace, actions, k - 1);
      StepKeepsInv(trace[k - 1], actions[k - 1]);
    }
  }

  // ---- Safety of every run -------------------------------------------------

  /** Plant `p` has nothing left to push. */
  ghost predicate Drained(s: Sys, p: Id)
    requires p in s.edges
  {
    forall r :: r in s.edges[p].outbox ==> r.synced
  }

  /** An entry that an edge has marked synced is already claimed by the cloud. */
  lemma SyncedMeansClaimed(trace: seq<Sys>, actions: seq<Action>, k: nat, p: Id, r: OutboxRow)
    requires IsRun(trace, actions) && k < |trace| && p in trace[k].edges
    requires r in trace[k].edges[p].outbox && r.synced
    ensures r.entry.id in trace[k].cloud.applied
  {
    RunInv(trace, actions, k);
    assert QueuedOk(p, r, trace[k].born, trace[k].cloud.applied);
  }

  /** Once an edge's outbox is drained, every order it ever created is in the cloud's table
      with the fields it was created with and that plant's tag. */
  lemma DrainedMeansConverged(trace: seq<Sys>, actions: seq<Action>, k: nat, p: Id, id: Id)
    requires IsRun(trace, actions) && k < |trace| && p in trace[k].edges && Drained(trace[k], p)
    requires id in trace[k].born && trace[k].born[id].atEdge && trace[k].born[id].plant == p
    ensures var b := trace[k].born[id];
            && b.wo.id in trace[k].cloud.orders
            && var row := trace[k].cloud.orders[b.wo.id];
               Carries(row, b.wo) && row.status == b.wo.status && row.plantId == Some(p)
  {
    RunInv(trace, actions, k);
    var s := trace[k];
    assert Queued(s.edges[p].outbox, id);
    var r :| r in s.edges[p].outbox && r.entry.id == id;
    assert QueuedOk(p, r, s.born, s.cloud.applied);
    assert Tagged(s.cloud.orders, s.born[id]);
  }

  /** Every command the cloud counts as acknowledged has been applied at its own plant, and
      the order is there as created, up to later local status changes. */
  lemma AckedMeansApplied(trace: seq<Sys>, actions: seq<Action>, k: nat, r: OutboxRow)
    requires IsRun(trace, actions) && k < |trace| && r in trace[k].cloud.outbox && r.synced
    ensures r.destination.Some? && r.destination.value in trace[k].edges
    ensures var db := trace[k].edges[r.destination.value];
            && r.entry.id in db.applied && r.entry.id in trace[k].born
            && trace[k].born[r.entry.id].plant == r.destination.value
            && var wo := trace[k].born[r.entry.id].wo;
               wo.id in db.orders && Carries(db.orders[wo.id], wo) && db.orders[wo.id].plantId == None
  {
    RunInv(trace, actions, k);
    assert CommandOk(r, trace[k].born, trace[k].edges);
  }

  /** Tenant tags are truthful: an order tagged with a plant, in the cloud's table at any time
      of any run, belongs to that plant. */
  lemma TagsAreTruthful(trace: seq<Sys>, actions: seq<Action>, k: nat, id: Id)
    requires IsRun(trace, actions) && k < |trace| && id in trace[k].born
    requires trace[k].born[id].wo.id in trace[k].cloud.orders
    ensures trace[k].cloud.orders[trace[k].born[id].wo.id].plantId == Some(trace[k].born[id].plant)
  {
    RunInv(trace, actions, k);
    assert Tagged(trace[k].cloud.orders, trace[k].born[id]);
  }

  /** Once an order is in the cloud's table it never changes again, whatever is redelivered. */
  lemma {:induction false} CloudOrdersStable(trace: seq<Sys>, actions: seq<Action>, i: nat, j: nat, order: Id)
    requires IsRun(trace, actions) && i <= j < |trace| && order in trace[i].cloud.orders
    ensures order in trace[j].cloud.orders && trace[j].cloud.orders[order] == trace[i].cloud.orders[order]
  {
    hide Inv, Next, Enabled, Initial;
    if i < j {
      CloudOrdersStable(trace, actions, i, j - 1, order);
      RunInv(trace, actions, j - 1);
      CloudOrderKept(trace[j - 1], actions[j - 1], order);
    }
  }

  lemma CloudOrderKept(s: Sys, a: Action, order: Id)
    requires Inv(s) && Enabled(s, a) && order in s.cloud.orders
    ensures order in Next(s, a).cloud.orders && Next(s, a).cloud.orders[order] == s.cloud.orders[order]
  {
    hide Inv, ApplyEntry, Applied, HandlerOk, FetchToCloud, PullForPlant, MarkSynced, EntryFor, OrderOf, NumberTaken,
         Referenced;
    match a
    case CloudApply(h) =>
      HandlerFacts(s, h);
      var e := h.entries[h.pos];
      if ApplyEntry(s.cloud, e, Some(h.plant)).Ok? {
        FirstApplyInserts(s.cloud, e, s.born[e.id].wo, Some(h.plant));
      }
    case _ =>
  }

  // ---- When an order cannot converge ---------------------------------------

  /** A genuine entry's first apply of a new order goes through exactly when no order has its
      number and its part and routing are known. */
  lemma FirstApplyIff(db: Db, e: SyncEntry, wo: WoPayload, plant: Option<Id>)
    requires e == EntryFor(e.id, wo) && e.id !in db.applied && wo.id !in db.orders
    ensures ApplyEntry(db, e, plant).Ok? <==>
            !NumberTaken(db, wo.id, wo.woNumber) && Referenced(db, wo.partId, wo.routingId)
    ensures ApplyEntry(db, e, plant).Ok? <==>
            && (forall k :: k in db.orders ==> db.orders[k].woNumber != wo.woNumber)
            && wo.partId in db.parts && (wo.routingId.Some? ==> wo.routingId.value in db.routings)
  {
    var claimed := db.(applied := db.applied + {e.id});
    assert NumberTaken(claimed, wo.id, wo.woNumber) <==> NumberTaken(db, wo.id, wo.woNumber);
  }

  lemma ClashKept(s: Sys, a: Action, id: Id, other: Id)
    requires Inv(s) && Enabled(s, a) && id in s.born && id !in s.cloud.applied && s.born[id].atEdge
    requires other in s.cloud.orders && other != s.born[id].wo.id
             && s.cloud.orders[other].woNumber == s.born[id].wo.woNumber
    ensures id !in Next(s, a).cloud.applied
  {
    hide Inv, ApplyEntry, Applied, HandlerOk, FetchToCloud, PullForPlant, MarkSynced, EntryFor, OrderOf, Referenced,
         Insertable;
    match a
    case CloudApply(h) =>
      HandlerFacts(s, h);
      var e := h.entries[h.pos];
      if ApplyEntry(s.cloud, e, Some(h.plant)).Ok? {
        FirstApplyInserts(s.cloud, e, s.born[e.id].wo, Some(h.plant));
        if e.id == id {
          FirstApplyIff(s.cloud, e, s.born[id].wo, Some(h.plant));
        }
      }
    case _ =>
  }

  lemma BirthKept(s: Sys, a: Action, id: Id)
    requires Inv(s) && Enabled(s, a) && id in s.born
    ensures id in Next(s, a).born && Next(s, a).born[id] == s.born[id]
  {
    hide ApplyEntry, Applied, FetchToCloud, PullForPlant, MarkSynced, EntryFor, OrderOf, Insertable,
         CloudOk, CloudOutboxOk, EdgesOk, FlightOk;
  }

  // ---- From the input to the other side ------------------------------------

  /** Column by column, a row holds what was ordered; the priority defaults to 100. */
  ghost predicate AsOrdered(row: Order, input: WorkOrderInput) {
    && row.woNumber == input.woNumber && row.partId == input.partId && row.routingId == input.routingId
    && row.qtyOrdered == input.qtyOrdered
    && (input.priority.None? ==> row.priority == 100)
    && (input.priority.Some? ==> row.priority == input.priority.value)
    && row.plannedStart == input.plannedStart && row.plannedEnd == input.plannedEnd
  }

  /** The same for a command, which carries no routing and no planned times. */
  ghost predicate AsCommanded(row: Order, input: WorkOrderInput) {
    && row.woNumber == input.woNumber && row.partId == input.partId && row.qtyOrdered == input.qtyOrdered
    && (input.priority.None? ==> row.priority == 100)
    && (input.priority.Some? ==> row.priority == input.priority.value)
    && row.routingId == None && row.plannedStart == None && row.plannedEnd == None
  }

  lemma {:induction false} BirthsKept(trace: seq<Sys>, actions: seq<Action>, i: nat, j: nat, id: Id)
    requires IsRun(trace, actions) && i <= j < |trace| && id in trace[i].born
    ensures id in trace[j].born && trace[j].born[id] == trace[i].born[id]
  {
    hide Inv, Next, Enabled, Initial;
    if i < j {
      BirthsKept(trace, actions, i, j - 1, id);
      RunInv(trace, actions, j - 1);
      BirthKept(trace[j - 1], actions[j - 1], id);
    }
  }

  /** An accepted creation at an edge puts the order there as ordered, as a draft without a plant. */
  lemma EdgeBirth(s: Sys, a: Action, row: Order)
    requires Inv(s) && Enabled(s, a) && a.EdgeCreate? && a.entryId in Next(s, a).born
    ensures var b := Next(s, a).born[a.entryId];
            && b.atEdge && b.plant == a.p && b.wo.id == a.woId && b.wo.status == "draft"
            && (Carries(row, b.wo) ==> AsOrdered(row, a.input))
            && a.woId in Next(s, a).edges[a.p].orders
            && var own := Next(s, a).edges[a.p].orders[a.woId];
               AsOrdered(own, a.input) && own.status == "draft" && own.plantId == None
  {
    hide CloudOk, CloudOutboxOk, EdgesOk, FlightOk, Insertable, OperationRows, EntryFor;
  }

  lemma CloudBirth(s: Sys, a: Action, row: Order)
    requires Inv(s) && Enabled(s, a) && a.CloudCreate? && a.entryId in Next(s, a).born
    ensures var b := Next(s, a).born[a.entryId];
            && !b.atEdge && b.plant == a.p && b.wo.id == a.woId
            && (Carries(row, b.wo) ==> AsCommanded(row, a.input))
  {
    hide CloudOk, CloudOutboxOk, EdgesOk, FlightOk, Insertable, OperationRows, EntryFor, WithOrder;
  }

  /** What an edge was asked to create, the cloud's table shows once that edge is drained:
      every column as ordered, a draft, with the plant's tag. */
  lemma OrderedMeansConverged(trace: seq<Sys>, actions: seq<Action>, m: nat, k: nat)
    requires IsRun(trace, actions) && m < k < |trace| && actions[m].EdgeCreate?
    requires actions[m].entryId in trace[m + 1].born
    requires actions[m].p in trace[k].edges && Drained(trace[k], actions[m].p)
    ensures var a := actions[m];
            && a.woId in trace[k].cloud.orders
            && var row := trace[k].cloud.orders[a.woId];
               AsOrdered(row, a.input) && row.status == "draft" && row.plantId == Some(a.p)
  {
    hide Inv, Next, Enabled, Initial, Drained, AsOrdered, Carries;
    var a := actions[m];
    RunInv(trace, actions, m);
    StepAt(trace, actions, m);
    BirthsKept(trace, actions, m + 1, k, a.entryId);
    var wo := trace[k].born[a.entryId].wo;
    var empty := Order("", "", None, 0.0, 0, "", None, None, None);
    EdgeBirth(trace[m], a, if wo.id in trace[k].cloud.orders then trace[k].cloud.orders[wo.id] else empty);
    DrainedMeansConverged(trace, actions, k, a.p, a.entryId);
  }

  /** What the cloud was asked to order from a plant, that plant's table shows once the command is
      acknowledged, every column as ordered. */
  lemma CommandedMeansReceived(trace: seq<Sys>, actions: seq<Action>, m: nat, k: nat, r: OutboxRow)
    requires IsRun(trace, actions) && m < k < |trace| && actions[m].CloudCreate?
    requires actions[m].entryId in trace[m + 1].born
    requires r in trace[k].cloud.outbox && r.entry.id == actions[m].entryId && r.synced
    ensures var a := actions[m];
            && a.p in trace[k].edges && a.woId in trace[k].edges[a.p].orders
            && AsCommanded(trace[k].edges[a.p].orders[a.woId], a.input)
  {
    hide Inv, Next, Enabled, Initial, AsCommanded, Carries;
    var a := actions[m];
    RunInv(trace, actions, m);
    StepAt(trace, actions, m);
    BirthsKept(trace, actions, m + 1, k, a.entryId);
    AckedMeansApplied(trace, actions, k, r);
    var wo := trace[k].born[a.entryId].wo;
    CloudBirth(trace[m], a, trace[k].edges[r.destination.value].orders[wo.id]);
  }

  lemma StepAt(trace: seq<Sys>, actions: seq<Action>, m: nat)
    requires IsRun(trace, actions) && m < |actions|
    ensures Enabled(trace[m], actions[m]) && trace[m + 1] == Next(trace[m], actions[m])
  {
  }
}
