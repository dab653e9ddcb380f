/** What fetching oldest first and stopping at the first error do together: the cloud claims
    the entries of an edge in the order of its outbox. */
module SyncOrder {
  import opened Prelude
  import opened SyncDb
  import opened SyncProtocol

  /** The entry ids of an outbox, in order. */
  function Queue(outbox: seq<OutboxRow>): (q: seq<Id>)
    ensures |q| == |outbox|
    ensures forall i :: 0 <= i < |q| ==> q[i] == outbox[i].entry.id
  {
    seq(|outbox|, i requires 0 <= i < |outbox| => outbox[i].entry.id)
  }

  ghost predicate Distinct(q: seq<Id>) {
    forall i, j :: 0 <= i < j < |q| ==> q[i] != q[j]
  }

  /** Everything before `id` in the queue is done. */
  ghost predicate Preceded(q: seq<Id>, id: Id, done: set<Id>) {
    forall i, j :: 0 <= i < j < |q| && q[j] == id ==> q[i] in done
  }

  /** A pushed list skips nothing that is not claimed. */
  ghost predicate InOrder(q: seq<Id>, es: seq<SyncEntry>, claimed: set<Id>) {
    forall j :: 0 <= j < |es| ==> Preceded(q, es[j].id, claimed + IdsOf(es[..j]))
  }

  ghost predicate QueueOk(q: seq<Id>, claimed: set<Id>) {
    Distinct(q) && forall id :: id in claimed ==> Preceded(q, id, claimed)
  }

  ghost predicate PushOkFor(m: Msg, edges: map<Id, Db>, claimed: set<Id>) {
    m.Push? && m.plant in edges ==> InOrder(Queue(edges[m.plant].outbox), m.entries, claimed)
  }

  ghost predicate HandlerOkFor(h: Handler, edges: map<Id, Db>, claimed: set<Id>) {
    h.plant in edges ==> InOrder(Queue(edges[h.plant].outbox), h.entries, claimed)
  }

  ghost predicate QueuesOk(edges: map<Id, Db>, claimed: set<Id>) {
    forall p :: p in edges ==> QueueOk(Queue(edges[p].outbox), claimed)
  }

  ghost predicate InFlightOk(net: set<Msg>, handlers: set<Handler>, edges: map<Id, Db>, claimed: set<Id>) {
    && (forall m :: m in net ==> PushOkFor(m, edges, claimed))
    && (forall h :: h in handlers ==> HandlerOkFor(h, edges, claimed))
  }

  ghost predicate OrderInv(s: Sys) {
    QueuesOk(s.edges, s.cloud.applied) && InFlightOk(s.net, s.handlers, s.edges, s.cloud.applied)
  }

  // ---- Steps that leave queues and claims alone ----------------------------

  ghost predicate SameQueues(s: Sys, s': Sys) {
    && s'.cloud.applied == s.cloud.applied && s'.edges.Keys == s.edges.Keys
    && forall p :: p in s.edges ==> Queue(s'.edges[p].outbox) == Queue(s.edges[p].outbox)
  }

  lemma QuietStep(s: Sys, s': Sys)
    requires OrderInv(s) && SameQueues(s, s')
    requires forall m :: m in s'.net && m !in s.net ==> PushOkFor(m, s'.edges, s'.cloud.applied)
    requires forall h :: h in s'.handlers && h !in s.handlers ==> HandlerOkFor(h, s'.edges, s'.cloud.applied)
    ensures OrderInv(s')
  {
    hide Queue, InOrder, QueueOk;
    forall m | m in s.net ensures PushOkFor(m, s'.edges, s'.cloud.applied) {
      assert PushOkFor(m, s.edges, s.cloud.applied);
    }
    forall h | h in s.handlers ensures HandlerOkFor(h, s'.edges, s'.cloud.applied) {
      assert HandlerOkFor(h, s.edges, s.cloud.applied);
    }
  }

  lemma MarkedQueue(outbox: seq<OutboxRow>, ids: set<Id>)
    ensures Queue(MarkSynced(outbox, ids)) == Queue(outbox)
  {
  }

  // ---- Pushing oldest first ------------------------------------------------

  lemma FetchedAt(outbox: seq<OutboxRow>, wanted: OutboxRow -> bool, limit: nat, j: nat) returns (i: nat)
    requires j < |Entries(Limit(Select(outbox, wanted), limit))|
    ensures var es := Entries(Limit(Select(outbox, wanted), limit));
            && i < |outbox| && outbox[i].entry == es[j] && wanted(outbox[i])
            && forall k :: 0 <= k < i && wanted(outbox[k]) ==> outbox[k].entry.id in IdsOf(es[..j])
  {
    var chosen := Select(outbox, wanted);
    var es := Entries(Limit(chosen, limit));
    i := SelectedAt(outbox, wanted, j);
    assert chosen[j] in chosen;
    forall k | 0 <= k < i && wanted(outbox[k]) ensures outbox[k].entry.id in IdsOf(es[..j]) {
      var n :| 0 <= n < j && chosen[..j][n] == outbox[k];
      assert es[..j][n] == outbox[k].entry && es[..j][n] in es[..j];
    }
  }

  lemma FetchInOrder(outbox: seq<OutboxRow>, wanted: OutboxRow -> bool, limit: nat, claimed: set<Id>)
    requires Distinct(Queue(outbox))
    requires forall r :: r in outbox && !wanted(r) ==> r.entry.id in claimed
    ensures InOrder(Queue(outbox), Entries(Limit(Select(outbox, wanted), limit)), claimed)
  {
    hide Limit, IdsOf;
    var es, q := Entries(Limit(Select(outbox, wanted), limit)), Queue(outbox);
    forall j | 0 <= j < |es| ensures Preceded(q, es[j].id, claimed + IdsOf(es[..j])) {
      var i := FetchedAt(outbox, wanted, limit, j);
      forall k, m | 0 <= k < m < |q| && q[m] == es[j].id ensures q[k] in claimed + IdsOf(es[..j]) {
        assert q[i] == es[j].id;
        assert m == i;
        assert outbox[k] in outbox;
      }
    }
  }

  lemma PushOrdered(s: Sys, p: Id, limit: nat)
    requires Inv(s) && OrderInv(s) && Enabled(s, EdgePush(p, limit))
    ensures OrderInv(Next(s, EdgePush(p, limit)))
  {
    var wanted := (r: OutboxRow) => r.destination.None? && !r.synced;
    forall r | r in s.edges[p].outbox && !wanted(r) ensures r.entry.id in s.cloud.applied {
      assert QueuedOk(p, r, s.born, s.cloud.applied);
    }
    hide Inv, InOrder, QueueOk, Queue;
    QueueFacts(s, p);
    FetchInOrder(s.edges[p].outbox, wanted, limit, s.cloud.applied);
    QuietStep(s, Next(s, EdgePush(p, limit)));
  }

  lemma QueueFacts(s: Sys, p: Id)
    requires OrderInv(s) && p in s.edges
    ensures QueueOk(Queue(s.edges[p].outbox), s.cloud.applied) && Distinct(Queue(s.edges[p].outbox))
  {
  }

  // ---- A new entry ---------------------------------------------------------

  lemma PrecededAppend(q: seq<Id>, x: Id, id: Id, done: set<Id>)
    requires Preceded(q, id, done) && id != x
    ensures Preceded(q + [x], id, done)
  {
    var q' := q + [x];
    forall i, j | 0 <= i < j < |q'| && q'[j] == id ensures q'[i] in done {
      assert q[j] == id && q'[i] == q[i];
    }
  }

  lemma InOrderAppend(q: seq<Id>, x: Id, es: seq<SyncEntry>, claimed: set<Id>)
    requires InOrder(q, es, claimed) && forall e :: e in es ==> e.id != x
    ensures InOrder(q + [x], es, claimed)
  {
    hide Preceded, IdsOf;
    forall j | 0 <= j < |es| ensures Preceded(q + [x], es[j].id, claimed + IdsOf(es[..j])) {
      PrecededAppend(q, x, es[j].id, claimed + IdsOf(es[..j]));
    }
  }

  lemma QueueOkAppend(q: seq<Id>, x: Id, claimed: set<Id>)
    requires QueueOk(q, claimed) && x !in claimed && x !in q
    ensures QueueOk(q + [x], claimed)
  {
    hide Preceded;
    forall id | id in claimed ensures Preceded(q + [x], id, claimed) {
      PrecededAppend(q, x, id, claimed);
    }
  }

  /** A fresh id occurs nowhere yet. */
  lemma FreshId(s: Sys, x: Id)
    requires Inv(s) && x !in s.used
    ensures x !in s.cloud.applied
    ensures forall p, r :: p in s.edges && r in s.edges[p].outbox ==> r.entry.id != x
    ensures forall m, e :: m in s.net && m.Push? && e in m.entries ==> e.id != x
    ensures forall h, e :: h in s.handlers && e in h.entries ==> e.id != x
  {
    hide CloudOutboxOk, EdgeOk, EntryFor, Tagged;
    assert x !in s.born;
    forall p, r | p in s.edges && r in s.edges[p].outbox ensures r.entry.id != x {
      assert QueuedOk(p, r, s.born, s.cloud.applied);
    }
    forall m, e | m in s.net && m.Push? && e in m.entries ensures e.id != x {
      assert MsgOk(m, s.born, s.cloud.applied, s.edges);
    }
    forall h, e | h in s.handlers && e in h.entries ensures e.id != x {
      assert HandlerOk(h, s.born, s.cloud.applied);
    }
  }

  lemma CreateOrdered(s: Sys, p: Id, input: WorkOrderInput, woId: Id, entryId: Id)
    requires Inv(s) && OrderInv(s) && Enabled(s, EdgeCreate(p, input, woId, entryId))
    ensures OrderInv(Next(s, EdgeCreate(p, input, woId, entryId)))
  {
    hide Inv, InOrder, QueueOk, Insertable, OperationRows, OrderOf;
    FreshId(s, entryId);
    var s' := Next(s, EdgeCreate(p, input, woId, entryId));
    if Insertable(s.edges[p], Draft(woId, input), input.ops) {
      var q := Queue(s.edges[p].outbox);
      assert Queue(s'.edges[p].outbox) == q + [entryId];
      assert entryId !in q by {
        if i :| 0 <= i < |q| && q[i] == entryId {
          assert s.edges[p].outbox[i] in s.edges[p].outbox;
        }
      }
      QueueOkAppend(q, entryId, s.cloud.applied);
      Appended(s, p, entryId, s');
    } else {
      QuietStep(s, s');
    }
  }

  lemma Appended(s: Sys, p: Id, x: Id, s': Sys)
    requires OrderInv(s) && p in s.edges && s'.edges.Keys == s.edges.Keys && s'.cloud == s.cloud
    requires s'.net == s.net && s'.handlers == s.handlers
    requires forall r :: r in s.edges && r != p ==> s'.edges[r] == s.edges[r]
    requires Queue(s'.edges[p].outbox) == Queue(s.edges[p].outbox) + [x]
    requires QueueOk(Queue(s'.edges[p].outbox), s.cloud.applied)
    requires forall m, e :: m in s.net && m.Push? && e in m.entries ==> e.id != x
    requires forall h, e :: h in s.handlers && e in h.entries ==> e.id != x
    ensures OrderInv(s')
  {
    hide Queue, InOrder, QueueOk;
    forall m | m in s.net ensures PushOkFor(m, s'.edges, s'.cloud.applied) {
      assert PushOkFor(m, s.edges, s.cloud.applied);
      if m.Push? && m.plant == p {
        InOrderAppend(Queue(s.edges[p].outbox), x, m.entries, s.cloud.applied);
      }
    }
    forall h | h in s.handlers ensures HandlerOkFor(h, s'.edges, s'.cloud.applied) {
      assert HandlerOkFor(h, s.edges, s.cloud.applied);
      if h.plant == p {
        InOrderAppend(Queue(s.edges[p].outbox), x, h.entries, s.cloud.applied);
      }
    }
  }

  // ---- A new claim ---------------------------------------------------------

  lemma PrecededMore(q: seq<Id>, id: Id, done: set<Id>, more: set<Id>)
    requires Preceded(q, id, done) && done <= more
    ensures Preceded(q, id, more)
  {
  }

  lemma InOrderMore(q: seq<Id>, es: seq<SyncEntry>, claimed: set<Id>, more: set<Id>)
    requires InOrder(q, es, claimed) && claimed <= more
    ensures InOrder(q, es, more)
  {
    hide Preceded, IdsOf;
    forall j | 0 <= j < |es| ensures Preceded(q, es[j].id, more + IdsOf(es[..j])) {
      PrecededMore(q, es[j].id, claimed + IdsOf(es[..j]), more + IdsOf(es[..j]));
    }
  }

  lemma QueueOkMore(q: seq<Id>, claimed: set<Id>, x: Id)
    requires QueueOk(q, claimed) && Preceded(q, x, claimed)
    ensures QueueOk(q, claimed + {x})
  {
    hide Preceded;
    forall id | id in claimed + {x} ensures Preceded(q, id, claimed + {x}) {
      PrecededMore(q, id, claimed, claimed + {x});
    }
  }

  /** When a handler comes to an entry, everything before it in the edge's outbox is claimed. */
  lemma NextInOrder(s: Sys, h: Handler, p: Id)
    requires Inv(s) && OrderInv(s) && h in s.handlers && h.pos < |h.entries| && p in s.edges
    ensures Preceded(Queue(s.edges[p].outbox), h.entries[h.pos].id, s.cloud.applied)
  {
    hide Inv, OrderInv, Preceded, EdgeBorn, Queue, IdsOf;
    var q, x := Queue(s.edges[p].outbox), h.entries[h.pos].id;
    HandlerFacts(s, h);
    if p == h.plant {
      HandlerOrdered(s, h);
      DoneClaimed(h.entries, h.pos, s.cloud.applied);
      PrecededMore(q, x, s.cloud.applied + IdsOf(h.entries[..h.pos]), s.cloud.applied);
    } else {
      NotQueuedElsewhere(s, p, h.plant, h.entries[h.pos]);
      NotQueued(q, x, s.cloud.applied);
    }
  }

  lemma HandlerOrdered(s: Sys, h: Handler)
    requires OrderInv(s) && h in s.handlers && h.plant in s.edges
    ensures InOrder(Queue(s.edges[h.plant].outbox), h.entries, s.cloud.applied)
  {
    hide InOrder, Queue;
    assert HandlerOkFor(h, s.edges, s.cloud.applied);
  }

  lemma DoneClaimed(es: seq<SyncEntry>, pos: nat, claimed: set<Id>)
    requires pos <= |es| && forall j :: 0 <= j < pos ==> es[j].id in claimed
    ensures IdsOf(es[..pos]) <= claimed
  {
    forall e | e in es[..pos] ensures e.id in claimed {
      var j :| 0 <= j < pos && es[..pos][j] == e;
      assert es[j].id in claimed;
    }
  }

  lemma NotQueued(q: seq<Id>, x: Id, done: set<Id>)
    requires x !in q
    ensures Preceded(q, x, done)
  {
  }

  lemma NotQueuedElsewhere(s: Sys, p: Id, plant: Id, e: SyncEntry)
    requires Inv(s) && p in s.edges && EdgeBorn(s.born, plant, e) && plant != p
    ensures e.id !in Queue(s.edges[p].outbox)
  {
    hide BirthsOk, CloudOk, CloudOutboxOk, FlightOk, EdgeOk;
    var outbox := s.edges[p].outbox;
    forall i | 0 <= i < |outbox| ensures outbox[i].entry.id != e.id {
      assert outbox[i] in outbox;
      assert QueuedOk(p, outbox[i], s.born, s.cloud.applied);
    }
  }

  lemma ApplyOrdered(s: Sys, h: Handler)
    requires Inv(s) && OrderInv(s) && Enabled(s, CloudApply(h))
    ensures OrderInv(Next(s, CloudApply(h)))
  {
    var e := h.entries[h.pos];
    if ApplyEntry(s.cloud, e, Some(h.plant)).Ok? {
      ApplyClaims(s.cloud, e, Some(h.plant));
      forall p | p in s.edges ensures Preceded(Queue(s.edges[p].outbox), e.id, s.cloud.applied) {
        NextInOrder(s, h, p);
      }
      hide Inv, ApplyEntry;
      Claimed(s, h, e.id, Next(s, CloudApply(h)));
    }
  }

  lemma Claimed(s: Sys, h: Handler, x: Id, s': Sys)
    requires OrderInv(s) && h in s.handlers && s'.edges == s.edges && s'.net == s.net
    requires s'.cloud.applied == s.cloud.applied + {x} && s'.handlers == s.handlers + {h.(pos := h.pos + 1)}
    requires forall p :: p in s.edges ==> Preceded(Queue(s.edges[p].outbox), x, s.cloud.applied)
    ensures OrderInv(s')
  {
    hide Queue, InOrder, QueueOk, Preceded;
    forall p | p in s.edges ensures QueueOk(Queue(s'.edges[p].outbox), s'.cloud.applied) {
      QueueOkMore(Queue(s.edges[p].outbox), s.cloud.applied, x);
    }
    forall m | m in s'.net ensures PushOkFor(m, s'.edges, s'.cloud.applied) {
      assert PushOkFor(m, s.edges, s.cloud.applied);
      if m.Push? && m.plant in s.edges {
        InOrderMore(Queue(s.edges[m.plant].outbox), m.entries, s.cloud.applied, s'.cloud.applied);
      }
    }
    forall g | g in s'.handlers ensures HandlerOkFor(g, s'.edges, s'.cloud.applied) {
      assert HandlerOkFor(if g in s.handlers then g else h, s.edges, s.cloud.applied);
      if g.plant in s.edges {
        InOrderMore(Queue(s.edges[g.plant].outbox), g.entries, s.cloud.applied, s'.cloud.applied);
      }
    }
  }

  // ---- Every run -----------------------------------------------------------

  lemma MarkOrdered(s: Sys, m: Msg)
    requires OrderInv(s) && Enabled(s, EdgeMark(m))
    ensures OrderInv(Next(s, EdgeMark(m)))
  {
    hide OrderInv, MarkSynced;
    if m.plant in s.edges {
      MarkedQueue(s.edges[m.plant].outbox, m.ids);
    }
    QuietStep(s, Next(s, EdgeMark(m)));
  }

  lemma EdgeApplyOrdered(s: Sys, m: Msg, i: nat)
    requires OrderInv(s) && Enabled(s, EdgeApply(m, i))
    ensures OrderInv(Next(s, EdgeApply(m, i)))
  {
    ApplyClaims(s.edges[m.plant], m.entries[i], None);
    hide OrderInv, ApplyEntry;
    QuietStep(s, Next(s, EdgeApply(m, i)));
  }

  lemma AcceptOrdered(s: Sys, push: Msg)
    requires OrderInv(s) && Enabled(s, CloudAccept(push))
    ensures OrderInv(Next(s, CloudAccept(push)))
  {
    assert PushOkFor(push, s.edges, s.cloud.applied);
    hide OrderInv, InOrder;
    QuietStep(s, Next(s, CloudAccept(push)));
  }

  lemma OtherOrdered(s: Sys, a: Action)
    requires OrderInv(s) && Enabled(s, a)
    requires a.EdgeSetStatus? || a.CloudReply? || a.CloudCreate? || a.CloudPull? || a.EdgeAck? || a.CloudAck?
             || a.Provision?
    ensures OrderInv(Next(s, a))
  {
    hide OrderInv, Queue, InOrder, Insertable, PullForPlant, MarkSynced, OrderOf, OperationRows, EntryFor, IdsOf;
    QuietStep(s, Next(s, a));
  }

  lemma StepKeepsOrder(s: Sys, a: Action)
    requires Inv(s) && OrderInv(s) && Enabled(s, a)
    ensures OrderInv(Next(s, a))
  {
    hide Inv, OrderInv, Next, Enabled;
    match a
    case EdgeCreate(p, input, woId, entryId) => CreateOrdered(s, p, input, woId, entryId);
    case EdgePush(p, limit) => PushOrdered(s, p, limit);
    case CloudAccept(push) => AcceptOrdered(s, push);
    case CloudApply(h) => ApplyOrdered(s, h);
    case EdgeMark(ok) => MarkOrdered(s, ok);
    case EdgeApply(commands, i) => EdgeApplyOrdered(s, commands, i);
    case _ => OtherOrdered(s, a);
  }

  lemma {:induction false} RunOrdered(trace: seq<Sys>, actions: seq<Action>, k: nat)
    requires IsRun(trace, actions) && k < |trace|
    ensures Inv(trace[k]) && OrderInv(trace[k])
  {
    hide Inv, OrderInv, Next, Enabled, Initial;
    RunInv(trace, actions, k);
    if k == 0 {
      InitialOrder(trace[0]);
    } else {
      RunOrdered(trace, actions, k - 1);
      StepKeepsOrder(trace[k - 1], actions[k - 1]);
    }
  }

  lemma InitialOrder(s: Sys)
    requires Initial(s)
    ensures OrderInv(s)
  {
    forall p | p in s.edges ensures Queue(s.edges[p].outbox) == [] {
      assert s.edges[p].outbox == [];
    }
  }

  /** In every state of every run, the entries of an edge that the cloud has claimed are a
      prefix of its outbox: no entry overtakes an earlier one. */
  lemma ClaimedIsPrefix(trace: seq<Sys>, actions: seq<Action>, k: nat, p: Id, i: int, j: int)
    requires IsRun(trace, actions) && k < |trace| && p in trace[k].edges && 0 <= i < j < |trace[k].edges[p].outbox|
    requires trace[k].edges[p].outbox[j].entry.id in trace[k].cloud.applied
    ensures trace[k].edges[p].outbox[i].entry.id in trace[k].cloud.applied
  {
    RunOrdered(trace, actions, k);
    hide Inv, IsRun;
    QueueFacts(trace[k], p);
    var q := Queue(trace[k].edges[p].outbox);
    assert Preceded(q, q[j], trace[k].cloud.applied);
  }
}
