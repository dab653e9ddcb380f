/** The spares ledger, reorder-point procurement requests, and their export to the ERP. */
module Spares {
  import opened Prelude

  datatype Spare = Spare(reorderPoint: real, reorderQty: real)

  datatype Txn = Txn(spare: Id, qty: real)

  datatype Reason = ReorderPoint | Manual

  datatype Status = Requested | SentToErp | Fulfilled

  datatype Request = Request(spare: Id, qty: real, reason: Reason, status: Status, erpReference: Option<string>)

  /** The tables; `orders` and `users` are what a movement may refer to. */
  datatype Tables = Tables(spares: map<Id, Spare>, orders: set<Id>, users: set<Id>, ledger: seq<Txn>,
                           requests: map<Id, Request>)

  /** A movement as entered: for a maintenance order or none, with an unsigned quantity. */
  datatype Movement = Movement(spare: Id, order: Option<Id>, txnType: string, qty: real, user: Id)

  // ---- Transactions on values ----------------------------------------------

  /** Derived stock: the sum of the signed ledger. */
  function Stock(ledger: seq<Txn>, spare: Id): real {
    if ledger == [] then 0.0
    else
      var x := ledger[|ledger| - 1];
      Stock(ledger[..|ledger| - 1], spare) + (if x.spare == spare then x.qty else 0.0)
  }

  /** Issues decrease stock, receipts increase it, adjustments are taken as they are. */
  function Signed(txnType: string, qty: real): Option<real> {
    if txnType == "issue" then Some(-Abs(qty))
    else if txnType == "receive" then Some(Abs(qty))
    else if txnType == "adjust" then Some(qty)
    else None
  }

  predicate OpenAuto(r: Request, spare: Id) {
    r.spare == spare && r.status == Requested && r.reason == ReorderPoint
  }

  predicate HasOpenAuto(requests: map<Id, Request>, spare: Id) {
    exists id :: id in requests && OpenAuto(requests[id], spare)
  }

  predicate Breached(t: Tables, spare: Id)
    requires spare in t.spares
  {
    Stock(t.ledger, spare) <= t.spares[spare].reorderPoint && t.spares[spare].reorderQty > 0.0
  }

  predicate Known(t: Tables, m: Movement) {
    (m.order.Some? ==> m.order.value in t.orders) && m.user in t.users
  }

  /** `record_spare_txn`: the ledger row and, on a breach without an open auto request (the
      partial unique index), a new one with id `newId`. */
  function RecordTxn(t: Tables, m: Movement, newId: Id): Result<(Tables, real, bool)> {
    if Signed(m.txnType, m.qty).None? then Err(InvalidReference)
    else if m.spare !in t.spares then Err(NotFound)
    else if !Known(t, m) then Err(InvalidReference)
    else
      var t1 := t.(ledger := t.ledger + [Txn(m.spare, Signed(m.txnType, m.qty).value)]);
      var stock := Stock(t1.ledger, m.spare);
      if Breached(t1, m.spare) && !HasOpenAuto(t.requests, m.spare) then
        var row := Request(m.spare, t.spares[m.spare].reorderQty, ReorderPoint, Requested, None);
        Ok((t1.(requests := t.requests[newId := row]), stock, true))
      else Ok((t1, stock, false))
  }

  function CreateRequest(t: Tables, spare: Id, qty: real, newId: Id): Result<Tables> {
    if spare !in t.spares then Err(InvalidReference)
    else Ok(t.(requests := t.requests[newId := Request(spare, qty, Manual, Requested, None)]))
  }

  /** The rows an export gathers. */
  function RequestedIds(t: Tables): set<Id> {
    set id | id in t.requests && t.requests[id].status == Requested
  }

  /** `mark_procurement_sent`: only rows among `ids` that are still requested move. */
  function MarkSent(t: Tables, ids: set<Id>, reference: Option<string>): Tables {
    t.(requests := map id | id in t.requests ::
         if id in ids && t.requests[id].status == Requested
         then t.requests[id].(status := SentToErp,
                              erpReference := if reference.Some? then reference else t.requests[id].erpReference)
         else t.requests[id])
  }

  function Moved(t: Tables, ids: set<Id>): set<Id> {
    ids * RequestedIds(t)
  }

  // ---- The tables, updated in place ----------------------------------------

  class Store {
    const spares: map<Id, Spare>
    const orders: set<Id>
    const users: set<Id>
    var ledger: seq<Txn>
    var requests: map<Id, Request>

    function View(): Tables
      reads this
    {
      Tables(spares, orders, users, ledger, requests)
    }

    constructor (spares: map<Id, Spare>, orders: set<Id>, users: set<Id>)
      ensures View() == Tables(spares, orders, users, [], map[])
    {
      this.spares, this.orders, this.users := spares, orders, users;
      ledger, requests := [], map[];
    }

    method Record(m: Movement, newId: Id) returns (r: Result<(real, bool)>)
      modifies this`ledger, this`requests
      ensures match RecordTxn(old(View()), m, newId)
              case Ok((t, stock, raised)) => View() == t && r == Ok((stock, raised))
              case Err(error) => View() == old(View()) && r == Err(error)
    {
      var signed := Signed(m.txnType, m.qty);
      if signed.None? {
        return Err(InvalidReference);
      }
      if m.spare !in spares {
        return Err(NotFound);
      }
      if !Known(View(), m) {
        return Err(InvalidReference);
      }
      ledger := ledger + [Txn(m.spare, signed.value)];
      var stock := CurrentStock(m.spare);
      var raised := false;
      if stock <= spares[m.spare].reorderPoint && spares[m.spare].reorderQty > 0.0 {
        if !HasOpenAuto(requests, m.spare) {
          requests := requests[newId := Request(m.spare, spares[m.spare].reorderQty, ReorderPoint, Requested, None)];
          raised := true;
        }
      }
      r := Ok((stock, raised));
    }

    method CurrentStock(spare: Id) returns (stock: real)
      ensures stock == Stock(ledger, spare)
    {
      stock := 0.0;
      for i := 0 to |ledger|
        invariant stock == Stock(ledger[..i], spare)
      {
        assert ledger[..i + 1][..i] == ledger[..i];
        if ledger[i].spare == spare {
          stock := stock + ledger[i].qty;
        }
      }
      assert ledger[..|ledger|] == ledger;
    }

    /** Export: snapshot the requested rows, push them, and mark them if the push went through.
        Afterwards nothing is left to send exactly when the push succeeded or there was
        nothing, and every other row, and every row's spare, quantity and reason, is as before. */
    method Export(pushed: bool, reference: Option<string>) returns (snapshot: set<Id>)
      modifies this`requests
      ensures requests.Keys == old(requests).Keys && snapshot <= requests.Keys
      ensures forall id :: id in requests ==> (id in snapshot <==> old(requests)[id].status == Requested)
      ensures forall id :: id in requests && (id !in snapshot || !pushed) ==> requests[id] == old(requests)[id]
      ensures forall id :: id in snapshot && pushed ==>
                && requests[id].status == SentToErp
                && requests[id].erpReference == (if reference.Some? then reference else old(requests)[id].erpReference)
      ensures forall id :: id in requests ==>
                requests[id].(status := old(requests)[id].status, erpReference := old(requests)[id].erpReference)
                == old(requests)[id]
      ensures RequestedIds(View()) == if pushed then {} else snapshot
    {
      snapshot := RequestedIds(View());
      if pushed {
        requests := MarkSent(View(), snapshot, reference).requests;
      }
    }
  }

  // ---- One transaction -----------------------------------------------------

  lemma StockAppend(ledger: seq<Txn>, x: Txn, spare: Id)
    ensures Stock(ledger + [x], spare) == Stock(ledger, spare) + (if x.spare == spare then x.qty else 0.0)
  {
    assert (ledger + [x])[..|ledger|] == ledger;
  }

  /** A movement is accepted exactly when its type is issue, receive or adjust and everything it
      refers to exists.  An issue then lowers the spare's stock by the size of the quantity, a
      receipt raises it by the size, an adjustment adds the quantity as it is; no other spare's
      stock moves. */
  lemma TxnMovesStock(t: Tables, m: Movement, newId: Id, other: Id)
    ensures RecordTxn(t, m, newId).Ok? <==>
            && (m.txnType == "issue" || m.txnType == "receive" || m.txnType == "adjust")
            && m.spare in t.spares && m.user in t.users && (m.order.Some? ==> m.order.value in t.orders)
    ensures RecordTxn(t, m, newId).Ok? ==>
              var (t', stock, _) := RecordTxn(t, m, newId).value;
              var size := if m.qty < 0.0 then -m.qty else m.qty;
              && stock == Stock(t'.ledger, m.spare)
              && (m.txnType == "issue" ==> stock == Stock(t.ledger, m.spare) - size)
              && (m.txnType == "receive" ==> stock == Stock(t.ledger, m.spare) + size)
              && (m.txnType == "adjust" ==> stock == Stock(t.ledger, m.spare) + m.qty)
              && (other != m.spare ==> Stock(t'.ledger, other) == Stock(t.ledger, other))
  {
    hide Stock, HasOpenAuto, Breached;
    TypesDiffer();
    if RecordTxn(t, m, newId).Ok? {
      StockAppend(t.ledger, Txn(m.spare, Signed(m.txnType, m.qty).value), m.spare);
      StockAppend(t.ledger, Txn(m.spare, Signed(m.txnType, m.qty).value), other);
    }
  }

  lemma TypesDiffer()
    ensures "issue" != "receive" && "issue" != "adjust" && "receive" != "adjust"
  {
    assert |"issue"| == 5 && |"receive"| == 7 && |"adjust"| == 6;
  }

  /** A manual request is for a known spare; it adds one requested row as asked and changes no other. */
  lemma AskMeaning(t: Tables, spare: Id, qty: real, newId: Id)
    requires newId !in t.requests
    ensures CreateRequest(t, spare, qty, newId).Ok? <==> spare in t.spares
    ensures CreateRequest(t, spare, qty, newId).Ok? ==>
              var t' := CreateRequest(t, spare, qty, newId).value;
              && t'.ledger == t.ledger && t'.requests.Keys == t.requests.Keys + {newId}
              && (forall id :: id in t.requests ==> t'.requests[id] == t.requests[id])
              && var row := t'.requests[newId];
                 row.spare == spare && row.qty == qty && row.reason == Manual && row.status == Requested
  {
  }

  // ---- Runs ----------------------------------------------------------------

  datatype Event =
    | AutoRaised(request: Id, spare: Id)
    | ExportStarted(exportId: nat, snapshot: set<Id>)
    | Pushed(exportId: nat, ids: set<Id>)
    | Sent(exportId: nat, moved: set<Id>)

  /** How far an export got: snapshot taken, received by the ERP, rows marked.  One whose push
      fails stays where it is. */
  datatype Stage = SnapshotTaken | Received | RowsMarked

  datatype Export = Export(snapshot: set<Id>, stage: Stage)

  /** The tables, the exports so far, and what happened. */
  datatype State = State(t: Tables, exports: map<nat, Export>, log: seq<Event>)

  datatype Action =
    | Move(m: Movement, newId: Id)
    | Ask(spare: Id, amount: real, newId: Id)
    | StartExport(exportId: nat)
    | PushExport(exportId: nat)
    | MarkExport(exportId: nat, reference: Option<string>)

  ghost predicate Enabled(s: State, a: Action) {
    match a
    case Move(_, newId) => newId !in s.t.requests
    case Ask(_, _, newId) => newId !in s.t.requests
    case StartExport(e) => e !in s.exports
    case PushExport(e) => e in s.exports && s.exports[e].stage == SnapshotTaken
    case MarkExport(e, _) => e in s.exports && s.exports[e].stage == Received
  }

  /** One call, atomic; an export is three steps with any other calls in between. */
  function Next(s: State, a: Action): State
    requires a.PushExport? || a.MarkExport? ==> a.exportId in s.exports
  {
    match a
    case Move(m, newId) =>
      (match RecordTxn(s.t, m, newId)
       case Ok((t, _, raised)) => s.(t := t, log := if raised then s.log + [AutoRaised(newId, m.spare)] else s.log)
       case Err(_) => s)
    case Ask(spare, amount, newId) =>
      (match CreateRequest(s.t, spare, amount, newId)
       case Ok(t) => s.(t := t)
       case Err(_) => s)
    case StartExport(e) =>
      s.(exports := s.exports[e := Export(RequestedIds(s.t), SnapshotTaken)],
         log := s.log + [ExportStarted(e, RequestedIds(s.t))])
    case PushExport(e) =>
      s.(exports := s.exports[e := s.exports[e].(stage := Received)], log := s.log + [Pushed(e, s.exports[e].snapshot)])
    case MarkExport(e, reference) =>
      s.(t := MarkSent(s.t, s.exports[e].snapshot, reference),
         exports := s.exports[e := s.exports[e].(stage := RowsMarked)],
         log := s.log + [Sent(e, Moved(s.t, s.exports[e].snapshot))])
  }

  ghost predicate IsRun(trace: seq<State>, actions: seq<Action>) {
    && |trace| == |actions| + 1
    && trace[0].t.ledger == [] && trace[0].t.requests == map[] && trace[0].exports == map[] && trace[0].log == []
    && forall k :: 0 <= k < |actions| ==> Enabled(trace[k], actions[k]) && trace[k + 1] == Next(trace[k], actions[k])
  }

  // ---- The invariant -------------------------------------------------------

  ghost predicate OneOpenAuto(requests: map<Id, Request>) {
    forall a, b :: a in requests && b in requests && OpenAuto(requests[a], requests[b].spare)
        && OpenAuto(requests[b], requests[b].spare)
      ==> a == b
  }

  /** Request `id` is among the rows sent by an event after position `i`. */
  ghost predicate SentAfter(log: seq<Event>, i: int, n: int, id: Id) {
    exists k :: 0 <= i < k < n <= |log| && log[k].Sent? && id in log[k].moved
  }

  /** A raised auto request is in the table, and still requested unless it was sent. */
  ghost predicate RaisedOk(requests: map<Id, Request>, log: seq<Event>, i: int)
    requires 0 <= i < |log| && log[i].AutoRaised?
  {
    var id := log[i].request;
    && id in requests && requests[id].spare == log[i].spare && requests[id].reason == ReorderPoint
    && (requests[id].status != Requested ==> SentAfter(log, i, |log|, id))
  }

  /** Two auto requests for one spare are separated by a send of the first. */
  ghost predicate Separated(log: seq<Event>) {
    forall i, j :: 0 <= i < j < |log| && log[i].AutoRaised? && log[j].AutoRaised? && log[i].spare == log[j].spare ==>
      SentAfter(log, i, j, log[i].request)
  }

  ghost predicate Started(log: seq<Event>, n: int, e: nat, ids: set<Id>) {
    exists j :: 0 <= j < n <= |log| && log[j] == ExportStarted(e, ids)
  }

  /** What an export moved was in its own snapshot. */
  ghost predicate SendsOwnSnapshot(log: seq<Event>) {
    forall k :: 0 <= k < |log| && log[k].Sent? ==>
      exists ids :: Started(log, k, log[k].exportId, ids) && log[k].moved <= ids
  }

  ghost predicate Inv(s: State) {
    && OneOpenAuto(s.t.requests)
    && (forall i :: 0 <= i < |s.log| && s.log[i].AutoRaised? ==> RaisedOk(s.t.requests, s.log, i))
    && Separated(s.log)
    && (forall e :: e in s.exports ==> Started(s.log, |s.log|, e, s.exports[e].snapshot))
    && SendsOwnSnapshot(s.log)
    && SentOnce(s.t.requests, s.log)
  }

  /** A request that was sent is no longer requested, and no request is sent twice. */
  ghost predicate SentOnce(requests: map<Id, Request>, log: seq<Event>) {
    && (forall k, id :: 0 <= k < |log| && log[k].Sent? && id in log[k].moved ==>
          id in requests && requests[id].status == SentToErp)
    && (forall j, k :: 0 <= j < k < |log| && log[j].Sent? && log[k].Sent? ==> log[j].moved !! log[k].moved)
  }

  lemma SentAfterGrows(log: seq<Event>, e: Event, i: int, n: int, n': int, id: Id)
    requires SentAfter(log, i, n, id) && n <= n' <= |log| + 1
    ensures SentAfter(log + [e], i, n', id)
  {
    var k :| 0 <= i < k < n <= |log| && log[k].Sent? && id in log[k].moved;
    assert (log + [e])[k] == log[k];
  }

  lemma StartedGrows(log: seq<Event>, ev: Event, n: int, n': int, e: nat, ids: set<Id>)
    requires Started(log, n, e, ids) && n <= n' <= |log| + 1
    ensures Started(log + [ev], n', e, ids)
  {
    var j :| 0 <= j < n <= |log| && log[j] == ExportStarted(e, ids);
    assert (log + [ev])[j] == log[j];
  }

  lemma SeparatedGrows(log: seq<Event>, e: Event)
    requires Separated(log)
    requires e.AutoRaised? ==>
               forall i :: 0 <= i < |log| && log[i].AutoRaised? && log[i].spare == e.spare ==>
                   SentAfter(log, i, |log|, log[i].request)
    ensures Separated(log + [e])
  {
    var log' := log + [e];
    forall i, j | 0 <= i < j < |log'| && log'[i].AutoRaised? && log'[j].AutoRaised? && log'[i].spare == log'[j].spare
      ensures SentAfter(log', i, j, log'[i].request)
    {
      assert log'[i] == log[i];
      if j < |log| {
        assert log'[j] == log[j];
      }
      SentAfterGrows(log, e, i, j, j, log[i].request);
    }
  }

  lemma SnapshotsGrow(log: seq<Event>, e: Event)
    requires SendsOwnSnapshot(log)
    requires e.Sent? ==> exists ids :: Started(log, |log|, e.exportId, ids) && e.moved <= ids
    ensures SendsOwnSnapshot(log + [e])
  {
    var log' := log + [e];
    forall k | 0 <= k < |log'| && log'[k].Sent?
      ensures exists ids :: Started(log', k, log'[k].exportId, ids) && log'[k].moved <= ids
    {
      var ids :| Started(log, k, log'[k].exportId, ids) && log'[k].moved <= ids;
      StartedGrows(log, e, k, k, log'[k].exportId, ids);
    }
  }

  lemma ExportsStarted(s: State, e: Event)
    requires forall x :: x in s.exports ==> Started(s.log, |s.log|, x, s.exports[x].snapshot)
    ensures forall x :: x in s.exports ==> Started(s.log + [e], |s.log| + 1, x, s.exports[x].snapshot)
  {
    forall x | x in s.exports ensures Started(s.log + [e], |s.log| + 1, x, s.exports[x].snapshot) {
      StartedGrows(s.log, e, |s.log|, |s.log| + 1, x, s.exports[x].snapshot);
    }
  }

  /** Raised requests stay in order when the table keeps them and only sends change status. */
  lemma RaisedStays(s: State, t: Tables, e: Event)
    requires forall i :: 0 <= i < |s.log| && s.log[i].AutoRaised? ==> RaisedOk(s.t.requests, s.log, i)
    requires forall id :: id in s.t.requests ==>
               && id in t.requests && t.requests[id].spare == s.t.requests[id].spare
               && t.requests[id].reason == s.t.requests[id].reason
               && (t.requests[id].status != s.t.requests[id].status ==> e.Sent? && id in e.moved)
    ensures forall i :: 0 <= i < |s.log| && s.log[i].AutoRaised? ==> RaisedOk(t.requests, s.log + [e], i)
  {
    var s' := s.(t := t, log := s.log + [e]);
    forall i | 0 <= i < |s.log| && s.log[i].AutoRaised? ensures RaisedOk(s'.t.requests, s'.log, i) {
      assert RaisedOk(s.t.requests, s.log, i) && s'.log[i] == s.log[i];
      var id := s.log[i].request;
      if s.t.requests[id].status != Requested {
        SentAfterGrows(s.log, e, i, |s.log|, |s'.log|, id);
      } else if t.requests[id].status != Requested {
        assert s'.log[|s.log|] == e;
      }
    }
  }

  lemma RaiseKeeps(s: State, spare: Id, ledger: seq<Txn>, newId: Id, amount: real)
    requires Inv(s) && newId !in s.t.requests && !HasOpenAuto(s.t.requests, spare)
    ensures var row := Request(spare, amount, ReorderPoint, Requested, None);
            var t := s.t.(ledger := ledger, requests := s.t.requests[newId := row]);
            Inv(s.(t := t, log := s.log + [AutoRaised(newId, spare)]))
  {
    hide Separated, SendsOwnSnapshot, SentOnce, Started;
    var e := AutoRaised(newId, spare);
    var row := Request(spare, amount, ReorderPoint, Requested, None);
    var t := s.t.(ledger := ledger, requests := s.t.requests[newId := row]);
    var s' := s.(t := t, log := s.log + [e]);
    RaisedStays(s, t, e);
    forall i | 0 <= i < |s.log| && s.log[i].AutoRaised? && s.log[i].spare == spare
      ensures SentAfter(s.log, i, |s.log|, s.log[i].request)
    {
      assert RaisedOk(s.t.requests, s.log, i);
    }
    SeparatedGrows(s.log, e);
    SnapshotsGrow(s.log, e);
    ExportsStarted(s, e);
    SentOnceGrows(s, t, e);
    assert RaisedOk(t.requests, s'.log, |s.log|);
  }

  lemma SentOnceGrows(s: State, t: Tables, e: Event)
    requires SentOnce(s.t.requests, s.log)
    requires forall id :: id in s.t.requests && s.t.requests[id].status == SentToErp ==>
               id in t.requests && t.requests[id].status == SentToErp
    requires e.Sent? ==> forall id :: id in e.moved ==>
               && id in s.t.requests && s.t.requests[id].status == Requested
               && id in t.requests && t.requests[id].status == SentToErp
    ensures SentOnce(t.requests, s.log + [e])
  {
    var log' := s.log + [e];
    assert forall i :: 0 <= i < |s.log| ==> log'[i] == s.log[i];
  }

  lemma MoveKeeps(s: State, m: Movement, newId: Id)
    requires Inv(s) && newId !in s.t.requests
    ensures Inv(Next(s, Move(m, newId)))
  {
    hide Inv, Breached, HasOpenAuto, Stock;
    match RecordTxn(s.t, m, newId)
    case Ok((t, _, raised)) =>
      if raised {
        RaiseKeeps(s, m.spare, t.ledger, newId, s.t.spares[m.spare].reorderQty);
      } else {
        LedgerOnly(s, t);
      }
    case Err(_) =>
  }

  lemma LedgerOnly(s: State, t: Tables)
    requires Inv(s) && t.requests == s.t.requests
    ensures Inv(s.(t := t))
  {
    hide Separated, SendsOwnSnapshot, Started, SentAfter, OneOpenAuto;
    forall i | 0 <= i < |s.log| && s.log[i].AutoRaised? ensures RaisedOk(t.requests, s.log, i) {
      assert RaisedOk(s.t.requests, s.log, i);
    }
  }

  lemma AskKeeps(s: State, spare: Id, amount: real, newId: Id)
    requires Inv(s) && newId !in s.t.requests
    ensures Inv(Next(s, Ask(spare, amount, newId)))
  {
    hide Separated, SendsOwnSnapshot, Started, SentAfter;
    var s' := Next(s, Ask(spare, amount, newId));
    forall i | 0 <= i < |s.log| && s.log[i].AutoRaised? ensures RaisedOk(s'.t.requests, s'.log, i) {
      assert RaisedOk(s.t.requests, s.log, i);
    }
  }

  lemma StartKeeps(s: State, x: nat)
    requires Inv(s) && x !in s.exports
    ensures Inv(Next(s, StartExport(x)))
  {
    hide Separated, SendsOwnSnapshot, OneOpenAuto, SentOnce, RaisedOk, RequestedIds;
    var e := ExportStarted(x, RequestedIds(s.t));
    RaisedStays(s, s.t, e);
    SeparatedGrows(s.log, e);
    SnapshotsGrow(s.log, e);
    ExportsStarted(s, e);
    SentOnceGrows(s, s.t, e);
    assert (s.log + [e])[|s.log|] == e;
    assert Started(s.log + [e], |s.log| + 1, x, RequestedIds(s.t));
  }

  lemma PushKeeps(s: State, x: nat)
    requires Inv(s) && x in s.exports
    ensures Inv(Next(s, PushExport(x)))
  {
    hide Separated, SendsOwnSnapshot, OneOpenAuto, SentOnce, RaisedOk, Started;
    var e := Pushed(x, s.exports[x].snapshot);
    RaisedStays(s, s.t, e);
    SeparatedGrows(s.log, e);
    SnapshotsGrow(s.log, e);
    ExportsStarted(s, e);
    SentOnceGrows(s, s.t, e);
  }

  lemma MarkKeeps(s: State, x: nat, reference: Option<string>)
    requires Inv(s) && x in s.exports
    ensures Inv(Next(s, MarkExport(x, reference)))
  {
    hide Separated, SendsOwnSnapshot, OneOpenAuto, SentOnce, RaisedOk, Started;
    var ids := s.exports[x].snapshot;
    var t, e := MarkSent(s.t, ids, reference), Sent(x, Moved(s.t, ids));
    assert t.requests.Keys == s.t.requests.Keys;
    RaisedStays(s, t, e);
    SeparatedGrows(s.log, e);
    assert Started(s.log, |s.log|, x, ids) && e.moved <= ids;
    SnapshotsGrow(s.log, e);
    ExportsStarted(s, e);
    SentOnceGrows(s, t, e);
    MarkKeepsOneOpen(s.t, ids, reference);
  }

  lemma MarkKeepsOneOpen(t: Tables, ids: set<Id>, reference: Option<string>)
    requires OneOpenAuto(t.requests)
    ensures OneOpenAuto(MarkSent(t, ids, reference).requests)
  {
  }

  lemma {:induction false} RunInv(trace: seq<State>, actions: seq<Action>, k: nat)
    requires IsRun(trace, actions) && k < |trace|
    ensures Inv(trace[k])
  {
    if k > 0 {
      RunInv(trace, actions, k - 1);
      var s, a := trace[k - 1], actions[k - 1];
      assert Enabled(s, a) && trace[k] == Next(s, a);
      match a
      case Move(m, newId) => MoveKeeps(s, m, newId);
      case Ask(spare, amount, newId) => AskKeeps(s, spare, amount, newId);
      case StartExport(e) => StartKeeps(s, e);
      case PushExport(e) => PushKeeps(s, e);
      case MarkExport(e, reference) => MarkKeeps(s, e, reference);
    }
  }

  // ---- Safety of every run -------------------------------------------------

  function OpenAutos(requests: map<Id, Request>, spare: Id): set<Id> {
    set id | id in requests && requests[id].spare == spare && requests[id].status == Requested
             && requests[id].reason == ReorderPoint
  }

  /** Action `a` is a movement of `spare` that the tables accept. */
  predicate Moves(t: Tables, a: Action, spare: Id) {
    && a.Move? && a.m.spare == spare && spare in t.spares && Known(t, a.m)
    && (a.m.txnType == "issue" || a.m.txnType == "receive" || a.m.txnType == "adjust")
  }

  /** In every state of every run a spare has at most one open auto request, and an accepted
      movement that leaves stock at or below the reorder point, with a quantity to reorder,
      leaves exactly one. */
  lemma ReorderExactlyOne(trace: seq<State>, actions: seq<Action>, k: nat, spare: Id)
    requires IsRun(trace, actions) && k < |trace|
    ensures |OpenAutos(trace[k].t.requests, spare)| <= 1
    ensures k > 0 && Moves(trace[k].t, actions[k - 1], spare)
            && Stock(trace[k].t.ledger, spare) <= trace[k].t.spares[spare].reorderPoint
            && trace[k].t.spares[spare].reorderQty > 0.0 ==>
              |OpenAutos(trace[k].t.requests, spare)| == 1
  {
    RunInv(trace, actions, k);
    var open := OpenAutos(trace[k].t.requests, spare);
    AtMostOne(trace[k].t.requests, spare);
    if k > 0 && Moves(trace[k].t, actions[k - 1], spare)
       && Stock(trace[k].t.ledger, spare) <= trace[k].t.spares[spare].reorderPoint
       && trace[k].t.spares[spare].reorderQty > 0.0 {
      var s, a := trace[k - 1], actions[k - 1];
      assert trace[k] == Next(s, a) && spare in s.t.spares;
      if HasOpenAuto(s.t.requests, spare) {
        var id :| id in s.t.requests && OpenAuto(s.t.requests[id], spare);
        assert id in open;
      } else {
        assert a.newId in open;
      }
    }
  }

  /** The other half: an auto request is raised only when stock is at or below the reorder point,
      there is a quantity to reorder, and none was open. */
  lemma RaisedOnlyOnBreach(t: Tables, m: Movement, newId: Id)
    requires RecordTxn(t, m, newId).Ok?
    ensures var (t', stock, raised) := RecordTxn(t, m, newId).value;
            && (raised <==> && stock <= t.spares[m.spare].reorderPoint && t.spares[m.spare].reorderQty > 0.0
                            && OpenAutos(t.requests, m.spare) == {})
            && (!raised ==> t'.requests == t.requests)
  {
    if HasOpenAuto(t.requests, m.spare) {
      var id :| id in t.requests && OpenAuto(t.requests[id], m.spare);
      assert id in OpenAutos(t.requests, m.spare);
    }
  }

  lemma AtMostOne(requests: map<Id, Request>, spare: Id)
    requires OneOpenAuto(requests)
    ensures |OpenAutos(requests, spare)| <= 1
  {
    var open := OpenAutos(requests, spare);
    if open != {} {
      var a :| a in open;
      forall b | b in open ensures b == a {
        assert OpenAuto(requests[a], requests[b].spare) && OpenAuto(requests[b], requests[b].spare);
      }
      assert open == {a};
    }
  }

  /** The sizes of the accepted movements of one type among `actions`, added up. */
  function Handled(t: Tables, actions: seq<Action>, spare: Id, txnType: string): real {
    if actions == [] then 0.0
    else
      var a, before := actions[|actions| - 1], Handled(t, actions[..|actions| - 1], spare, txnType);
      if Moves(t, a, spare) && a.m.txnType == txnType then before + (if a.m.qty < 0.0 then -a.m.qty else a.m.qty)
      else before
  }

  /** The accepted adjustments, with their signs. */
  function Adjusted(t: Tables, actions: seq<Action>, spare: Id): real {
    if actions == [] then 0.0
    else
      var a, before := actions[|actions| - 1], Adjusted(t, actions[..|actions| - 1], spare);
      if Moves(t, a, spare) && a.m.txnType == "adjust" then before + a.m.qty else before
  }

  /** The master data of `t` and `u` is the same. */
  predicate SameMaster(t: Tables, u: Tables) {
    t.spares == u.spares && t.orders == u.orders && t.users == u.users
  }

  lemma StepMovesStock(s: State, a: Action, spare: Id)
    requires Enabled(s, a)
    ensures SameMaster(Next(s, a).t, s.t)
    ensures !Moves(s.t, a, spare) ==> Stock(Next(s, a).t.ledger, spare) == Stock(s.t.ledger, spare)
    ensures Moves(s.t, a, spare) ==>
              var size := if a.m.qty < 0.0 then -a.m.qty else a.m.qty;
              Stock(Next(s, a).t.ledger, spare) == Stock(s.t.ledger, spare) +
                (if a.m.txnType == "issue" then -size else if a.m.txnType == "receive" then size else a.m.qty)
  {
    hide Stock, Breached, HasOpenAuto, Signed;
    TypesDiffer();
    if a.Move? {
      TxnMovesStock(s.t, a.m, a.newId, spare);
    }
  }

  /** In every state of every run, stock is what was received, less what was issued, plus the
      adjustments; requests and exports never touch it. */
  lemma {:induction false} StockIsNetMoved(trace: seq<State>, actions: seq<Action>, k: nat, spare: Id)
    requires IsRun(trace, actions) && k < |trace|
    ensures SameMaster(trace[k].t, trace[0].t)
    ensures var t, done := trace[0].t, actions[..k];
            Stock(trace[k].t.ledger, spare) ==
            Handled(t, done, spare, "receive") - Handled(t, done, spare, "issue") + Adjusted(t, done, spare)
  {
    hide Next, Enabled;
    TypesDiffer();
    if k > 0 {
      StockIsNetMoved(trace, actions, k - 1, spare);
      StepMovesStock(trace[k - 1], actions[k - 1], spare);
      assert actions[..k][..k - 1] == actions[..k - 1];
    }
  }

  /** Every auto request, whatever became of it, is for a known spare's positive reorder quantity. */
  ghost predicate AutosSized(t: Tables) {
    forall id :: id in t.requests && t.requests[id].reason == ReorderPoint ==>
      var r := t.requests[id]; r.spare in t.spares && r.qty == t.spares[r.spare].reorderQty > 0.0
  }

  lemma {:induction false} AutosOrderReorderQuantity(trace: seq<State>, actions: seq<Action>, k: nat)
    requires IsRun(trace, actions) && k < |trace|
    ensures AutosSized(trace[k].t)
  {
    if k > 0 {
      AutosOrderReorderQuantity(trace, actions, k - 1);
      hide IsRun, Stock, Signed, HasOpenAuto;
      var s, a := trace[k - 1], actions[k - 1];
      assert Enabled(s, a) && trace[k] == Next(s, a) by {
        StepOf(trace, actions, k);
      }
    }
  }

  lemma StepOf(trace: seq<State>, actions: seq<Action>, k: nat)
    requires IsRun(trace, actions) && 0 < k < |trace|
    ensures Enabled(trace[k - 1], actions[k - 1]) && trace[k] == Next(trace[k - 1], actions[k - 1])
  {
  }

  /** Two auto requests for a spare are always separated by a send of the first to the ERP. */
  lemma AutosSeparatedBySend(trace: seq<State>, actions: seq<Action>, n: nat, i: int, j: int)
    requires IsRun(trace, actions) && n < |trace| && 0 <= i < j < |trace[n].log|
    requires trace[n].log[i].AutoRaised? && trace[n].log[j].AutoRaised?
             && trace[n].log[i].spare == trace[n].log[j].spare
    ensures exists k :: i < k < j && trace[n].log[k].Sent? && trace[n].log[i].request in trace[n].log[k].moved
  {
    RunInv(trace, actions, n);
    assert SentAfter(trace[n].log, i, j, trace[n].log[i].request);
  }

  /** An export moves only rows of its own snapshot, and no row is moved twice. */
  lemma ExportsMoveTheirOwn(trace: seq<State>, actions: seq<Action>, n: nat, k: int)
    requires IsRun(trace, actions) && n < |trace| && 0 <= k < |trace[n].log| && trace[n].log[k].Sent?
    ensures exists j, ids ::
              && 0 <= j < k && trace[n].log[j] == ExportStarted(trace[n].log[k].exportId, ids)
              && trace[n].log[k].moved <= ids
    ensures forall j :: 0 <= j < k && trace[n].log[j].Sent? ==> trace[n].log[j].moved !! trace[n].log[k].moved
  {
    RunInv(trace, actions, n);
    var log := trace[n].log;
    var ids :| Started(log, k, log[k].exportId, ids) && log[k].moved <= ids;
    var j :| 0 <= j < k <= |log| && log[j] == ExportStarted(log[k].exportId, ids);
  }

  // ---- What the ERP receives -----------------------------------------------

  /** Request `id` was marked sent before position `n`. */
  ghost predicate SentBefore(log: seq<Event>, n: int, id: Id) {
    exists k :: 0 <= k < n <= |log| && log[k].Sent? && id in log[k].moved
  }

  /** A request is requested exactly until it is marked sent. */
  ghost predicate StatusBySend(requests: map<Id, Request>, log: seq<Event>) {
    forall id :: id in requests ==>
      requests[id].status == if SentBefore(log, |log|, id) then SentToErp else Requested
  }

  ghost predicate SnapshotsKnown(requests: map<Id, Request>, log: seq<Event>) {
    forall j, id :: 0 <= j < |log| && log[j].ExportStarted? && id in log[j].snapshot ==> id in requests
  }

  /** What one snapshot holds, a later one holds exactly until it is marked sent. */
  ghost predicate SnapshotsExact(log: seq<Event>) {
    forall a, b, id :: 0 <= a < b < |log| && log[a].ExportStarted? && log[b].ExportStarted? && id in log[a].snapshot ==>
      (id in log[b].snapshot <==> !SentBefore(log, b, id))
  }

  /** The log tells how far each export got, and each pushes its own snapshot once. */
  ghost predicate StagesOk(exports: map<nat, Export>, log: seq<Event>) {
    && (forall j :: 0 <= j < |log| && log[j].ExportStarted? ==>
          log[j].exportId in exports && exports[log[j].exportId].snapshot == log[j].snapshot)
    && (forall j :: 0 <= j < |log| && log[j].Pushed? ==>
          && log[j].exportId in exports && exports[log[j].exportId].stage != SnapshotTaken
          && exports[log[j].exportId].snapshot == log[j].ids)
    && (forall i, j :: 0 <= i < j < |log| && log[i].Pushed? && log[j].Pushed? ==> log[i].exportId != log[j].exportId)
  }

  ghost predicate PushInv(s: State) {
    && StatusBySend(s.t.requests, s.log) && SnapshotsKnown(s.t.requests, s.log)
    && SnapshotsExact(s.log) && StagesOk(s.exports, s.log)
  }

  lemma SentBeforeGrows(log: seq<Event>, e: Event, n: int, id: Id)
    requires 0 <= n <= |log|
    ensures SentBefore(log + [e], n, id) <==> SentBefore(log, n, id)
    ensures SentBefore(log + [e], |log| + 1, id) <==> SentBefore(log, |log|, id) || (e.Sent? && id in e.moved)
  {
    var log' := log + [e];
    assert forall k :: 0 <= k < |log| ==> log'[k] == log[k];
    assert log'[|log|] == e;
    if k :| 0 <= k < n && log[k].Sent? && id in log[k].moved {
      assert log'[k].Sent?;
    }
    if k :| 0 <= k < |log| && log[k].Sent? && id in log[k].moved {
      assert log'[k].Sent?;
    }
  }

  lemma StatusGrows(s: State, requests: map<Id, Request>, e: Event)
    requires Inv(s) && StatusBySend(s.t.requests, s.log)
    requires forall id :: id in requests && id in s.t.requests ==>
               requests[id].status == if e.Sent? && id in e.moved then SentToErp else s.t.requests[id].status
    requires forall id :: id in requests && id !in s.t.requests ==> requests[id].status == Requested
    requires e.Sent? ==> e.moved <= s.t.requests.Keys
    ensures StatusBySend(requests, s.log + [e])
  {
    forall id | id in requests
      ensures requests[id].status == if SentBefore(s.log + [e], |s.log| + 1, id) then SentToErp else Requested
    {
      SentBeforeGrows(s.log, e, |s.log|, id);
      if id !in s.t.requests && SentBefore(s.log, |s.log|, id) {
        assert SentOnce(s.t.requests, s.log);
      }
    }
  }

  lemma ExactGrows(s: State, e: Event)
    requires StatusBySend(s.t.requests, s.log) && SnapshotsKnown(s.t.requests, s.log) && SnapshotsExact(s.log)
    requires e.ExportStarted? ==> e.snapshot == RequestedIds(s.t)
    ensures SnapshotsExact(s.log + [e])
  {
    hide SentBefore;
    var log' := s.log + [e];
    forall a, b, id | 0 <= a < b < |log'| && log'[a].ExportStarted? && log'[b].ExportStarted? && id in log'[a].snapshot
      ensures id in log'[b].snapshot <==> !SentBefore(log', b, id)
    {
      assert log'[a] == s.log[a];
      SentBeforeGrows(s.log, e, b, id);
      if b < |s.log| {
        assert log'[b] == s.log[b];
      }
    }
  }

  lemma KnownGrows(requests: map<Id, Request>, more: map<Id, Request>, log: seq<Event>, e: Event)
    requires SnapshotsKnown(requests, log) && requests.Keys <= more.Keys
    requires e.ExportStarted? ==> e.snapshot <= more.Keys
    ensures SnapshotsKnown(more, log + [e])
  {
  }

  /** A step that writes event `e` and leaves exports alone. */
  lemma WritesEvent(s: State, t: Tables, e: Event)
    requires Inv(s) && PushInv(s) && e.AutoRaised? && s.t.requests.Keys <= t.requests.Keys
    requires forall id :: id in s.t.requests ==> t.requests[id].status == s.t.requests[id].status
    requires forall id :: id in t.requests && id !in s.t.requests ==> t.requests[id].status == Requested
    ensures PushInv(s.(t := t, log := s.log + [e]))
  {
    hide Inv, SnapshotsExact, SentBefore;
    StatusGrows(s, t.requests, e);
    KnownGrows(s.t.requests, t.requests, s.log, e);
    ExactGrows(s, e);
  }

  lemma AddsRequest(s: State, t: Tables, id: Id)
    requires Inv(s) && PushInv(s) && s.t.requests.Keys <= t.requests.Keys <= s.t.requests.Keys + {id}
    requires forall x :: x in s.t.requests ==> t.requests[x].status == s.t.requests[x].status
    requires id in t.requests && id !in s.t.requests ==> t.requests[id].status == Requested
    ensures PushInv(s.(t := t))
  {
    hide SnapshotsExact, StagesOk;
    assert SentOnce(s.t.requests, s.log);
  }

  lemma StepKeepsPushes(s: State, a: Action)
    requires Inv(s) && PushInv(s) && Enabled(s, a)
    ensures PushInv(Next(s, a))
  {
    hide Inv, PushInv, Stock, Breached, HasOpenAuto, Signed;
    match a
    case Move(m, newId) =>
      if RecordTxn(s.t, m, newId).Ok? {
        var (t, _, raised) := RecordTxn(s.t, m, newId).value;
        if raised {
          WritesEvent(s, t, AutoRaised(newId, m.spare));
        } else {
          AddsRequest(s, t, newId);
        }
      }
    case Ask(spare, amount, newId) =>
      if CreateRequest(s.t, spare, amount, newId).Ok? {
        AddsRequest(s, CreateRequest(s.t, spare, amount, newId).value, newId);
      }
    case StartExport(e) => StartKeepsPushes(s, e);
    case PushExport(e) => PushKeepsPushes(s, e);
    case MarkExport(e, reference) => MarkKeepsPushes(s, e, reference);
  }

  lemma StartKeepsPushes(s: State, x: nat)
    requires Inv(s) && PushInv(s) && x !in s.exports
    ensures PushInv(Next(s, StartExport(x)))
  {
    hide Inv, SnapshotsExact, SentBefore;
    var e := ExportStarted(x, RequestedIds(s.t));
    StatusGrows(s, s.t.requests, e);
    KnownGrows(s.t.requests, s.t.requests, s.log, e);
    ExactGrows(s, e);
  }

  lemma PushKeepsPushes(s: State, x: nat)
    requires Inv(s) && PushInv(s) && x in s.exports && s.exports[x].stage == SnapshotTaken
    ensures PushInv(Next(s, PushExport(x)))
  {
    hide Inv, SnapshotsExact, SentBefore;
    var e := Pushed(x, s.exports[x].snapshot);
    StatusGrows(s, s.t.requests, e);
    KnownGrows(s.t.requests, s.t.requests, s.log, e);
    ExactGrows(s, e);
  }

  lemma MarkKeepsPushes(s: State, x: nat, reference: Option<string>)
    requires Inv(s) && PushInv(s) && x in s.exports && s.exports[x].stage == Received
    ensures PushInv(Next(s, MarkExport(x, reference)))
  {
    hide Inv, SnapshotsExact, SentBefore;
    var ids := s.exports[x].snapshot;
    var t, e := MarkSent(s.t, ids, reference), Sent(x, Moved(s.t, ids));
    StatusGrows(s, t.requests, e);
    KnownGrows(s.t.requests, t.requests, s.log, e);
    ExactGrows(s, e);
  }

  lemma {:induction false} RunPushes(trace: seq<State>, actions: seq<Action>, k: nat)
    requires IsRun(trace, actions) && k < |trace|
    ensures Inv(trace[k]) && PushInv(trace[k])
  {
    RunInv(trace, actions, k);
    if k > 0 {
      hide Inv, PushInv, Next, Enabled;
      RunPushes(trace, actions, k - 1);
      StepOf(trace, actions, k);
      StepKeepsPushes(trace[k - 1], actions[k - 1]);
    }
  }

  /** Every push is of the snapshot its own export took before, and no export pushes twice. */
  lemma PushIsOwnSnapshot(trace: seq<State>, actions: seq<Action>, n: nat, p: int)
    requires IsRun(trace, actions) && n < |trace| && 0 <= p < |trace[n].log| && trace[n].log[p].Pushed?
    ensures Started(trace[n].log, |trace[n].log|, trace[n].log[p].exportId, trace[n].log[p].ids)
    ensures forall q :: 0 <= q < |trace[n].log| && q != p && trace[n].log[q].Pushed? ==>
              trace[n].log[q].exportId != trace[n].log[p].exportId
  {
    RunPushes(trace, actions, n);
  }

  /** Of two exports that both push, the one that starts first pushes request `id`.  The other
      pushes it a second time exactly when it took its snapshot before `id` was marked sent. */
  lemma PushedTwiceIff(trace: seq<State>, actions: seq<Action>, n: nat, a: int, b: int, p: int, q: int, id: Id)
    requires IsRun(trace, actions) && n < |trace|
    requires var log := trace[n].log;
             && 0 <= a < b < |log| && log[a].ExportStarted? && log[b].ExportStarted? && id in log[a].snapshot
             && 0 <= p < |log| && log[p].Pushed? && log[p].exportId == log[a].exportId
             && 0 <= q < |log| && log[q].Pushed? && log[q].exportId == log[b].exportId
    ensures id in trace[n].log[p].ids
    ensures id in trace[n].log[q].ids <==> !SentBefore(trace[n].log, b, id)
  {
    RunPushes(trace, actions, n);
    hide IsRun, Inv, SentBefore;
  }

  /** Two overlapping exports: the ERP receives request "r" twice, and it is marked once. */
  lemma PushedTwiceReachable() returns (trace: seq<State>, actions: seq<Action>)
    ensures IsRun(trace, actions) && |actions| == 7
    ensures trace[7].log == [ExportStarted(0, {"r"}), ExportStarted(1, {"r"}), Pushed(0, {"r"}), Sent(0, {"r"}),
                             Pushed(1, {"r"}), Sent(1, {})]
  {
    var open := Request("s", 1.0, Manual, Requested, None);
    var t := Tables(map["s" := Spare(0.0, 0.0)], {}, {}, [], map[]);
    var s0 := State(t, map[], []);
    trace, actions := [s0], [];
    var s1 := s0.(t := t.(requests := map["r" := open]));
    assert Enabled(s0, Ask("s", 1.0, "r")) && Next(s0, Ask("s", 1.0, "r")) == s1;
    trace, actions := RunOn(trace, actions, Ask("s", 1.0, "r"));
    hide Next, Enabled, IsRun;
    StartOne(s1, 0, open);
    trace, actions := RunOn(trace, actions, StartExport(0));
    var s2 := trace[2];
    StartOne(s2, 1, open);
    trace, actions := RunOn(trace, actions, StartExport(1));
    var s3 := trace[3];
    PushOne(s3, 0);
    trace, actions := RunOn(trace, actions, PushExport(0));
    var s4 := trace[4];
    MarkOne(s4, 0, open);
    trace, actions := RunOn(trace, actions, MarkExport(0, None));
    var s5 := trace[5];
    PushOne(s5, 1);
    trace, actions := RunOn(trace, actions, PushExport(1));
    var s6 := trace[6];
    MarkOne(s6, 1, open.(status := SentToErp));
    trace, actions := RunOn(trace, actions, MarkExport(1, None));
  }

  lemma RunOn(trace: seq<State>, actions: seq<Action>, a: Action) returns (trace': seq<State>, actions': seq<Action>)
    requires IsRun(trace, actions) && Enabled(trace[|actions|], a)
    ensures IsRun(trace', actions') && |actions'| == |actions| + 1
    ensures trace'[|actions'|] == Next(trace[|actions|], a)
  {
    trace', actions' := trace + [Next(trace[|actions|], a)], actions + [a];
    hide Next, Enabled;
  }

  /** The steps of an export while "r" is the only request. */
  lemma StartOne(s: State, e: nat, r: Request)
    requires s.t.requests == map["r" := r] && r.status == Requested && e !in s.exports
    ensures Enabled(s, StartExport(e))
    ensures Next(s, StartExport(e)) == s.(exports := s.exports[e := Export({"r"}, SnapshotTaken)],
                                          log := s.log + [ExportStarted(e, {"r"})])
  {
    assert RequestedIds(s.t) == {"r"};
  }

  lemma PushOne(s: State, e: nat)
    requires e in s.exports && s.exports[e] == Export({"r"}, SnapshotTaken)
    ensures Enabled(s, PushExport(e))
    ensures Next(s, PushExport(e)) == s.(exports := s.exports[e := Export({"r"}, Received)],
                                         log := s.log + [Pushed(e, {"r"})])
  {
  }

  lemma MarkOne(s: State, e: nat, r: Request)
    requires s.t.requests == map["r" := r] && r.status != Fulfilled
    requires e in s.exports && s.exports[e] == Export({"r"}, Received)
    ensures Enabled(s, MarkExport(e, None))
    ensures Next(s, MarkExport(e, None)) == s.(t := s.t.(requests := map["r" := r.(status := SentToErp)]),
                                               exports := s.exports[e := Export({"r"}, RowsMarked)],
                                               log := s.log + [Sent(e, if r.status == Requested then {"r"} else {})])
  {
    assert Moved(s.t, {"r"}) == if r.status == Requested then {"r"} else {};
    assert MarkSent(s.t, {"r"}, None).requests == map["r" := r.(status := SentToErp)];
  }
}
