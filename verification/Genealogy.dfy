/** Lot and serial genealogy, and the depth-bounded recursive traces over it. */
module Genealogy {
  import opened Prelude

  datatype Entity = Entity(kind: string, id: string)

  /** A parent (assembly) consumed a child (component). */
  datatype Edge = Edge(parent: Entity, child: Entity)

  /** The genealogy table, keyed by its unique pair. */
  type Table = map<Edge, Option<real>>

  /** `ON CONFLICT DO NOTHING`: the first quantity stays. */
  function AddGenealogy(g: Table, e: Edge, qty: Option<real>): (g': Table)
    ensures g'.Keys == g.Keys + {e} && (forall x :: x in g ==> g'[x] == g[x])
    ensures e !in g ==> g'[e] == qty
  {
    if e in g then g else g[e := qty]
  }

  // ---- The recursive query -------------------------------------------------

  const MAX_DEPTH := 64

  datatype Row = Row(entity: Entity, depth: nat)

  /** One step from an entity: to its components (backward) or to its assemblies (forward). */
  type Arcs = set<(Entity, Entity)>

  function Down(g: Table): Arcs {
    set e | e in g :: (e.parent, e.child)
  }

  function Up(g: Table): Arcs {
    set e | e in g :: (e.child, e.parent)
  }

  /** The rows the `k`-th iteration of `WITH RECURSIVE` adds (multiplicities do not matter:
      the outer query groups by entity). */
  function Working(arcs: Arcs, start: Entity, k: nat): set<Row>
    requires k >= 1
  {
    if k == 1 then set a | a in arcs && a.0 == start :: Row(a.1, 1)
    else Joined(arcs, Working(arcs, start, k - 1))
  }

  /** The recursive term: the previous rows joined with the genealogy, below the depth bound. */
  function Joined(arcs: Arcs, prev: set<Row>): set<Row> {
    set a, r | a in arcs && r in prev && r.entity == a.0 && r.depth < MAX_DEPTH :: Row(a.1, r.depth + 1)
  }

  lemma JoinedRow(arcs: Arcs, prev: set<Row>, x: Entity, d: nat)
    ensures Row(x, d) in Joined(arcs, prev) <==>
            1 <= d <= MAX_DEPTH && exists c :: (c, x) in arcs && Row(c, d - 1) in prev
  {
    if Row(x, d) in Joined(arcs, prev) {
      var a, r :| a in arcs && r in prev && r.entity == a.0 && r.depth < MAX_DEPTH
          && Row(x, d) == Row(a.1, r.depth + 1);
      assert (a.0, x) in arcs && r == Row(a.0, d - 1);
    }
    if 1 <= d <= MAX_DEPTH && exists c :: (c, x) in arcs && Row(c, d - 1) in prev {
      var c :| (c, x) in arcs && Row(c, d - 1) in prev;
      var a, r := (c, x), Row(c, d - 1);
      assert a in arcs && r in prev && r.entity == a.0 && r.depth < MAX_DEPTH && Row(x, d) == Row(a.1, r.depth + 1);
    }
  }

  /** All rows of the recursive table; iteration 65 adds none. */
  function AllRows(arcs: Arcs, start: Entity, k: nat): set<Row> {
    if k == 0 then {} else AllRows(arcs, start, k - 1) + Working(arcs, start, k)
  }

  /** `SELECT entity, MIN(depth) ... GROUP BY entity`. */
  function Trace(arcs: Arcs, start: Entity): map<Entity, nat> {
    var rows := AllRows(arcs, start, MAX_DEPTH);
    map r | r in rows :: r.entity := MinDepth(rows, r.entity, MAX_DEPTH)
  }

  /** The least depth up to `n` at which the entity has a row, or 0. */
  function MinDepth(rows: set<Row>, x: Entity, n: nat): nat {
    if n == 0 then 0
    else
      var d := MinDepth(rows, x, n - 1);
      if d > 0 then d else if Row(x, n) in rows then n else 0
  }

  function TraceBackward(g: Table, start: Entity): map<Entity, nat> {
    Trace(Down(g), start)
  }

  function TraceForward(g: Table, start: Entity): map<Entity, nat> {
    Trace(Up(g), start)
  }

  // ---- Walks ---------------------------------------------------------------

  ghost predicate IsWalk(arcs: Arcs, w: seq<Entity>) {
    w != [] && forall i :: 0 <= i < |w| - 1 ==> (w[i], w[i + 1]) in arcs
  }

  /** A walk of `n` arcs leads from `a` to `b`. */
  ghost predicate Reaches(arcs: Arcs, a: Entity, b: Entity, n: nat) {
    exists w :: IsWalk(arcs, w) && |w| == n + 1 && w[0] == a && w[n] == b
  }

  lemma ReachesOne(arcs: Arcs, a: Entity, b: Entity)
    ensures Reaches(arcs, a, b, 1) <==> (a, b) in arcs
  {
    if (a, b) in arcs {
      assert IsWalk(arcs, [a, b]);
    }
    if Reaches(arcs, a, b, 1) {
      var w :| IsWalk(arcs, w) && |w| == 2 && w[0] == a && w[1] == b;
      assert (w[0], w[0 + 1]) in arcs;
    }
  }

  lemma ReachesMore(arcs: Arcs, a: Entity, b: Entity, n: nat)
    requires n >= 1
    ensures Reaches(arcs, a, b, n + 1) <==> exists c :: Reaches(arcs, a, c, n) && (c, b) in arcs
  {
    if Reaches(arcs, a, b, n + 1) {
      var w :| IsWalk(arcs, w) && |w| == n + 2 && w[0] == a && w[n + 1] == b;
      var w' := w[..n + 1];
      assert IsWalk(arcs, w');
      assert Reaches(arcs, a, w[n], n);
      assert (w[n], w[n + 1]) in arcs;
    }
    if c :| Reaches(arcs, a, c, n) && (c, b) in arcs {
      var w :| IsWalk(arcs, w) && |w| == n + 1 && w[0] == a && w[n] == c;
      assert IsWalk(arcs, w + [b]);
    }
  }

  /** Iteration `k` yields the entities reached by a walk of exactly `k` arcs. */
  lemma {:induction false} WorkingIsReach(arcs: Arcs, start: Entity, k: nat, r: Row)
    requires 1 <= k <= MAX_DEPTH
    ensures r in Working(arcs, start, k) <==> r.depth == k && Reaches(arcs, start, r.entity, k)
  {
    hide Reaches, Joined;
    if k == 1 {
      ReachesOne(arcs, start, r.entity);
    } else {
      var prev := Working(arcs, start, k - 1);
      JoinedRow(arcs, prev, r.entity, r.depth);
      ReachesMore(arcs, start, r.entity, k - 1);
      forall c, d: nat ensures Row(c, d) in prev <==> d == k - 1 && Reaches(arcs, start, c, k - 1) {
        WorkingIsReach(arcs, start, k - 1, Row(c, d));
      }
      assert r == Row(r.entity, r.depth);
    }
  }

  /** The recursion stops: after depth 64 the working table is empty. */
  lemma QueryStops(arcs: Arcs, start: Entity)
    ensures Working(arcs, start, MAX_DEPTH + 1) == {}
  {
    forall r | r in Working(arcs, start, MAX_DEPTH) ensures r.depth == MAX_DEPTH {
      WorkingIsReach(arcs, start, MAX_DEPTH, r);
    }
  }

  lemma {:induction false} AllRowsIsReach(arcs: Arcs, start: Entity, k: nat, r: Row)
    requires k <= MAX_DEPTH
    ensures r in AllRows(arcs, start, k) <==> 1 <= r.depth <= k && Reaches(arcs, start, r.entity, r.depth)
  {
    if k > 0 {
      AllRowsIsReach(arcs, start, k - 1, r);
      WorkingIsReach(arcs, start, k, r);
    }
  }

  lemma {:induction false} MinDepthIsLeast(rows: set<Row>, x: Entity, n: nat)
    ensures var d := MinDepth(rows, x, n);
            && d <= n
            && (d > 0 ==> Row(x, d) in rows && forall e :: 0 < e < d ==> Row(x, e) !in rows)
            && (d == 0 ==> forall e :: 0 < e <= n ==> Row(x, e) !in rows)
  {
    if n > 0 {
      MinDepthIsLeast(rows, x, n - 1);
    }
  }

  /** `d` is the length of a shortest walk of at least one arc, and at most 64. */
  ghost predicate ShortestWithin(arcs: Arcs, a: Entity, x: Entity, d: nat) {
    1 <= d <= MAX_DEPTH && Reaches(arcs, a, x, d) && forall e :: 1 <= e < d ==> !Reaches(arcs, a, x, e)
  }

  /** On any graph, cycles included, the trace lists exactly the entities reachable by a walk
      of 1 to 64 arcs, each once, with its shortest-walk length as depth. */
  lemma TraceMeaning(arcs: Arcs, a: Entity, x: Entity, d: nat)
    ensures x in Trace(arcs, a) && Trace(arcs, a)[x] == d <==> ShortestWithin(arcs, a, x, d)
    ensures x in Trace(arcs, a) <==> exists n :: 1 <= n <= MAX_DEPTH && Reaches(arcs, a, x, n)
  {
    hide Reaches, Trace, AllRows, MinDepth;
    var rows := AllRows(arcs, a, MAX_DEPTH);
    MinDepthIsLeast(rows, x, MAX_DEPTH);
    forall n: nat ensures Row(x, n) in rows <==> 1 <= n <= MAX_DEPTH && Reaches(arcs, a, x, n) {
      AllRowsIsReach(arcs, a, MAX_DEPTH, Row(x, n));
    }
    TraceEntry(arcs, a, x);
  }

  lemma TraceEntry(arcs: Arcs, a: Entity, x: Entity)
    ensures var rows := AllRows(arcs, a, MAX_DEPTH);
            && (x in Trace(arcs, a) <==> exists n :: Row(x, n) in rows)
            && (x in Trace(arcs, a) ==> Trace(arcs, a)[x] == MinDepth(rows, x, MAX_DEPTH))
  {
    var rows := AllRows(arcs, a, MAX_DEPTH);
    if n :| Row(x, n) in rows {
      assert Row(x, n).entity == x;
    }
    if x in Trace(arcs, a) {
      var r :| r in rows && r.entity == x;
      assert r == Row(x, r.depth);
    }
  }

  // ---- Duality and monotonicity --------------------------------------------

  lemma ReverseWalk(g: Table, a: Entity, b: Entity, n: nat)
    ensures Reaches(Down(g), a, b, n) ==> Reaches(Up(g), b, a, n)
    ensures Reaches(Up(g), b, a, n) ==> Reaches(Down(g), a, b, n)
  {
    if Reaches(Down(g), a, b, n) {
      var w :| IsWalk(Down(g), w) && |w| == n + 1 && w[0] == a && w[n] == b;
      var v := seq(n + 1, i requires 0 <= i <= n => w[n - i]);
      forall i | 0 <= i < n ensures (v[i], v[i + 1]) in Up(g) {
        assert (w[n - i - 1], w[n - i - 1 + 1]) in Down(g);
        assert Edge(v[i + 1], v[i]) in g;
      }
      assert IsWalk(Up(g), v);
    }
    if Reaches(Up(g), b, a, n) {
      var w :| IsWalk(Up(g), w) && |w| == n + 1 && w[0] == b && w[n] == a;
      var v := seq(n + 1, i requires 0 <= i <= n => w[n - i]);
      forall i | 0 <= i < n ensures (v[i], v[i + 1]) in Down(g) {
        assert (w[n - i - 1], w[n - i - 1 + 1]) in Up(g);
        assert Edge(v[i], v[i + 1]) in g;
      }
      assert IsWalk(Down(g), v);
    }
  }

  /** `b` appears at depth `d` in the backward trace of `a` iff `a` appears at depth `d` in
      the forward trace of `b`. */
  lemma TraceDuality(g: Table, a: Entity, b: Entity, d: nat)
    ensures b in TraceBackward(g, a) && TraceBackward(g, a)[b] == d <==>
            a in TraceForward(g, b) && TraceForward(g, b)[a] == d
  {
    TraceMeaning(Down(g), a, b, d);
    TraceMeaning(Up(g), b, a, d);
    forall n: nat ensures Reaches(Down(g), a, b, n) <==> Reaches(Up(g), b, a, n) {
      ReverseWalk(g, a, b, n);
    }
  }

  lemma ReachesMonotone(arcs: Arcs, more: Arcs, a: Entity, b: Entity, n: nat)
    requires arcs <= more && Reaches(arcs, a, b, n)
    ensures Reaches(more, a, b, n)
  {
    var w :| IsWalk(arcs, w) && |w| == n + 1 && w[0] == a && w[n] == b;
    assert IsWalk(more, w);
  }

  lemma TraceGrows(arcs: Arcs, more: Arcs, a: Entity, x: Entity)
    requires arcs <= more && x in Trace(arcs, a)
    ensures x in Trace(more, a) && Trace(more, a)[x] <= Trace(arcs, a)[x]
  {
    var d := Trace(arcs, a)[x];
    TraceMeaning(arcs, a, x, d);
    ReachesMonotone(arcs, more, a, x, d);
    TraceMeaning(more, a, x, d);
    TraceMeaning(more, a, x, Trace(more, a)[x]);
  }

  /** Recording one more edge never removes an entity from a trace, backward or forward, and
      never increases its depth. */
  lemma TraceMonotone(g: Table, e: Edge, qty: Option<real>, a: Entity, x: Entity)
    ensures var g' := AddGenealogy(g, e, qty);
            && (x in TraceBackward(g, a) ==>
                  x in TraceBackward(g', a) && TraceBackward(g', a)[x] <= TraceBackward(g, a)[x])
            && (x in TraceForward(g, a) ==>
                  x in TraceForward(g', a) && TraceForward(g', a)[x] <= TraceForward(g, a)[x])
  {
    var g' := AddGenealogy(g, e, qty);
    hide Trace;
    if x in TraceBackward(g, a) {
      TraceGrows(Down(g), Down(g'), a, x);
    }
    if x in TraceForward(g, a) {
      TraceGrows(Up(g), Up(g'), a, x);
    }
  }

  /** A chain of `n` recorded edges leads from assembly `a` down to component `x`. */
  ghost predicate ConsumedIn(g: Table, a: Entity, x: Entity, n: nat) {
    exists w :: |w| == n + 1 && w[0] == a && w[n] == x && forall i :: 0 <= i < n ==> LinkIn(g, w, i)
  }

  predicate LinkIn(g: Table, w: seq<Entity>, i: int)
    requires 0 <= i < |w| - 1
  {
    Edge(w[i], w[i + 1]) in g
  }

  lemma ConsumedIsReach(g: Table, a: Entity, x: Entity, n: nat)
    ensures ConsumedIn(g, a, x, n) <==> Reaches(Down(g), a, x, n)
  {
    if ConsumedIn(g, a, x, n) {
      var w :| |w| == n + 1 && w[0] == a && w[n] == x && forall i :: 0 <= i < n ==> LinkIn(g, w, i);
      forall i | 0 <= i < |w| - 1 ensures (w[i], w[i + 1]) in Down(g) {
        assert LinkIn(g, w, i) && Edge(w[i], w[i + 1]) in g;
      }
      assert IsWalk(Down(g), w);
    }
    if Reaches(Down(g), a, x, n) {
      var w :| IsWalk(Down(g), w) && |w| == n + 1 && w[0] == a && w[n] == x;
      forall i | 0 <= i < n ensures LinkIn(g, w, i) {
        assert (w[i], w[i + 1]) in Down(g);
      }
    }
  }

  /** The backward trace of an assembly lists the components it consumed, directly or through
      others, within 64 edges, each at its least distance; by `TraceDuality` the forward trace
      of a component lists the assemblies that consumed it. */
  lemma BackwardMeaning(g: Table, a: Entity, x: Entity, d: nat)
    ensures x in TraceBackward(g, a) && TraceBackward(g, a)[x] == d <==>
            1 <= d <= 64 && ConsumedIn(g, a, x, d) && forall e :: 1 <= e < d ==> !ConsumedIn(g, a, x, e)
  {
    hide ConsumedIn, Reaches, Trace, Down;
    TraceMeaning(Down(g), a, x, d);
    forall n: nat ensures ConsumedIn(g, a, x, n) <==> Reaches(Down(g), a, x, n) {
      ConsumedIsReach(g, a, x, n);
    }
  }

  // ---- Completeness on graphs of at most 64 entities -----------------------

  ghost predicate NoRepeat(s: seq<Entity>) {
    forall i, j :: 0 <= i < j < |s| ==> s[i] != s[j]
  }

  lemma {:induction false} Pigeonhole(s: seq<Entity>, v: set<Entity>)
    requires NoRepeat(s) && forall x :: x in s ==> x in v
    ensures |s| <= |v|
  {
    if s != [] {
      var init, x := s[..|s| - 1], s[|s| - 1];
      assert s == init + [x];
      Pigeonhole(init, v - {x});
    }
  }

  /** A walk that visits an entity twice after its start can skip the loop. */
  lemma CutLoop(arcs: Arcs, w: seq<Entity>, i: nat, j: nat)
    requires IsWalk(arcs, w) && 1 <= i < j < |w| && w[i] == w[j]
    ensures var v := w[..i] + w[j..];
            IsWalk(arcs, v) && |v| >= 2 && |v| < |w| && v[0] == w[0] && v[|v| - 1] == w[|w| - 1]
  {
    var v := w[..i] + w[j..];
    forall k | 0 <= k < |v| - 1 ensures (v[k], v[k + 1]) in arcs {
      if k + 1 < i {
        assert (w[k], w[k + 1]) in arcs;
      } else if k + 1 == i {
        assert v[k] == w[i - 1] && v[k + 1] == w[j];
        assert (w[i - 1], w[i - 1 + 1]) in arcs;
      } else {
        var m := k - i + j;
        assert v[k] == w[m] && v[k + 1] == w[m + 1];
        assert (w[m], w[m + 1]) in arcs;
      }
    }
  }

  /** Whatever can be reached can be reached within as many arcs as there are entities. */
  lemma {:induction false} ShortWalk(arcs: Arcs, v: set<Entity>, w: seq<Entity>) returns (n: nat)
    requires IsWalk(arcs, w) && |w| >= 2
    requires forall a :: a in arcs ==> a.0 in v && a.1 in v
    ensures 1 <= n <= |v| && Reaches(arcs, w[0], w[|w| - 1], n)
    decreases |w|
  {
    if NoRepeat(w[1..]) {
      forall x | x in w[1..] ensures x in v {
        var i :| 0 <= i < |w[1..]| && w[1..][i] == x;
        assert (w[i], w[i + 1]) in arcs;
      }
      Pigeonhole(w[1..], v);
      n := |w| - 1;
    } else {
      var i, j :| 0 <= i < j < |w[1..]| && w[1..][i] == w[1..][j];
      CutLoop(arcs, w, i + 1, j + 1);
      n := ShortWalk(arcs, v, w[..i + 1] + w[j + 1..]);
    }
  }

  /** On a graph of at most 64 entities the backward trace is complete: it holds every entity
      reachable by a walk of any length. */
  lemma TraceComplete(g: Table, v: set<Entity>, a: Entity, x: Entity, n: nat)
    requires forall e :: e in g ==> e.parent in v && e.child in v
    requires |v| <= MAX_DEPTH && n >= 1 && Reaches(Down(g), a, x, n)
    ensures x in TraceBackward(g, a)
  {
    var w :| IsWalk(Down(g), w) && |w| == n + 1 && w[0] == a && w[n] == x;
    var m := ShortWalk(Down(g), v, w);
    assert Reaches(Down(g), a, x, m);
    TraceMeaning(Down(g), a, x, 1);
  }

  /** A walk of 1 to 64 arcs leads from `a` to `x`. */
  ghost predicate Within(arcs: Arcs, a: Entity, x: Entity) {
    exists n :: 1 <= n <= MAX_DEPTH && Reaches(arcs, a, x, n)
  }

  lemma {:induction false} ShorterWalk(arcs: Arcs, a: Entity, x: Entity, n: nat)
    requires forall y :: Reaches(arcs, a, y, MAX_DEPTH + 1) ==> Within(arcs, a, y)
    requires n >= 1 && Reaches(arcs, a, x, n)
    ensures Within(arcs, a, x)
    decreases n
  {
    hide Reaches;
    if n > MAX_DEPTH {
      ReachesMore(arcs, a, x, n - 1);
      var c :| Reaches(arcs, a, c, n - 1) && (c, x) in arcs;
      ShorterWalk(arcs, a, c, n - 1);
      var m :| 1 <= m <= MAX_DEPTH && Reaches(arcs, a, c, m);
      ReachesMore(arcs, a, x, m);
      assert Reaches(arcs, a, x, m + 1);
    }
  }

  /** The trace of `a` holds everything reachable exactly when whatever a walk of 65 arcs
      reaches, a walk of 1 to 64 arcs reaches too. */
  lemma TraceCompleteIff(arcs: Arcs, a: Entity)
    ensures (forall x, n: nat :: n >= 1 && Reaches(arcs, a, x, n) ==> x in Trace(arcs, a)) <==>
            forall x :: Reaches(arcs, a, x, MAX_DEPTH + 1) ==> Within(arcs, a, x)
  {
    hide Reaches, Trace;
    forall x ensures x in Trace(arcs, a) <==> Within(arcs, a, x) {
      TraceMeaning(arcs, a, x, 1);
    }
    if forall x :: Reaches(arcs, a, x, MAX_DEPTH + 1) ==> Within(arcs, a, x) {
      forall x, n: nat | n >= 1 && Reaches(arcs, a, x, n) ensures x in Trace(arcs, a) {
        ShorterWalk(arcs, a, x, n);
      }
    }
  }

  // ---- Beyond 64 -----------------------------------------------------------

  function Link(i: nat): Entity {
    Entity("lot", seq(i, _ => 'x'))
  }

  lemma LinksDiffer(i: nat, j: nat)
    ensures Link(i) == Link(j) ==> i == j
  {
    assert |Link(i).id| == i && |Link(j).id| == j;
  }

  /** A chain of `n` edges. */
  function Chain(n: nat): Table {
    if n == 0 then map[] else Chain(n - 1)[Edge(Link(n - 1), Link(n)) := None]
  }

  lemma {:induction false} ChainEdges(n: nat, e: Edge)
    ensures e in Chain(n) <==> exists i: nat :: i < n && e == Edge(Link(i), Link(i + 1))
  {
    if n > 0 {
      ChainEdges(n - 1, e);
      if e == Edge(Link(n - 1), Link(n)) {
        assert n - 1 < n && e == Edge(Link(n - 1), Link(n - 1 + 1));
      }
    }
  }

  lemma {:induction false} ChainWalk(n: nat, w: seq<Entity>, k: nat)
    requires IsWalk(Down(Chain(n)), w) && w[0] == Link(0) && k < |w|
    ensures w[k] == Link(k)
  {
    if k > 0 {
      ChainWalk(n, w, k - 1);
      var a := (w[k - 1], w[k - 1 + 1]);
      assert a in Down(Chain(n));
      var e :| e in Chain(n) && a == (e.parent, e.child);
      ChainEdges(n, e);
      var i: nat :| i < n && e == Edge(Link(i), Link(i + 1));
      LinksDiffer(i, k - 1);
    }
  }

  /** The bound is felt beyond 64: the far end of a chain of 65 edges is reachable but missing. */
  lemma TraceMissesDeep()
    ensures Reaches(Down(Chain(65)), Link(0), Link(65), 65)
    ensures Link(65) !in TraceBackward(Chain(65), Link(0))
  {
    var arcs := Down(Chain(65));
    var w := seq(66, i requires 0 <= i < 66 => Link(i));
    forall i | 0 <= i < 65 ensures (w[i], w[i + 1]) in arcs {
      ChainEdges(65, Edge(Link(i), Link(i + 1)));
      assert Edge(Link(i), Link(i + 1)) in Chain(65);
    }
    assert IsWalk(arcs, w) && |w| == 66 && w[0] == Link(0) && w[65] == Link(65);
    forall n: nat | n <= MAX_DEPTH ensures !Reaches(arcs, Link(0), Link(65), n) {
      if Reaches(arcs, Link(0), Link(65), n) {
        var v :| IsWalk(arcs, v) && |v| == n + 1 && v[0] == Link(0) && v[n] == Link(65);
        ChainWalk(65, v, n);
        LinksDiffer(n, 65);
      }
    }
    TraceMeaning(arcs, Link(0), Link(65), 1);
  }
}
