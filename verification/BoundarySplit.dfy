/** Cutting a timeline at boundaries, such as shift changes. */
module BoundarySplit {
  import opened Prelude
  import opened Timeline
  import opened Sorting

  /** How many listed boundaries lie strictly inside `iv`, repeated ones counted each time. */
  function InnerCount(boundaries: seq<int>, iv: StateInterval): nat {
    if boundaries == [] then 0
    else
      var b := boundaries[|boundaries| - 1];
      InnerCount(boundaries[..|boundaries| - 1], iv) + (if iv.start < b < iv.end then 1 else 0)
  }

  lemma {:induction false} InnerCountSelects(boundaries: seq<int>, iv: StateInterval, inside: int -> bool)
    requires forall b :: inside(b) <==> iv.start < b < iv.end
    ensures |Select(boundaries, inside)| == InnerCount(boundaries, iv)
  {
    if boundaries != [] {
      InnerCountSelects(boundaries[..|boundaries| - 1], iv, inside);
    }
  }

  /** The boundaries strictly inside `iv`, in ascending order. */
  function InnerCuts(boundaries: seq<int>, iv: StateInterval): (cuts: seq<int>)
    ensures Ascending(cuts)
    ensures forall b :: b in cuts <==> b in boundaries && iv.start < b < iv.end
    ensures forall b :: iv.start < b < iv.end ==> multiset(cuts)[b] == multiset(boundaries)[b]
    ensures |cuts| == InnerCount(boundaries, iv)
  {
    var inside := (b: int) => iv.start < b < iv.end;
    var chosen := Select(boundaries, inside);
    var cuts := SortBy(chosen, (a: int, b: int) => a <= b);
    SameMembers(cuts, chosen);
    InnerCountSelects(boundaries, iv, inside);
    assert forall b :: iv.start < b < iv.end ==> multiset(chosen)[b] == multiset(boundaries)[b] by {
      forall b | inside(b) ensures multiset(chosen)[b] == multiset(boundaries)[b] {
        SelectCounts(boundaries, inside, b);
      }
    }
    cuts
  }

  function Edge(start: int, cuts: seq<int>): int {
    if cuts == [] then start else cuts[|cuts| - 1]
  }

  /** The pieces closed by `cuts`, from `start` to the last cut. */
  function Pieces(state: MachineState, start: int, cuts: seq<int>): seq<StateInterval> {
    if cuts == [] then []
    else
      var init := cuts[..|cuts| - 1];
      Pieces(state, start, init) + [StateInterval(state, Edge(start, init), cuts[|cuts| - 1])]
  }

  ghost predicate Straddles(x: StateInterval, b: int) {
    x.start < b < x.end
  }

  /** All pieces lie in order between `lo` and `hi`. */
  ghost predicate InOrder(ivs: seq<StateInterval>, lo: int, hi: int) {
    && (forall i :: 0 <= i < |ivs| ==> lo <= ivs[i].start <= ivs[i].end <= hi)
    && (forall i, j :: 0 <= i < j < |ivs| ==> ivs[i].end <= ivs[j].start)
  }

  ghost predicate HasEmpty(ivs: seq<StateInterval>) {
    exists x :: x in ivs && x.start == x.end
  }

  lemma EdgeBound(start: int, cuts: seq<int>)
    requires Ascending([start] + cuts)
    ensures start <= Edge(start, cuts)
    ensures forall b :: b in cuts ==> start <= b <= Edge(start, cuts)
    ensures cuts != [] ==>
              Ascending([start] + cuts[..|cuts| - 1]) && Edge(start, cuts[..|cuts| - 1]) <= cuts[|cuts| - 1]
  {
    var all := [start] + cuts;
    forall b | b in cuts ensures start <= b <= Edge(start, cuts) {
      var i :| 0 <= i < |cuts| && cuts[i] == b;
      assert all[i + 1] == b && all[0] <= all[i + 1] && all[|cuts|] == cuts[|cuts| - 1];
    }
    if cuts != [] {
      assert all[0] == start && all[|cuts|] == cuts[|cuts| - 1];
      assert [start] + cuts[..|cuts| - 1] == all[..|cuts|];
      assert Edge(start, cuts[..|cuts| - 1]) == all[|cuts| - 1];
    }
  }

  lemma {:induction false} PiecesInOrder(state: MachineState, start: int, cuts: seq<int>)
    requires Ascending([start] + cuts)
    ensures |Pieces(state, start, cuts)| == |cuts|
    ensures InOrder(Pieces(state, start, cuts), start, Edge(start, cuts))
  {
    EdgeBound(start, cuts);
    if cuts != [] {
      PiecesInOrder(state, start, cuts[..|cuts| - 1]);
      EdgeBound(start, cuts[..|cuts| - 1]);
    }
  }

  lemma {:induction false} PiecesAt(out: seq<StateInterval>, state: MachineState, start: int, cuts: seq<int>, t: int)
    requires Ascending([start] + cuts)
    ensures StateAt(out + Pieces(state, start, cuts), t) ==
            if start <= t < Edge(start, cuts) then Some(state) else StateAt(out, t)
  {
    if cuts == [] {
      assert out + Pieces(state, start, cuts) == out;
    } else {
      var init := cuts[..|cuts| - 1];
      EdgeBound(start, cuts);
      EdgeBound(start, init);
      PiecesAt(out, state, start, init, t);
      var x := StateInterval(state, Edge(start, init), cuts[|cuts| - 1]);
      assert out + Pieces(state, start, cuts) == out + Pieces(state, start, init) + [x];
      Append(out + Pieces(state, start, init), x, t);
    }
  }

  lemma {:induction false} PiecesDoNotStraddle(state: MachineState, start: int, cuts: seq<int>, b: int)
    requires Ascending([start] + cuts)
    requires start < b < Edge(start, cuts) ==> b in cuts
    ensures forall x :: x in Pieces(state, start, cuts) ==> !Straddles(x, b)
  {
    if cuts != [] {
      var init := cuts[..|cuts| - 1];
      EdgeBound(start, cuts);
      EdgeBound(start, init);
      assert cuts == init + [cuts[|cuts| - 1]];
      PiecesDoNotStraddle(state, start, init, b);
    }
  }

  /** Ascending cuts make an empty piece exactly when a value comes twice. */
  lemma {:induction false} PiecesEmpty(state: MachineState, start: int, cuts: seq<int>)
    requires Ascending([start] + cuts)
    ensures HasEmpty(Pieces(state, start, cuts)) <==> exists b :: multiset([start] + cuts)[b] >= 2
  {
    if cuts == [] {
      assert forall b :: multiset([start])[b] <= 1;
    } else {
      var init, e := cuts[..|cuts| - 1], cuts[|cuts| - 1];
      EdgeBound(start, cuts);
      PiecesEmpty(state, start, init);
      assert [start] + cuts == [start] + init + [e];
      var x := StateInterval(state, Edge(start, init), e);
      assert HasEmpty(Pieces(state, start, cuts)) <==> HasEmpty(Pieces(state, start, init)) || x.start == x.end;
      LastRepeats([start] + init, e);
      assert ([start] + init)[|init|] == Edge(start, init);
    }
  }

  lemma LastRepeats(xs: seq<int>, e: int)
    requires Ascending(xs + [e]) && xs != []
    ensures (exists b :: multiset(xs + [e])[b] >= 2) <==> (exists b :: multiset(xs)[b] >= 2) || xs[|xs| - 1] == e
  {
    assert multiset(xs + [e]) == multiset(xs) + multiset{e};
    forall x | x in xs ensures x <= xs[|xs| - 1] <= e {
      var i :| 0 <= i < |xs| && xs[i] == x;
      assert (xs + [e])[i] == x && (xs + [e])[|xs| - 1] == xs[|xs| - 1] && (xs + [e])[|xs|] == e;
    }
    if xs[|xs| - 1] == e {
      assert e in xs && multiset(xs + [e])[e] >= 2;
    } else {
      assert e !in xs && e !in multiset(xs);
    }
    if b :| multiset(xs)[b] >= 2 {
      assert multiset(xs + [e])[b] >= 2;
    }
  }

  /** `x` is a piece of `iv`, cut off only at listed boundaries. */
  ghost predicate CutFrom(x: StateInterval, iv: StateInterval, boundaries: seq<int>) {
    && x.state == iv.state && iv.start <= x.start <= x.end <= iv.end
    && (x.start == iv.start || x.start in boundaries)
    && (x.end == iv.end || x.end in boundaries)
  }

  lemma {:induction false} PiecesEdges(state: MachineState, start: int, cuts: seq<int>)
    ensures forall x :: x in Pieces(state, start, cuts) ==> cuts != [] && x.state == state && x.end in cuts
    ensures var init := if cuts == [] then [] else cuts[..|cuts| - 1];
            forall x :: x in Pieces(state, start, cuts) ==> x.start == start || x.start in init
    ensures Edge(start, cuts) == start || Edge(start, cuts) in cuts
  {
    if cuts != [] {
      var init := cuts[..|cuts| - 1];
      PiecesEdges(state, start, init);
      assert cuts == init + [cuts[|cuts| - 1]];
    }
  }

  method SplitInterval(iv: StateInterval, inner: seq<int>, out0: seq<StateInterval>) returns (out: seq<StateInterval>)
    ensures out == out0 + Pieces(iv.state, iv.start, inner + [iv.end])
  {
    out := out0;
    var cursor := iv.start;
    for k := 0 to |inner|
      invariant cursor == Edge(iv.start, inner[..k])
      invariant out == out0 + Pieces(iv.state, iv.start, inner[..k])
    {
      out := out + [StateInterval(iv.state, cursor, inner[k])];
      cursor := inner[k];
      assert inner[..k + 1][..k] == inner[..k];
    }
    assert inner[..|inner|] == inner && (inner + [iv.end])[..|inner|] == inner;
    out := out + [StateInterval(iv.state, cursor, iv.end)];
  }

  /** Some boundary listed twice lies strictly inside `iv`. */
  ghost predicate RepeatedInside(boundaries: seq<int>, iv: StateInterval) {
    exists b :: multiset(boundaries)[b] >= 2 && iv.start < b < iv.end
  }

  /** The pieces of one interval, whatever was written before. */
  lemma SplitMeaning(iv: StateInterval, boundaries: seq<int>)
    requires iv.start < iv.end
    ensures var ps := Pieces(iv.state, iv.start, InnerCuts(boundaries, iv) + [iv.end]);
            && InOrder(ps, iv.start, iv.end)
            && (forall x, b :: x in ps && b in boundaries ==> !Straddles(x, b))
            && (HasEmpty(ps) <==> RepeatedInside(boundaries, iv))
            && (forall x :: x in ps ==> CutFrom(x, iv, boundaries))
            && |ps| == 1 + InnerCount(boundaries, iv)
            && forall out, t :: StateAt(out + ps, t) == if iv.Contains(t) then Some(iv.state) else StateAt(out, t)
  {
    var inner := InnerCuts(boundaries, iv);
    var cuts := inner + [iv.end];
    var ps := Pieces(iv.state, iv.start, cuts);
    CutsAscend(boundaries, iv);
    PiecesInOrder(iv.state, iv.start, cuts);
    forall b | b in boundaries ensures forall x :: x in ps ==> !Straddles(x, b) {
      PiecesDoNotStraddle(iv.state, iv.start, cuts, b);
    }
    forall out, t ensures StateAt(out + ps, t) == if iv.Contains(t) then Some(iv.state) else StateAt(out, t) {
      PiecesAt(out, iv.state, iv.start, cuts, t);
    }
    PiecesEmpty(iv.state, iv.start, cuts);
    RepeatsInside(boundaries, iv);
    PiecesCut(boundaries, iv);
  }

  lemma PiecesCut(boundaries: seq<int>, iv: StateInterval)
    requires iv.start < iv.end
    ensures forall x :: x in Pieces(iv.state, iv.start, InnerCuts(boundaries, iv) + [iv.end]) ==>
              CutFrom(x, iv, boundaries)
  {
    hide InnerCuts, Pieces;
    var inner := InnerCuts(boundaries, iv);
    var ps := Pieces(iv.state, iv.start, inner + [iv.end]);
    CutsAscend(boundaries, iv);
    PiecesInOrder(iv.state, iv.start, inner + [iv.end]);
    PiecesEdges(iv.state, iv.start, inner + [iv.end]);
    forall x | x in ps ensures CutFrom(x, iv, boundaries) {
      var i :| 0 <= i < |ps| && ps[i] == x;
      assert iv.start <= ps[i].start <= ps[i].end <= iv.end;
      assert x.end in inner + [iv.end] && (inner + [iv.end])[..|inner|] == inner;
    }
  }

  lemma CutsAscend(boundaries: seq<int>, iv: StateInterval)
    requires iv.start < iv.end
    ensures Ascending([iv.start] + (InnerCuts(boundaries, iv) + [iv.end]))
  {
    hide InnerCuts;
    var inner := InnerCuts(boundaries, iv);
    forall i | 0 <= i < |inner| ensures iv.start < inner[i] < iv.end {
      assert inner[i] in inner;
    }
  }

  lemma RepeatsInside(boundaries: seq<int>, iv: StateInterval)
    requires iv.start < iv.end
    ensures (exists b :: multiset([iv.start] + (InnerCuts(boundaries, iv) + [iv.end]))[b] >= 2) <==>
            RepeatedInside(boundaries, iv)
  {
    var inner := InnerCuts(boundaries, iv);
    forall b ensures multiset([iv.start] + (inner + [iv.end]))[b] >= 2 <==>
                     multiset(boundaries)[b] >= 2 && iv.start < b < iv.end {
      EdgesOnce(inner, iv.start, iv.end, b);
      if !(iv.start < b < iv.end) {
        assert b !in inner && b !in multiset(inner);
      }
    }
  }

  lemma EdgesOnce(inner: seq<int>, s: int, e: int, b: int)
    requires s < e && s !in inner && e !in inner
    ensures multiset([s] + (inner + [e]))[b] >= 2 <==> multiset(inner)[b] >= 2
  {
    assert multiset([s] + (inner + [e])) == multiset{s} + multiset(inner) + multiset{e};
    assert s !in multiset(inner) && e !in multiset(inner);
  }

  function TotalInner(boundaries: seq<int>, ivs: seq<StateInterval>): nat {
    if ivs == [] then 0 else TotalInner(boundaries, ivs[..|ivs| - 1]) + InnerCount(boundaries, ivs[|ivs| - 1])
  }

  /** `out` is `ivs` cut at the boundaries, and only there. */
  ghost predicate IsSplit(ivs: seq<StateInterval>, boundaries: seq<int>, out: seq<StateInterval>) {
    && (ivs == [] ==> out == [])
    && (ivs != [] ==> InOrder(out, ivs[0].start, ivs[|ivs| - 1].end))
    && (forall t :: StateAt(out, t) == StateAt(ivs, t))
    && (forall x, b :: x in out && b in boundaries ==> !Straddles(x, b))
    && (HasEmpty(out) <==> exists iv :: iv in ivs && RepeatedInside(boundaries, iv))
    && (forall x :: x in out ==> exists iv :: iv in ivs && CutFrom(x, iv, boundaries))
    && |out| == |ivs| + TotalInner(boundaries, ivs)
  }

  /** Cut a timeline at boundaries: the state at every instant is kept, no piece straddles a
      boundary, pieces stay in order, cuts are made at listed boundaries only and once for
      each listing, and an empty piece appears exactly when some interval strictly contains a
      boundary that is listed twice. */
  method SplitAtBoundaries(ivs: seq<StateInterval>, boundaries: seq<int>) returns (out: seq<StateInterval>)
    requires IsTimeline(ivs)
    ensures IsSplit(ivs, boundaries, out)
  {
    out := [];
    for n := 0 to |ivs|
      invariant IsSplit(ivs[..n], boundaries, out)
    {
      hide *;
      SplitOne(ivs, boundaries, n, out);
      out := SplitInterval(ivs[n], InnerCuts(boundaries, ivs[n]), out);
    }
    assert ivs[..|ivs|] == ivs;
  }

  lemma InOrderConcat(a: seq<StateInterval>, b: seq<StateInterval>, lo: int, mid: int, s: int, hi: int)
    requires InOrder(a, lo, mid) && InOrder(b, s, hi) && lo <= mid <= s <= hi
    ensures InOrder(a + b, lo, hi)
  {
  }

  lemma SplitOne(ivs: seq<StateInterval>, boundaries: seq<int>, n: nat, out: seq<StateInterval>)
    requires IsTimeline(ivs) && n < |ivs| && IsSplit(ivs[..n], boundaries, out)
    ensures IsSplit(ivs[..n + 1], boundaries,
                    out + Pieces(ivs[n].state, ivs[n].start, InnerCuts(boundaries, ivs[n]) + [ivs[n].end]))
  {
    hide StateAt, Pieces, RepeatedInside, HasEmpty, CutFrom, InnerCount, InnerCuts, Straddles;
    var iv, base := ivs[n], ivs[..n];
    var ps := Pieces(iv.state, iv.start, InnerCuts(boundaries, iv) + [iv.end]);
    SplitMeaning(iv, boundaries);
    assert ivs[..n + 1] == base + [iv];
    if n > 0 {
      TimelineSpan(ivs, n);
      InOrderConcat(out, ps, ivs[0].start, ivs[n - 1].end, iv.start, iv.end);
    } else {
      assert out + ps == ps;
    }
    SplitOneAt(base, iv, out, ps);
    assert iv in base + [iv];
    assert (base + [iv])[..n] == base;
    SplitOneEmpty(base, iv, boundaries, out, ps);
  }

  lemma TimelineSpan(ivs: seq<StateInterval>, n: nat)
    requires IsTimeline(ivs) && 0 < n < |ivs|
    ensures ivs[0].start <= ivs[n - 1].end <= ivs[n].start
  {
    assert ivs[0].start < ivs[0].end;
    assert 0 < n - 1 ==> ivs[0].end <= ivs[n - 1].start < ivs[n - 1].end;
  }

  lemma SplitOneAt(base: seq<StateInterval>, iv: StateInterval, out: seq<StateInterval>, ps: seq<StateInterval>)
    requires forall t :: StateAt(out, t) == StateAt(base, t)
    requires forall pre, t :: StateAt(pre + ps, t) == if iv.Contains(t) then Some(iv.state) else StateAt(pre, t)
    ensures forall t :: StateAt(out + ps, t) == StateAt(base + [iv], t)
  {
    forall t ensures StateAt(out + ps, t) == StateAt(base + [iv], t) {
      Append(base, iv, t);
    }
  }

  lemma SplitOneEmpty(base: seq<StateInterval>, iv: StateInterval, boundaries: seq<int>,
                      out: seq<StateInterval>, ps: seq<StateInterval>)
    requires HasEmpty(out) <==> exists x :: x in base && RepeatedInside(boundaries, x)
    requires HasEmpty(ps) <==> RepeatedInside(boundaries, iv)
    ensures HasEmpty(out + ps) <==> exists x :: x in base + [iv] && RepeatedInside(boundaries, x)
  {
    assert HasEmpty(out + ps) <==> HasEmpty(out) || HasEmpty(ps);
    assert iv in base + [iv];
  }

  /** A boundary listed twice inside an interval: every split has an empty piece. */
  lemma RepeatedBoundaryLeavesEmpty(out: seq<StateInterval>)
    requires IsSplit([StateInterval(Running, 0, 10)], [5, 5], out)
    ensures HasEmpty(out) && |out| == 3
  {
    var iv := StateInterval(Running, 0, 10);
    assert iv in [iv] && multiset([5, 5])[5] == 2;
    assert [iv][..0] == [] && [5, 5][..1] == [5] && [5][..0] == [];
  }
}
