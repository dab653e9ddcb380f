/** Pareto ranking of downtime categories. */
module Pareto {
  import opened Prelude
  import opened Sorting

  datatype ParetoInput = ParetoInput(key: string, caption: string, seconds: int)

  datatype ParetoRow = ParetoRow(key: string, caption: string, seconds: int, pct: real, cumulativePct: real)

  /** Larger first; ties by key. */
  predicate RanksBefore(a: ParetoInput, b: ParetoInput) {
    a.seconds > b.seconds || (a.seconds == b.seconds && LexLe(a.key, b.key))
  }

  lemma RankingIsTotal()
    ensures TotalPreorder(RanksBefore)
  {
    LexIsTotalPreorder();
    forall x, y, z ensures ChainsAt(RanksBefore, x, y, z) {
      assert ChainsAt(LexLe, x.key, y.key, z.key);
    }
  }

  predicate Counts(i: ParetoInput) {
    i.seconds > 0
  }

  /** The categories with time, in rank order. */
  function Ranked(inputs: seq<ParetoInput>): (r: seq<ParetoInput>)
    ensures Pairwise(r, RanksBefore)
    ensures multiset(r) == multiset(Select(inputs, Counts))
  {
    RankingIsTotal();
    SortBy(Select(inputs, Counts), RanksBefore)
  }

  function Sum(xs: seq<ParetoInput>): int {
    if xs == [] then 0 else Sum(xs[..|xs| - 1]) + xs[|xs| - 1].seconds
  }

  function Share(part: int, total: int): real
    requires total != 0
  {
    part as real * 100.0 / total as real
  }

  /** `rows` shows `ranked` with each row's share and running share. */
  ghost predicate Shows(rows: seq<ParetoRow>, ranked: seq<ParetoInput>, total: int)
    requires total != 0 && |rows| <= |ranked|
  {
    forall i :: 0 <= i < |rows| ==>
      && rows[i].key == ranked[i].key && rows[i].caption == ranked[i].caption && rows[i].seconds == ranked[i].seconds
      && rows[i].pct == Share(ranked[i].seconds, total)
      && rows[i].cumulativePct == Share(Sum(ranked[..i + 1]), total)
  }

  method Total(xs: seq<ParetoInput>) returns (total: int)
    ensures total == Sum(xs)
  {
    total := 0;
    for i := 0 to |xs|
      invariant total == Sum(xs[..i])
    {
      SumTake(xs, i);
      total := total + xs[i].seconds;
    }
    assert xs[..|xs|] == xs;
  }

  lemma SumTake(xs: seq<ParetoInput>, i: nat)
    requires i < |xs|
    ensures Sum(xs[..i + 1]) == Sum(xs[..i]) + xs[i].seconds
  {
    assert xs[..i + 1][..i] == xs[..i];
  }

  method Rank(inputs: seq<ParetoInput>) returns (rows: seq<ParetoRow>)
    ensures |rows| == |Ranked(inputs)|
    ensures rows != [] ==> Sum(Ranked(inputs)) > 0 && Shows(rows, Ranked(inputs), Sum(Ranked(inputs)))
  {
    hide Ranked, Share, Pairwise, RanksBefore, Sum;
    var ranked := Ranked(inputs);
    var total := Total(ranked);
    RankedPositive(inputs);
    SumPositive(ranked);
    rows := [];
    if total == 0 {
      return;
    }
    var running := 0;
    NoneYet(ranked);
    for i := 0 to |ranked|
      invariant running == Sum(ranked[..i]) && |rows| == i && Shows(rows, ranked, total)
    {
      SumTake(ranked, i);
      running := running + ranked[i].seconds;
      rows := rows + [ParetoRow(ranked[i].key, ranked[i].caption, ranked[i].seconds,
                                Share(ranked[i].seconds, total), Share(running, total))];
    }
  }

  lemma NoneYet(xs: seq<ParetoInput>)
    ensures Sum(xs[..0]) == 0
  {
  }

  lemma RankedPositive(inputs: seq<ParetoInput>)
    ensures forall x :: x in Ranked(inputs) ==> x.seconds > 0 && x in inputs
  {
    SameMembers(Ranked(inputs), Select(inputs, Counts));
  }

  lemma {:induction false} SumPositive(xs: seq<ParetoInput>)
    requires forall x :: x in xs ==> x.seconds > 0
    ensures Sum(xs) >= 0 && (Sum(xs) == 0 <==> xs == [])
  {
    if xs != [] {
      SumPositive(xs[..|xs| - 1]);
    }
  }

  /** The ranking is a permutation of the categories with time. */
  lemma RankedIsPermutation(inputs: seq<ParetoInput>, x: ParetoInput)
    ensures multiset(Ranked(inputs))[x] == if x.seconds > 0 then multiset(inputs)[x] else 0
  {
    SelectCounts(inputs, Counts, x);
  }

  ghost predicate DistinctKeys(inputs: seq<ParetoInput>) {
    forall x, y :: x in inputs && y in inputs && x.key == y.key ==> x == y
  }

  /** For distinct keys the ranking does not depend on the order of the input. */
  lemma OrderIndependent(a: seq<ParetoInput>, b: seq<ParetoInput>)
    requires multiset(a) == multiset(b) && DistinctKeys(a)
    ensures Ranked(a) == Ranked(b)
  {
    forall x ensures multiset(Ranked(a))[x] == multiset(Ranked(b))[x] {
      RankedIsPermutation(a, x);
      RankedIsPermutation(b, x);
    }
    RankedPositive(a);
    forall x, y | x in Ranked(a) && y in Ranked(a) && RanksBefore(x, y) && RanksBefore(y, x) ensures x == y {
      LexAntisymmetric(x.key, y.key);
    }
    SortedUnique(Ranked(a), Ranked(b), RanksBefore);
  }

  // ---- Dominance -----------------------------------------------------------

  function Without(xs: seq<ParetoInput>, i: nat): (r: seq<ParetoInput>)
    requires i < |xs|
    ensures |r| == |xs| - 1
  {
    xs[..i] + xs[i + 1..]
  }

  lemma {:induction false} SumWithout(xs: seq<ParetoInput>, i: nat)
    requires i < |xs|
    ensures Sum(xs) == Sum(Without(xs, i)) + xs[i].seconds
  {
    var init, last := xs[..|xs| - 1], xs[|xs| - 1];
    if i == |init| {
      assert Without(xs, i) == init;
    } else {
      SumWithout(init, i);
      var rest := Without(init, i);
      assert Without(xs, i) == rest + [last];
      assert (rest + [last])[..|rest|] == rest;
    }
  }

  lemma SumOne(x: ParetoInput)
    ensures Sum([x]) == x.seconds
  {
    assert [x][..0] == [];
  }

  lemma MultisetWithout(xs: seq<ParetoInput>, i: nat)
    requires i < |xs|
    ensures multiset(xs) == multiset(Without(xs, i)) + multiset{xs[i]}
  {
    assert xs == xs[..i] + [xs[i]] + xs[i + 1..];
  }

  lemma PickSmaller(pick: seq<ParetoInput>, ranked: seq<ParetoInput>)
    requires multiset(pick) <= multiset(ranked)
    ensures |pick| <= |ranked|
  {
    assert |multiset(pick)| == |pick| && |multiset(ranked)| == |ranked|;
    assert multiset(ranked) == multiset(pick) + (multiset(ranked) - multiset(pick));
  }

  /** Dropping a largest-first list's last element. */
  lemma InitOf(ranked: seq<ParetoInput>)
    requires Pairwise(ranked, RanksBefore) && ranked != []
    ensures Pairwise(ranked[..|ranked| - 1], RanksBefore)
    ensures forall i :: 0 <= i < |ranked| ==> ranked[i].seconds >= ranked[|ranked| - 1].seconds
  {
    forall i | 0 <= i < |ranked| - 1 ensures ranked[i].seconds >= ranked[|ranked| - 1].seconds {
      assert RanksBefore(ranked[i], ranked[|ranked| - 1]);
    }
  }

  /** Taking the last ranked category out of a choice, if it is in it. */
  lemma PickedLast(ranked: seq<ParetoInput>, pick: seq<ParetoInput>, i: nat)
    requires multiset(pick) <= multiset(ranked) && ranked != [] && i < |pick| && pick[i] == ranked[|ranked| - 1]
    ensures multiset(Without(pick, i)) <= multiset(ranked[..|ranked| - 1])
  {
    var init, x := ranked[..|ranked| - 1], ranked[|ranked| - 1];
    MultisetWithout(pick, i);
    assert ranked == init + [x];
    assert multiset(ranked) == multiset(init) + multiset{x};
    forall y ensures multiset(Without(pick, i))[y] <= multiset(init)[y] {
      assert multiset(pick)[y] <= multiset(ranked)[y];
    }
  }

  lemma NotPickedLast(ranked: seq<ParetoInput>, pick: seq<ParetoInput>)
    requires multiset(pick) <= multiset(ranked) && ranked != [] && ranked[|ranked| - 1] !in pick
    ensures multiset(pick) <= multiset(ranked[..|ranked| - 1])
  {
    var init, x := ranked[..|ranked| - 1], ranked[|ranked| - 1];
    assert ranked == init + [x];
    assert multiset(ranked) == multiset(init) + multiset{x};
    assert x !in multiset(pick);
    forall y ensures multiset(pick)[y] <= multiset(init)[y] {
      assert multiset(pick)[y] <= multiset(ranked)[y];
    }
  }

  /** No choice of `n` ranked categories outweighs the first `n`. */
  lemma {:induction false} RankedDominates(ranked: seq<ParetoInput>, pick: seq<ParetoInput>)
    requires Pairwise(ranked, RanksBefore) && multiset(pick) <= multiset(ranked)
    ensures |pick| <= |ranked| && Sum(pick) <= Sum(ranked[..|pick|])
  {
    hide Pairwise, RanksBefore, Without, Sum;
    PickSmaller(pick, ranked);
    if ranked == [] {
      assert pick == ranked[..0];
    } else {
      var init, x, n := ranked[..|ranked| - 1], ranked[|ranked| - 1], |pick|;
      InitOf(ranked);
      if x in pick {
        var i :| 0 <= i < |pick| && pick[i] == x;
        SumWithout(pick, i);
        PickedLast(ranked, pick, i);
        RankedDominates(init, Without(pick, i));
        SumTake(ranked, n - 1);
        assert init[..n - 1] == ranked[..n - 1];
      } else {
        NotPickedLast(ranked, pick);
        RankedDominates(init, pick);
        assert init[..n] == ranked[..n];
      }
    }
  }

  lemma {:induction false} SumSelect(xs: seq<ParetoInput>)
    ensures Sum(xs) <= Sum(Select(xs, Counts))
  {
    if xs != [] {
      SumSelect(xs[..|xs| - 1]);
      var rest := Select(xs[..|xs| - 1], Counts);
      assert (rest + [xs[|xs| - 1]])[..|rest|] == rest;
    }
  }

  lemma {:induction false} PrefixSums(xs: seq<ParetoInput>, m: nat, n: nat)
    requires m <= n <= |xs| && forall x :: x in xs ==> x.seconds > 0
    ensures Sum(xs[..m]) <= Sum(xs[..n])
  {
    if m < n {
      PrefixSums(xs, m, n - 1);
      assert xs[..n][..n - 1] == xs[..n - 1];
    }
  }

  /** The first rows total at least as much as any choice of as many categories (all of them,
      when more are chosen than have time). */
  lemma ParetoDominates(inputs: seq<ParetoInput>, pick: seq<ParetoInput>)
    requires multiset(pick) <= multiset(inputs)
    ensures var ranked := Ranked(inputs);
            Sum(pick) <= Sum(ranked[..if |pick| < |ranked| then |pick| else |ranked|])
  {
    var ranked, chosen := Ranked(inputs), Select(pick, Counts);
    forall x ensures multiset(chosen)[x] <= multiset(ranked)[x] {
      SelectCounts(pick, Counts, x);
      RankedIsPermutation(inputs, x);
    }
    SumSelect(pick);
    RankedDominates(ranked, chosen);
    RankedPositive(inputs);
    PrefixSums(ranked, |chosen|, if |pick| < |ranked| then |pick| else |ranked|);
  }

  // ---- Shares --------------------------------------------------------------

  lemma ShareMonotone(a: int, b: int, total: int)
    requires total > 0 && a <= b
    ensures Share(a, total) <= Share(b, total)
  {
  }

  lemma ShareAll(total: int)
    requires total > 0
    ensures Share(total, total) == 100.0
  {
  }

  /** Larger first, and equal times by ascending key. */
  lemma RankedOrder(inputs: seq<ParetoInput>, i: int, j: int)
    requires 0 <= i < j < |Ranked(inputs)|
    ensures var x, y := Ranked(inputs)[i], Ranked(inputs)[j];
            x.seconds >= y.seconds && (x.seconds == y.seconds ==> LexLe(x.key, y.key))
  {
    assert RanksBefore(Ranked(inputs)[i], Ranked(inputs)[j]);
  }

  /** A share is the part's percentage of the total. */
  lemma ShareIsPercent(part: int, total: int)
    requires total > 0
    ensures Share(part, total) * total as real == part as real * 100.0
  {
  }

  /** Each row's share is the step of the running share, steps never grow, and the running
      share ends at exactly 100. */
  lemma SharesConcave(rows: seq<ParetoRow>, inputs: seq<ParetoInput>)
    requires var ranked := Ranked(inputs); |rows| == |ranked| && Sum(ranked) > 0 && Shows(rows, ranked, Sum(ranked))
    ensures forall i :: 0 < i < |rows| ==> rows[i].pct <= rows[i - 1].pct
    ensures forall i :: 0 < i < |rows| ==> rows[i].cumulativePct == rows[i - 1].cumulativePct + rows[i].pct
    ensures rows != [] ==> rows[0].cumulativePct == rows[0].pct && rows[|rows| - 1].cumulativePct == 100.0
  {
    hide Ranked, Share, Sum;
    var ranked := Ranked(inputs);
    var total := Sum(ranked);
    forall i | 0 < i < |rows|
      ensures rows[i].pct <= rows[i - 1].pct && rows[i].cumulativePct == rows[i - 1].cumulativePct + rows[i].pct
    {
      assert RanksBefore(ranked[i - 1], ranked[i]);
      ShareMonotone(ranked[i].seconds, ranked[i - 1].seconds, total);
      SumTake(ranked, i);
      ShareAdds(Sum(ranked[..i]), ranked[i].seconds, total);
    }
    if rows != [] {
      assert ranked[..1] == [ranked[0]];
      SumOne(ranked[0]);
      assert ranked[..|ranked|] == ranked;
      ShareAll(total);
    }
  }

  lemma ShareAdds(a: int, b: int, total: int)
    requires total > 0
    ensures Share(a + b, total) == Share(a, total) + Share(b, total)
  {
    var x, y, t := a as real * 100.0, b as real * 100.0, total as real;
    assert (a + b) as real * 100.0 == x + y;
    assert (x + y) / t == x / t + y / t;
  }
}
