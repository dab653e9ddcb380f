/** Result types shared by the models, and selection over rows. */
module Prelude {

  datatype Option<+T> = None | Some(value: T)

  /** Row identifiers, as the id generator makes them. */
  type Id = string

  function Abs(x: real): real {
    if x < 0.0 then -x else x
  }

  /** The repository layer's error values (`RepoError`), as far as the models need them. */
  datatype RepoError = NotFound | Conflict | InvalidReference | Database

  datatype Result<+T> = Ok(value: T) | Err(error: RepoError)

  /** `SELECT ... WHERE p`: the rows that satisfy `p`, in table order. */
  function Select<T(!new)>(rows: seq<T>, p: T -> bool): (r: seq<T>)
    ensures forall x :: x in r <==> x in rows && p(x)
    ensures |r| <= |rows|
  {
    if rows == [] then []
    else
      var rest := Select(rows[..|rows| - 1], p);
      assert rows == rows[..|rows| - 1] + [rows[|rows| - 1]];
      if p(rows[|rows| - 1]) then rest + [rows[|rows| - 1]] else rest
  }

  lemma {:induction false} SelectConcat<T(!new)>(a: seq<T>, b: seq<T>, p: T -> bool)
    ensures Select(a + b, p) == Select(a, p) + Select(b, p)
  {
    if b == [] {
      assert a + b == a;
    } else {
      var b' := b[..|b| - 1];
      SelectConcat(a, b', p);
      assert (a + b)[..|a + b| - 1] == a + b' && (a + b)[|a + b| - 1] == b[|b| - 1];
    }
  }

  /** Conditions that agree on the rows select the same. */
  lemma {:induction false} SelectSame<T(!new)>(rows: seq<T>, p: T -> bool, q: T -> bool)
    requires forall x :: x in rows ==> (p(x) <==> q(x))
    ensures Select(rows, p) == Select(rows, q)
  {
    if rows != [] {
      SelectSame(rows[..|rows| - 1], p, q);
    }
  }

  lemma {:induction false} SelectAll<T(!new)>(a: seq<T>, p: T -> bool)
    requires forall x :: x in a ==> p(x)
    ensures Select(a, p) == a
  {
    if a != [] {
      SelectAll(a[..|a| - 1], p);
      assert a == a[..|a| - 1] + [a[|a| - 1]];
    }
  }

  lemma SelectNone<T(!new)>(a: seq<T>, p: T -> bool)
    requires forall x :: x in a ==> !p(x)
    ensures Select(a, p) == []
  {
    if Select(a, p) != [] {
      assert Select(a, p)[0] in Select(a, p);
    }
  }

  /** A list whose two parts satisfy complementary conditions falls apart into them. */
  lemma SelectParts<T(!new)>(a: seq<T>, b: seq<T>, p: T -> bool, q: T -> bool)
    requires forall x :: x in a ==> p(x) && !q(x)
    requires forall x :: x in b ==> q(x) && !p(x)
    ensures Select(a + b, p) == a && Select(a + b, q) == b
  {
    SelectConcat(a, b, p);
    SelectAll(a, p);
    SelectNone(b, p);
    SelectConcat(a, b, q);
    SelectNone(a, q);
    SelectAll(b, q);
  }

  /** The `k`-th selected row, and before it only rows that are not selected or come earlier. */
  lemma {:induction false} SelectedAt<T(!new)>(rows: seq<T>, p: T -> bool, k: nat) returns (i: nat)
    requires k < |Select(rows, p)|
    ensures i < |rows| && rows[i] == Select(rows, p)[k]
    ensures forall j :: 0 <= j < i && p(rows[j]) ==> rows[j] in Select(rows, p)[..k]
    decreases |rows|
  {
    var init := rows[..|rows| - 1];
    var before := Select(init, p);
    if k < |before| {
      i := SelectedAt(init, p, k);
      assert Select(rows, p)[..k] == before[..k];
      forall j | 0 <= j < i && p(rows[j]) ensures rows[j] in before[..k] {
        assert rows[j] == init[j];
      }
    } else {
      i := |rows| - 1;
      assert Select(rows, p)[..k] == before;
      forall j | 0 <= j < i && p(rows[j]) ensures rows[j] in before {
        assert rows[j] == init[j] && init[j] in init;
      }
    }
  }

  /** Selecting keeps or drops all copies of a row. */
  lemma {:induction false} SelectCounts<T(!new)>(rows: seq<T>, p: T -> bool, x: T)
    ensures multiset(Select(rows, p))[x] == if p(x) then multiset(rows)[x] else 0
  {
    if rows != [] {
      SelectCounts(rows[..|rows| - 1], p, x);
      assert rows == rows[..|rows| - 1] + [rows[|rows| - 1]];
    }
  }

  /** `rel` holds between every row and every later one. */
  ghost predicate Pairwise<T(!new)>(rows: seq<T>, rel: (T, T) -> bool) {
    forall i, j :: 0 <= i < j < |rows| ==> rel(rows[i], rows[j])
  }

  lemma PairwiseAppend<T(!new)>(rows: seq<T>, x: T, rel: (T, T) -> bool)
    requires Pairwise(rows, rel) && forall y :: y in rows ==> rel(y, x)
    ensures Pairwise(rows + [x], rel)
  {
  }

  /** Two unrelated rows, one on each side, break the relation. */
  lemma PairwiseBroken<T(!new)>(a: seq<T>, b: seq<T>, i: int, j: int, rel: (T, T) -> bool)
    requires 0 <= i < |a| && 0 <= j < |b| && !rel(a[i], b[j])
    ensures !Pairwise(a + b, rel)
  {
    assert (a + b)[i] == a[i] && (a + b)[|a| + j] == b[j];
  }

  lemma PairwiseConcat<T(!new)>(a: seq<T>, b: seq<T>, rel: (T, T) -> bool)
    requires Pairwise(a, rel) && Pairwise(b, rel)
    requires forall x, y :: x in a && y in b ==> rel(x, y)
    ensures Pairwise(a + b, rel)
  {
    forall i, j | 0 <= i < j < |a + b| ensures rel((a + b)[i], (a + b)[j]) {
      if i < |a| <= j {
        assert a[i] in a && b[j - |a|] in b;
      }
    }
  }

  lemma {:induction false} PairwiseSelect<T(!new)>(rows: seq<T>, p: T -> bool, rel: (T, T) -> bool)
    requires Pairwise(rows, rel)
    ensures Pairwise(Select(rows, p), rel)
  {
    if rows != [] {
      var init, x := rows[..|rows| - 1], rows[|rows| - 1];
      assert Pairwise(init, rel) by {
        forall i, j | 0 <= i < j < |init| ensures rel(init[i], init[j]) {
          assert rel(rows[i], rows[j]);
        }
      }
      PairwiseSelect(init, p, rel);
      forall y | y in Select(init, p) ensures rel(y, x) {
        var i :| 0 <= i < |init| && init[i] == y;
        assert rel(rows[i], rows[|rows| - 1]);
      }
      if p(x) {
        PairwiseAppend(Select(init, p), x, rel);
      }
    }
  }
}
