/** The SQL selection and aggregate operators the routes rely on, over in-memory rows. */
module Relational {
  import opened Optional

  /** `WHERE keep(row)`, and JavaScript's `Array.filter`: the rows satisfying keep, in order. */
  function Where<T(==,!new)>(s: seq<T>, keep: T -> bool): (r: seq<T>)
    ensures |r| <= |s|
    ensures forall x :: x in r <==> x in s && keep(x)
  {
    if s == [] then [] else (if keep(s[0]) then [s[0]] else []) + Where(s[1..], keep)
  }

  /** `a` is `b` with some elements deleted: the survivors keep their relative order. */
  predicate IsSubsequence<T(==)>(a: seq<T>, b: seq<T>)
    decreases |b|
  {
    a == [] || (b != [] && ((a[0] == b[0] && IsSubsequence(a[1..], b[1..])) || IsSubsequence(a, b[1..])))
  }

  lemma {:induction false} SubsequenceReflexive<T>(s: seq<T>)
    ensures IsSubsequence(s, s)
  {
    if s != [] {
      SubsequenceReflexive(s[1..]);
    }
  }

  lemma {:induction false} WhereIsSubsequence<T(!new)>(s: seq<T>, keep: T -> bool)
    ensures IsSubsequence(Where(s, keep), s)
  {
    if s != [] {
      var r := Where(s, keep);
      WhereIsSubsequence(s[1..], keep);
      if keep(s[0]) {
        assert r[0] == s[0] && r[1..] == Where(s[1..], keep);
      } else {
        assert r == Where(s[1..], keep);
      }
    }
  }

  /** Filtering twice with the same condition changes nothing. */
  lemma {:induction false} WhereIdempotent<T(!new)>(s: seq<T>, keep: T -> bool)
    ensures Where(Where(s, keep), keep) == Where(s, keep)
  {
    if s != [] {
      var r := Where(s, keep);
      WhereIdempotent(s[1..], keep);
      if keep(s[0]) {
        assert r[0] == s[0] && r[1..] == Where(s[1..], keep);
      } else {
        assert r == Where(s[1..], keep);
      }
    }
  }

  /** Selecting from two tables one after the other is selecting from each. */
  lemma {:induction false} WhereAppend<T(!new)>(a: seq<T>, b: seq<T>, keep: T -> bool)
    ensures Where(a + b, keep) == Where(a, keep) + Where(b, keep)
  {
    if a != [] {
      assert (a + b)[0] == a[0] && (a + b)[1..] == a[1..] + b;
      WhereAppend(a[1..], b, keep);
    } else {
      assert a + b == b;
    }
  }

  /** `COUNT(*) ... WHERE keep(row)`. */
  function Count<T(==,!new)>(s: seq<T>, keep: T -> bool): (n: nat)
    ensures n <= |s|
    ensures n == 0 <==> forall x :: x in s ==> !keep(x)
    ensures n == |s| <==> forall x :: x in s ==> keep(x)
  {
    if s == [] then 0 else (if keep(s[0]) then 1 else 0) + Count(s[1..], keep)
  }

  /** The count is the size of the selection it counts. */
  lemma {:induction false} CountIsWhereLength<T(!new)>(s: seq<T>, keep: T -> bool)
    ensures Count(s, keep) == |Where(s, keep)|
  {
    if s != [] {
      CountIsWhereLength(s[1..], keep);
    }
  }

  lemma {:induction false} CountAppend<T(!new)>(a: seq<T>, b: seq<T>, keep: T -> bool)
    ensures Count(a + b, keep) == Count(a, keep) + Count(b, keep)
  {
    if a != [] {
      assert (a + b)[0] == a[0] && (a + b)[1..] == a[1..] + b;
      CountAppend(a[1..], b, keep);
    } else {
      assert a + b == b;
    }
  }

  /** `SUM(f(row))` over a table, with an empty table summing to 0. */
  function Sum<T>(s: seq<T>, f: T -> int): int
  {
    if s == [] then 0 else f(s[0]) + Sum(s[1..], f)
  }

  lemma {:induction false} SumAppend<T>(a: seq<T>, b: seq<T>, f: T -> int)
    ensures Sum(a + b, f) == Sum(a, f) + Sum(b, f)
  {
    if a != [] {
      assert (a + b)[0] == a[0] && (a + b)[1..] == a[1..] + b;
      SumAppend(a[1..], b, f);
    } else {
      assert a + b == b;
    }
  }

  lemma {:induction false} SumNonNegative<T>(s: seq<T>, f: T -> int)
    requires forall x :: x in s ==> f(x) >= 0
    ensures Sum(s, f) >= 0
  {
    if s != [] {
      SumNonNegative(s[1..], f);
    }
  }

  /** SQL's `SUM`: NULL over no rows, otherwise the sum. */
  function SqlSum<T>(s: seq<T>, f: T -> int): (r: Option<int>)
    ensures r == None <==> s == []
    ensures r.Some? ==> r.value == Sum(s, f)
  {
    if s == [] then None else Some(Sum(s, f))
  }
}
