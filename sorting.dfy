/** `ORDER BY`, modelled as stable insertion sorts: by an integer key descending (`ORDER BY
    created_at DESC`, `ORDER BY value DESC`) and by a text key ascending (`ORDER BY name ASC`).
    SQL leaves the order of rows with equal keys unspecified; the properties below speak only of
    the key order and of the sorted rows being a permutation of the input. */
module Sorting {

  /** Every row's key is at least the key of every later row. */
  ghost predicate NonIncreasingBy<T>(s: seq<T>, key: T -> int) {
    forall i, j :: 0 <= i < j < |s| ==> key(s[i]) >= key(s[j])
  }

  function InsertDescending<T>(x: T, s: seq<T>, key: T -> int): (r: seq<T>)
    ensures multiset(r) == multiset(s) + multiset{x}
  {
    if s == [] || key(x) >= key(s[0]) then [x] + s
    else
      assert s == [s[0]] + s[1..];
      [s[0]] + InsertDescending(x, s[1..], key)
  }

  function SortDescending<T>(s: seq<T>, key: T -> int): (r: seq<T>)
    ensures multiset(r) == multiset(s)
  {
    if s == [] then []
    else
      assert s == [s[0]] + s[1..];
      InsertDescending(s[0], SortDescending(s[1..], key), key)
  }

  lemma {:induction false} InsertDescendingSorted<T>(x: T, s: seq<T>, key: T -> int)
    requires NonIncreasingBy(s, key)
    ensures NonIncreasingBy(InsertDescending(x, s, key), key)
  {
    if s != [] && key(x) < key(s[0]) {
      var rest := InsertDescending(x, s[1..], key);
      InsertDescendingSorted(x, s[1..], key);
      forall j | 0 <= j < |rest|
        ensures key(s[0]) >= key(rest[j])
      {
        assert rest[j] in multiset(rest);
        if rest[j] != x {
          assert rest[j] in multiset(s[1..]);
          var k :| 0 <= k < |s[1..]| && s[1..][k] == rest[j];
          assert s[k + 1] == rest[j];
        }
      }
      assert InsertDescending(x, s, key) == [s[0]] + rest;
    }
  }

  /** The sorted rows are the input rows, newest (largest key) first. */
  lemma {:induction false} SortDescendingSorted<T>(s: seq<T>, key: T -> int)
    ensures NonIncreasingBy(SortDescending(s, key), key)
    ensures multiset(SortDescending(s, key)) == multiset(s)
  {
    if s != [] {
      SortDescendingSorted(s[1..], key);
      InsertDescendingSorted(s[0], SortDescending(s[1..], key), key);
    }
  }

  /** The first `k` rows of a sorted table are its top `k`: any row left out has a key no larger
      than that of any row kept. */
  lemma PrefixIsTop<T>(sorted: seq<T>, key: T -> int, k: int)
    requires NonIncreasingBy(sorted, key)
    requires 0 <= k <= |sorted|
    ensures multiset(sorted[..k]) <= multiset(sorted)
    ensures forall x :: multiset(sorted)[x] > multiset(sorted[..k])[x] ==>
              forall i :: 0 <= i < k ==> key(x) <= key(sorted[i])
  {
    assert sorted == sorted[..k] + sorted[k..];
    assert multiset(sorted) == multiset(sorted[..k]) + multiset(sorted[k..]);
    forall x | multiset(sorted)[x] > multiset(sorted[..k])[x]
      ensures forall i :: 0 <= i < k ==> key(x) <= key(sorted[i])
    {
      assert x in multiset(sorted[k..]);
      var j :| 0 <= j < |sorted[k..]| && sorted[k..][j] == x;
      assert sorted[k + j] == x;
    }
  }

  /** Code-point lexicographic order on text (the C collation). */
  predicate LexLe(a: string, b: string) {
    a == [] || (b != [] && (a[0] < b[0] || (a[0] == b[0] && LexLe(a[1..], b[1..]))))
  }

  lemma {:induction false} LexLeTotal(a: string, b: string)
    ensures LexLe(a, b) || LexLe(b, a)
  {
    if a != [] && b != [] && a[0] == b[0] {
      LexLeTotal(a[1..], b[1..]);
    }
  }

  lemma {:induction false} LexLeTransitive(a: string, b: string, c: string)
    requires LexLe(a, b) && LexLe(b, c)
    ensures LexLe(a, c)
  {
    if a != [] && b != [] && c != [] && a[0] == b[0] == c[0] {
      LexLeTransitive(a[1..], b[1..], c[1..]);
    }
  }

  lemma {:induction false} LexLeAntisymmetric(a: string, b: string)
    requires LexLe(a, b) && LexLe(b, a)
    ensures a == b
  {
    if a != [] && b != [] {
      LexLeAntisymmetric(a[1..], b[1..]);
      assert a == [a[0]] + a[1..] && b == [b[0]] + b[1..];
    }
  }

  /** Every row's key comes no later in text order than the key of every later row. */
  ghost predicate AscendingBy<T>(s: seq<T>, key: T -> string) {
    forall i, j :: 0 <= i < j < |s| ==> LexLe(key(s[i]), key(s[j]))
  }

  function InsertAscending<T>(x: T, s: seq<T>, key: T -> string): (r: seq<T>)
    ensures multiset(r) == multiset(s) + multiset{x}
  {
    if s == [] || LexLe(key(x), key(s[0])) then [x] + s
    else
      assert s == [s[0]] + s[1..];
      [s[0]] + InsertAscending(x, s[1..], key)
  }

  function SortAscending<T>(s: seq<T>, key: T -> string): (r: seq<T>)
    ensures multiset(r) == multiset(s)
  {
    if s == [] then []
    else
      assert s == [s[0]] + s[1..];
      InsertAscending(s[0], SortAscending(s[1..], key), key)
  }

  lemma {:induction false} InsertAscendingSorted<T>(x: T, s: seq<T>, key: T -> string)
    requires AscendingBy(s, key)
    ensures AscendingBy(InsertAscending(x, s, key), key)
  {
    if s == [] {
    } else if LexLe(key(x), key(s[0])) {
      var r := InsertAscending(x, s, key);
      forall i, j | 0 <= i < j < |r|
        ensures LexLe(key(r[i]), key(r[j]))
      {
        if i == 0 && j > 1 {
          LexLeTransitive(key(x), key(s[0]), key(s[j - 1]));
        }
      }
    } else {
      LexLeTotal(key(x), key(s[0]));
      var rest := InsertAscending(x, s[1..], key);
      InsertAscendingSorted(x, s[1..], key);
      forall j | 0 <= j < |rest|
        ensures LexLe(key(s[0]), key(rest[j]))
      {
        assert rest[j] in multiset(rest);
        if rest[j] != x {
          assert rest[j] in multiset(s[1..]);
          var k :| 0 <= k < |s[1..]| && s[1..][k] == rest[j];
          assert s[k + 1] == rest[j];
        }
      }
    }
  }

  /** The sorted rows are the input rows, in ascending text order of their keys. */
  lemma {:induction false} SortAscendingSorted<T>(s: seq<T>, key: T -> string)
    ensures AscendingBy(SortAscending(s, key), key)
    ensures multiset(SortAscending(s, key)) == multiset(s)
  {
    if s != [] {
      SortAscendingSorted(s[1..], key);
      InsertAscendingSorted(s[0], SortAscending(s[1..], key), key);
    }
  }
}
