/**
 * Orders and sorting: Python's `sorted`, pandas' `unique`, and the lexicographic order
 * Python uses on strings (code point by code point, a proper prefix first).
 */
module Ordering {
  import opened Seqs

  /** `le` is total and transitive (ties allowed). */
  ghost predicate TotalPreorder<T(!new)>(le: (T, T) -> bool) {
    && (forall a, b :: le(a, b) || le(b, a))
    && (forall a, b, c :: le(a, b) && le(b, c) ==> le(a, c))
  }

  ghost predicate Antisymmetric<T(!new)>(le: (T, T) -> bool) {
    forall a, b :: le(a, b) && le(b, a) ==> a == b
  }

  ghost predicate Sorted<T>(s: seq<T>, le: (T, T) -> bool) {
    forall i, j :: 0 <= i < j < |s| ==> le(s[i], s[j])
  }

  predicate Distinct<T(==)>(s: seq<T>) {
    forall i, j :: 0 <= i < j < |s| ==> s[i] != s[j]
  }

  function Insert<T(!new)>(x: T, s: seq<T>, le: (T, T) -> bool): (r: seq<T>)
    requires TotalPreorder(le) && Sorted(s, le)
    ensures Sorted(r, le)
    ensures multiset(r) == multiset(s) + multiset{x}
  {
    if s == [] || le(x, s[0]) then
      InsertFront(x, s, le);
      [x] + s
    else
      var rest := Insert(x, s[1..], le);
      InsertBelow(x, s, le);
      InsertAfter(s, rest, le);
      MultisetRest(s);
      [s[0]] + rest
  }

  lemma InsertFront<T(!new)>(x: T, s: seq<T>, le: (T, T) -> bool)
    requires TotalPreorder(le) && Sorted(s, le)
    requires s == [] || le(x, s[0])
    ensures Sorted([x] + s, le)
  {
    forall j | 0 <= j < |s| ensures le(x, s[j]) {
      if j > 0 { assert le(s[0], s[j]); }
    }
  }

  /** When `x` goes after the head, the head is below `x` and below the rest. */
  lemma InsertBelow<T(!new)>(x: T, s: seq<T>, le: (T, T) -> bool)
    requires TotalPreorder(le) && Sorted(s, le)
    requires s != [] && !le(x, s[0])
    ensures forall y :: y in multiset(s[1..]) + multiset{x} ==> le(s[0], y)
  {
    forall y | y in multiset(s[1..]) + multiset{x} ensures le(s[0], y) {
      if y != x {
        var j :| 0 <= j < |s[1..]| && s[1..][j] == y;
        assert le(s[0], s[j + 1]);
      }
    }
  }

  lemma InsertAfter<T(!new)>(s: seq<T>, rest: seq<T>, le: (T, T) -> bool)
    requires s != [] && Sorted(rest, le)
    requires forall y :: y in multiset(rest) ==> le(s[0], y)
    ensures Sorted([s[0]] + rest, le)
  {
    forall k | 0 <= k < |rest| ensures le(s[0], rest[k]) {
      assert rest[k] in multiset(rest);
    }
  }

  /** Insertion sort: a sorted permutation of `xs` (stable, as Python's `sorted` is). */
  function Sort<T(!new)>(xs: seq<T>, le: (T, T) -> bool): (r: seq<T>)
    requires TotalPreorder(le)
    ensures Sorted(r, le)
    ensures multiset(r) == multiset(xs)
    ensures |r| == |xs|
  {
    if xs == [] then []
    else
      MultisetRest(xs);
      Insert(xs[0], Sort(xs[1..], le), le)
  }

  /** The first element of a sorted sequence is below every element of it. */
  lemma SortedHead<T(!new)>(s: seq<T>, x: T, le: (T, T) -> bool)
    requires TotalPreorder(le) && Sorted(s, le) && x in multiset(s)
    ensures le(s[0], x)
  {
    var i :| 0 <= i < |s| && s[i] == x;
    if i == 0 { assert le(x, x) || le(x, x); }
  }

  lemma SortedTail<T>(s: seq<T>, le: (T, T) -> bool)
    requires Sorted(s, le) && s != []
    ensures Sorted(s[1..], le)
  {
    forall i, j | 0 <= i < j < |s| - 1 ensures le(s[1..][i], s[1..][j]) { assert le(s[i + 1], s[j + 1]); }
  }

  /** Under an antisymmetric order, a multiset has exactly one sorted arrangement. */
  lemma {:induction false} SortedUnique<T(!new)>(a: seq<T>, b: seq<T>, le: (T, T) -> bool)
    requires TotalPreorder(le) && Antisymmetric(le)
    requires Sorted(a, le) && Sorted(b, le) && multiset(a) == multiset(b)
    ensures a == b
  {
    MultisetSize(a);
    MultisetSize(b);
    if a != [] {
      SortedHead(b, a[0], le);
      SortedHead(a, b[0], le);
      assert a[0] == b[0];
      MultisetRest(a);
      MultisetRest(b);
      SortedTail(a, le);
      SortedTail(b, le);
      SortedUnique(a[1..], b[1..], le);
      HeadTail(a);
      HeadTail(b);
    }
  }

  lemma {:induction false} DistinctCount<T>(s: seq<T>, x: T)
    requires Distinct(s)
    ensures multiset(s)[x] <= 1
  {
    if s != [] {
      var n := |s| - 1;
      assert s == s[..n] + [s[n]];
      assert s[n] !in s[..n];
      DistinctCount(s[..n], x);
    }
  }

  lemma DistinctSnoc<T>(s: seq<T>, x: T)
    requires Distinct(s) && x !in s
    ensures Distinct(s + [x])
  {
  }

  lemma DistinctPrefix<T>(s: seq<T>, m: nat)
    requires Distinct(s) && m <= |s|
    ensures Distinct(s[..m])
  {
    forall i, j | 0 <= i < j < m ensures s[..m][i] != s[..m][j] {
      assert s[i] != s[j];
    }
  }

  /** Rearranging a duplicate-free sequence keeps it duplicate-free. */
  lemma DistinctPermutation<T>(a: seq<T>, b: seq<T>)
    requires Distinct(a) && multiset(a) == multiset(b)
    ensures Distinct(b)
  {
    forall i, j | 0 <= i < j < |b| ensures b[i] != b[j] {
      if b[i] == b[j] {
        assert b == b[..j] + b[j..];
        assert b[i] in b[..j] && b[j] in b[j..];
        assert multiset(b)[b[i]] == multiset(b[..j])[b[i]] + multiset(b[j..])[b[i]] >= 2;
        DistinctCount(a, b[i]);
      }
    }
  }

  // ---------------------------------------------------------------------------
  // Python's order on strings.

  predicate StrLe(a: string, b: string) {
    a == [] || (b != [] && (a[0] < b[0] || (a[0] == b[0] && StrLe(a[1..], b[1..]))))
  }

  lemma {:induction false} StrLeTotal(a: string, b: string)
    ensures StrLe(a, b) || StrLe(b, a)
  {
    if a != [] && b != [] && a[0] == b[0] { StrLeTotal(a[1..], b[1..]); }
  }

  lemma {:induction false} StrLeTransitive(a: string, b: string, c: string)
    requires StrLe(a, b) && StrLe(b, c)
    ensures StrLe(a, c)
  {
    if a != [] && b != [] && c != [] && a[0] == b[0] == c[0] {
      StrLeTransitive(a[1..], b[1..], c[1..]);
    }
  }

  lemma {:induction false} StrLeAntisymmetric(a: string, b: string)
    requires StrLe(a, b) && StrLe(b, a)
    ensures a == b
  {
    if a != [] && b != [] {
      StrLeAntisymmetric(a[1..], b[1..]);
      assert a == [a[0]] + a[1..] && b == [b[0]] + b[1..];
    }
  }

  lemma StrLeIsOrder()
    ensures TotalPreorder(StrLe) && Antisymmetric(StrLe)
  {
    forall a, b ensures StrLe(a, b) || StrLe(b, a) { StrLeTotal(a, b); }
    forall a, b, c | StrLe(a, b) && StrLe(b, c) ensures StrLe(a, c) { StrLeTransitive(a, b, c); }
    forall a, b | StrLe(a, b) && StrLe(b, a) ensures a == b { StrLeAntisymmetric(a, b); }
  }

  predicate IntLe(a: int, b: int) { a <= b }

  lemma IntLeIsOrder()
    ensures TotalPreorder(IntLe) && Antisymmetric(IntLe)
  {
  }

  // ---------------------------------------------------------------------------
  // pandas `unique` and `sorted(... .unique())`.

  /** The distinct values of `xs`, each at its first occurrence (pandas `Series.unique`). */
  function Unique<T(==,!new)>(xs: seq<T>): (r: seq<T>)
    ensures Distinct(r)
    ensures forall x :: x in r <==> x in xs
  {
    if xs == [] then []
    else
      var n := |xs| - 1;
      var u := Unique(xs[..n]);
      assert forall x :: x in xs <==> x in xs[..n] || x == xs[n] by { assert xs == xs[..n] + [xs[n]]; }
      if xs[n] in u then u else u + [xs[n]]
  }

  /** Python `sorted(set_of_strings)`: strictly increasing, with exactly the given values. */
  function SortedStrings(xs: seq<string>): (r: seq<string>)
    ensures Sorted(r, StrLe) && Distinct(r)
    ensures forall x :: x in r <==> x in xs
  {
    StrLeIsOrder();
    var u := Unique(xs);
    var r := Sort(u, StrLe);
    DistinctPermutation(u, r);
    assert forall x :: x in r <==> x in multiset(u);
    r
  }

  /** `sorted` on distinct whole numbers: strictly increasing, with exactly the given values. */
  function SortedInts(xs: seq<int>): (r: seq<int>)
    ensures forall i, j :: 0 <= i < j < |r| ==> r[i] < r[j]
    ensures forall x :: x in r <==> x in xs
  {
    IntLeIsOrder();
    var u := Unique(xs);
    var r := Sort(u, IntLe);
    DistinctPermutation(u, r);
    assert forall x :: x in r <==> x in multiset(u);
    assert forall i, j :: 0 <= i < j < |r| ==> IntLe(r[i], r[j]) && r[i] != r[j];
    r
  }
}
