/**
 * The pandas operations every view is built from: boolean-mask filtering, `isin`
 * allow-lists, `groupby(...).size()` (which drops rows whose key is missing),
 * zero-filled lookups, per-group sums and the descending `nlargest` / `head` cut.
 */
module Tables {
  import opened Wrappers
  import opened Ordering
  import opened Seqs

  /** One row of a group-by count table: a key and the number of rows that have it. */
  datatype Bucket<K> = Bucket(key: K, count: nat)

  // ---------------------------------------------------------------------------
  // Filtering.

  /** `df[mask]`: the rows satisfying `p`, in order. */
  function Keep<T>(rows: seq<T>, p: T -> bool): (r: seq<T>)
    ensures |r| <= |rows|
    ensures forall i :: 0 <= i < |r| ==> p(r[i])
  {
    if rows == [] then [] else (if p(rows[0]) then [rows[0]] else []) + Keep(rows[1..], p)
  }

  /** Filtering keeps every row that passes, as often as it occurs, and no other row. */
  lemma {:induction false} KeepMultiset<T>(rows: seq<T>, p: T -> bool, x: T)
    ensures multiset(Keep(rows, p))[x] == if p(x) then multiset(rows)[x] else 0
  {
    if rows != [] {
      KeepMultiset(rows[1..], p, x);
      var h := if p(rows[0]) then [rows[0]] else [];
      assert multiset(Keep(rows, p)) == multiset(h) + multiset(Keep(rows[1..], p));
      MultisetRest(rows);
    }
  }

  /** A row is in the filtered table exactly when it is in the table and passes. */
  lemma KeepMember<T>(rows: seq<T>, p: T -> bool, x: T)
    ensures x in Keep(rows, p) <==> x in rows && p(x)
  {
    KeepMultiset(rows, p, x);
    assert x in Keep(rows, p) <==> multiset(Keep(rows, p))[x] > 0;
    assert x in rows <==> multiset(rows)[x] > 0;
  }

  lemma {:induction false} KeepAppend<T>(a: seq<T>, b: seq<T>, p: T -> bool)
    ensures Keep(a + b, p) == Keep(a, p) + Keep(b, p)
  {
    if a != [] {
      AppendHeadTail(a, b);
      KeepAppend(a[1..], b, p);
      var h := if p(a[0]) then [a[0]] else [];
      assert Keep(a + b, p) == h + Keep(a[1..] + b, p);
      assert Keep(a, p) == h + Keep(a[1..], p);
      Assoc(h, Keep(a[1..], p), Keep(b, p));
    } else {
      EmptyAppend(a, b);
    }
  }

  /** Two filters applied one after the other give the same table in either order. */
  lemma {:induction false} KeepCommutes<T>(rows: seq<T>, p: T -> bool, q: T -> bool)
    ensures Keep(Keep(rows, p), q) == Keep(Keep(rows, q), p)
  {
    if rows != [] {
      var head := [rows[0]];
      assert rows == head + rows[1..];
      KeepAppend(head, rows[1..], p);
      KeepAppend(head, rows[1..], q);
      KeepAppend(Keep(head, p), Keep(rows[1..], p), q);
      KeepAppend(Keep(head, q), Keep(rows[1..], q), p);
      KeepCommutes(rows[1..], p, q);
    }
  }

  /** A filter that every row passes removes nothing. */
  lemma {:induction false} KeepAll<T>(rows: seq<T>, p: T -> bool)
    requires forall i :: 0 <= i < |rows| ==> p(rows[i])
    ensures Keep(rows, p) == rows
  {
    if rows != [] {
      KeepAll(rows[1..], p);
      assert rows == [rows[0]] + rows[1..];
    }
  }

  /**
   * A `Series.isin(selection)` filter behind `if selection:`: an empty (or absent)
   * selection lets every row through; otherwise only a present value in the selection
   * passes (a missing value is never "in" a list of strings).
   */
  predicate Allows(selection: seq<string>, v: Option<string>) {
    |selection| == 0 || (v.Some? && v.value in selection)
  }

  /** One column of a table: the value of `f` on every row, in row order. */
  function Column<T, K>(rows: seq<T>, f: T -> K): (r: seq<K>)
    ensures |r| == |rows|
    ensures forall i :: 0 <= i < |rows| ==> r[i] == f(rows[i])
  {
    seq(|rows|, i requires 0 <= i < |rows| => f(rows[i]))
  }

  /** The present values of a column with missing cells (`dropna()`), in row order. */
  function Present<T, K(!new)>(rows: seq<T>, f: T -> Option<K>): (r: seq<K>)
    ensures forall x :: x in r <==> exists i :: 0 <= i < |rows| && f(rows[i]) == Some(x)
  {
    if rows == [] then []
    else
      var rest := Present(rows[1..], f);
      assert forall x :: (exists i :: 0 <= i < |rows| - 1 && f(rows[1..][i]) == Some(x))
                     <==> (exists i :: 1 <= i < |rows| && f(rows[i]) == Some(x)) by {
        forall x | exists i :: 1 <= i < |rows| && f(rows[i]) == Some(x)
          ensures exists i :: 0 <= i < |rows| - 1 && f(rows[1..][i]) == Some(x)
        {
          var i :| 1 <= i < |rows| && f(rows[i]) == Some(x);
          assert rows[1..][i - 1] == rows[i];
        }
      }
      (if f(rows[0]).Some? then [f(rows[0]).value] else []) + rest
  }

  // ---------------------------------------------------------------------------
  // Counting rows by key.

  /** The number of rows whose key is present and equal to `k`. */
  function CountKey<T, K(==)>(rows: seq<T>, key: T -> Option<K>, k: K): nat {
    if rows == [] then 0 else (if key(rows[0]) == Some(k) then 1 else 0) + CountKey(rows[1..], key, k)
  }

  /** The number of rows whose key is present. */
  function CountKeyed<T, K>(rows: seq<T>, key: T -> Option<K>): nat {
    if rows == [] then 0 else (if key(rows[0]).Some? then 1 else 0) + CountKeyed(rows[1..], key)
  }

  /** The number of rows whose key is present and satisfies `p`. */
  function CountKeyWhere<T, K>(rows: seq<T>, key: T -> Option<K>, p: K -> bool): nat {
    if rows == [] then 0
    else (if key(rows[0]).Some? && p(key(rows[0]).value) then 1 else 0) + CountKeyWhere(rows[1..], key, p)
  }

  lemma {:induction false} CountKeyedAll<T, K>(rows: seq<T>, key: T -> Option<K>)
    requires forall i :: 0 <= i < |rows| ==> key(rows[i]).Some?
    ensures CountKeyed(rows, key) == |rows|
  {
    if rows != [] { CountKeyedAll(rows[1..], key); }
  }

  /** A key counted at least once is the key of some row. */
  lemma {:induction false} CountKeyWitness<T, K>(rows: seq<T>, key: T -> Option<K>, k: K) returns (i: nat)
    requires CountKey(rows, key, k) > 0
    ensures i < |rows| && key(rows[i]) == Some(k)
  {
    if key(rows[0]) == Some(k) {
      i := 0;
    } else {
      var j := CountKeyWitness(rows[1..], key, k);
      i := j + 1;
    }
  }

  /**
   * Filtering by a condition that is decided by the key alone either keeps every row of
   * key `k` or none of them.
   */
  lemma {:induction false} CountKeyKeep<T, K>(rows: seq<T>, key: T -> Option<K>, p: T -> bool, k: K, c: bool)
    requires forall i :: 0 <= i < |rows| && key(rows[i]) == Some(k) ==> p(rows[i]) == c
    ensures CountKey(Keep(rows, p), key, k) == if c then CountKey(rows, key, k) else 0
  {
    if rows != [] {
      var tail := rows[1..];
      forall i | 0 <= i < |tail| && key(tail[i]) == Some(k) ensures p(tail[i]) == c {
        assert tail[i] == rows[i + 1];
      }
      CountKeyKeep(tail, key, p, k, c);
      if p(rows[0]) {
        var kept := Keep(rows, p);
        assert kept == [rows[0]] + Keep(tail, p);
        assert kept[0] == rows[0] && kept[1..] == Keep(tail, p);
      } else {
        assert Keep(rows, p) == Keep(tail, p);
      }
    }
  }

  function Keys<K>(t: seq<Bucket<K>>): (r: seq<K>)
    ensures |r| == |t|
    ensures forall i :: 0 <= i < |t| ==> r[i] == t[i].key
  {
    seq(|t|, i requires 0 <= i < |t| => t[i].key)
  }

  ghost predicate Positive<K>(t: seq<Bucket<K>>) {
    forall i :: 0 <= i < |t| ==> t[i].count >= 1
  }

  /** The count stored for `k`, or 0 when `k` is absent (`fill_value=0`, "or 0 if absent"). */
  function Lookup<K(==)>(t: seq<Bucket<K>>, k: K): nat {
    if t == [] then 0 else if t[0].key == k then t[0].count else Lookup(t[1..], k)
  }

  /** The sum of all counts. */
  function Total<K>(t: seq<Bucket<K>>): nat {
    if t == [] then 0 else t[0].count + Total(t[1..])
  }

  /** The sum of the counts whose key satisfies `p`. */
  function TotalWhere<K>(t: seq<Bucket<K>>, p: K -> bool): nat {
    if t == [] then 0 else (if p(t[0].key) then t[0].count else 0) + TotalWhere(t[1..], p)
  }

  lemma {:induction false} LookupAt<K>(t: seq<Bucket<K>>, i: nat)
    requires Distinct(Keys(t)) && i < |t|
    ensures Lookup(t, t[i].key) == t[i].count
  {
    if i > 0 {
      assert Keys(t)[0] != Keys(t)[i];
      assert Keys(t[1..]) == Keys(t)[1..];
      LookupAt(t[1..], i - 1);
    }
  }

  lemma {:induction false} LookupAbsent<K>(t: seq<Bucket<K>>, k: K)
    requires k !in Keys(t)
    ensures Lookup(t, k) == 0
  {
    if t != [] {
      assert Keys(t[1..]) == Keys(t)[1..];
      LookupAbsent(t[1..], k);
    }
  }
  /** A row whose key is absent from a table is not one of its rows. */
  lemma KeyAbsent<K>(t: seq<Bucket<K>>, b: Bucket<K>)
    requires b.key !in Keys(t)
    ensures b !in t
  {
  }

  /** A positive lookup means the key is present; a present key of a positive table looks up positive. */
  lemma {:induction false} LookupPresent<K>(t: seq<Bucket<K>>, k: K)
    ensures Lookup(t, k) > 0 ==> k in Keys(t)
    ensures Positive(t) && k in Keys(t) ==> Lookup(t, k) >= 1
  {
    if t != [] {
      LookupPresent(t[1..], k);
      assert Keys(t) == [t[0].key] + Keys(t[1..]);
      assert Positive(t) ==> t[0].count >= 1 && Positive(t[1..]);
    }
  }


  /** Add `n` rows with key `k`: grow its bucket, or append a new bucket of `n`. */
  function AddTo<K(==)>(t: seq<Bucket<K>>, k: K, n: nat): (r: seq<Bucket<K>>)
    ensures Keys(r) == if k in Keys(t) then Keys(t) else Keys(t) + [k]
  {
    if t == [] then [Bucket(k, n)]
    else if t[0].key == k then
      KeysCons(Bucket(k, t[0].count + n), t[1..]);
      KeysCons(t[0], t[1..]);
      HeadTail(t);
      [Bucket(k, t[0].count + n)] + t[1..]
    else
      var rest := AddTo(t[1..], k, n);
      KeysCons(t[0], t[1..]);
      KeysCons(t[0], rest);
      HeadTail(t);
      Assoc([t[0].key], Keys(t[1..]), [k]);
      [t[0]] + rest
  }

  lemma KeysCons<K>(b: Bucket<K>, t: seq<Bucket<K>>)
    ensures Keys([b] + t) == [b.key] + Keys(t)
  {
    var l, r := Keys([b] + t), [b.key] + Keys(t);
    forall i | 0 <= i < |l| ensures l[i] == r[i] {
      if i > 0 { assert ([b] + t)[i] == t[i - 1]; }
    }
  }

  lemma AddToDistinct<K>(t: seq<Bucket<K>>, k: K, n: nat)
    requires Distinct(Keys(t))
    ensures Distinct(Keys(AddTo(t, k, n)))
  {
    if k !in Keys(t) {
      DistinctSnoc(Keys(t), k);
    }
  }

  lemma AddToCounts<K>(t: seq<Bucket<K>>, k: K, n: nat)
    ensures forall j :: Lookup(AddTo(t, k, n), j) == Lookup(t, j) + (if j == k then n else 0)
    ensures Total(AddTo(t, k, n)) == Total(t) + n
    ensures Positive(t) && n >= 1 ==> Positive(AddTo(t, k, n))
  {
    forall j ensures Lookup(AddTo(t, k, n), j) == Lookup(t, j) + (if j == k then n else 0) {
      AddToLookup(t, k, n, j);
    }
    AddToTotal(t, k, n);
    if Positive(t) && n >= 1 { AddToPositive(t, k, n); }
  }

  lemma {:induction false} AddToLookup<K>(t: seq<Bucket<K>>, k: K, n: nat, j: K)
    ensures Lookup(AddTo(t, k, n), j) == Lookup(t, j) + (if j == k then n else 0)
  {
    if t != [] && t[0].key != k {
      AddToLookup(t[1..], k, n, j);
      var r := AddTo(t, k, n);
      assert r == [t[0]] + AddTo(t[1..], k, n);
      assert r[1..] == AddTo(t[1..], k, n);
    } else if t != [] {
      var r := AddTo(t, k, n);
      assert r[0] == Bucket(k, t[0].count + n) && r[1..] == t[1..];
    }
  }

  lemma {:induction false} AddToTotal<K>(t: seq<Bucket<K>>, k: K, n: nat)
    ensures Total(AddTo(t, k, n)) == Total(t) + n
  {
    if t != [] && t[0].key != k {
      AddToTotal(t[1..], k, n);
      var r := AddTo(t, k, n);
      assert r == [t[0]] + AddTo(t[1..], k, n);
      assert r[1..] == AddTo(t[1..], k, n);
    } else if t != [] {
      var r := AddTo(t, k, n);
      assert r[0] == Bucket(k, t[0].count + n) && r[1..] == t[1..];
    }
  }

  lemma {:induction false} AddToPositive<K>(t: seq<Bucket<K>>, k: K, n: nat)
    requires Positive(t) && n >= 1
    ensures Positive(AddTo(t, k, n))
  {
    if t == [] {
      assert AddTo(t, k, n) == [Bucket(k, n)];
    } else if t[0].key != k {
      PositiveTail(t);
      AddToPositive(t[1..], k, n);
      PositiveCons(t[0], AddTo(t[1..], k, n));
    } else {
      PositiveTail(t);
      PositiveCons(Bucket(k, t[0].count + n), t[1..]);
    }
  }

  lemma PositiveTail<K>(t: seq<Bucket<K>>)
    requires Positive(t) && t != []
    ensures t[0].count >= 1 && Positive(t[1..])
  {
    forall i | 0 <= i < |t[1..]| ensures t[1..][i].count >= 1 { assert t[1..][i] == t[i + 1]; }
  }

  lemma PositiveCons<K>(b: Bucket<K>, t: seq<Bucket<K>>)
    requires b.count >= 1 && Positive(t)
    ensures Positive([b] + t)
  {
    forall i | 0 <= i < |[b] + t| ensures ([b] + t)[i].count >= 1 {
      if i > 0 { assert ([b] + t)[i] == t[i - 1]; }
    }
  }

  /**
   * `groupby(key).size()`: one bucket per distinct present key, holding the number of rows
   * with that key; rows whose key is missing are dropped, as pandas does by default.
   */
  function GroupBy<T, K(==,!new)>(rows: seq<T>, key: T -> Option<K>): (t: seq<Bucket<K>>)
    ensures Distinct(Keys(t)) && Positive(t)
    ensures forall i :: 0 <= i < |t| ==> t[i].count == CountKey(rows, key, t[i].key)
    ensures forall k :: Lookup(t, k) == CountKey(rows, key, k)
    ensures forall k :: k in Keys(t) <==> CountKey(rows, key, k) > 0
    ensures Total(t) == CountKeyed(rows, key)
  {
    if rows == [] then []
    else
      var t := GroupBy(rows[1..], key);
      var r := if key(rows[0]).None? then t else AddTo(t, key(rows[0]).value, 1);
      GroupStep(rows, key, t);
      TableFacts(r, rows, key);
      r
  }

  /** Counting one more row: the head row's key, if present, gains one. */
  lemma GroupStep<T, K(!new)>(rows: seq<T>, key: T -> Option<K>, t: seq<Bucket<K>>)
    requires rows != []
    requires Distinct(Keys(t)) && Positive(t)
    requires forall k :: Lookup(t, k) == CountKey(rows[1..], key, k)
    requires Total(t) == CountKeyed(rows[1..], key)
    ensures var r := if key(rows[0]).None? then t else AddTo(t, key(rows[0]).value, 1);
      && Distinct(Keys(r)) && Positive(r) && Total(r) == CountKeyed(rows, key)
      && forall k :: Lookup(r, k) == CountKey(rows, key, k)
  {
    if key(rows[0]).Some? {
      AddToDistinct(t, key(rows[0]).value, 1);
      AddToCounts(t, key(rows[0]).value, 1);
    }
  }

  /** A table with distinct keys that looks up the row counts holds them at every position. */
  lemma TableFacts<T, K(!new)>(r: seq<Bucket<K>>, rows: seq<T>, key: T -> Option<K>)
    requires Distinct(Keys(r)) && Positive(r)
    requires forall k :: Lookup(r, k) == CountKey(rows, key, k)
    ensures forall i :: 0 <= i < |r| ==> r[i].count == CountKey(rows, key, r[i].key)
    ensures forall k :: k in Keys(r) <==> CountKey(rows, key, k) > 0
  {
    forall i | 0 <= i < |r| ensures r[i].count == CountKey(rows, key, r[i].key) { LookupAt(r, i); }
    forall k | k !in Keys(r) ensures CountKey(rows, key, k) == 0 { LookupAbsent(r, k); }
    forall k | k in Keys(r) ensures CountKey(rows, key, k) > 0 {
      var i :| 0 <= i < |r| && Keys(r)[i] == k;
      LookupAt(r, i);
    }
  }

  lemma {:induction false} AddToTotalWhere<K>(t: seq<Bucket<K>>, k: K, n: nat, p: K -> bool)
    ensures TotalWhere(AddTo(t, k, n), p) == TotalWhere(t, p) + (if p(k) then n else 0)
  {
    if t != [] && t[0].key != k {
      AddToTotalWhere(t[1..], k, n, p);
      assert AddTo(t, k, n) == [t[0]] + AddTo(t[1..], k, n);
    }
  }

  /** Group totals over any predicate on the keys: the number of rows whose key satisfies it. */
  lemma {:induction false} GroupByTotalWhere<T, K(!new)>(rows: seq<T>, key: T -> Option<K>, p: K -> bool)
    ensures TotalWhere(GroupBy(rows, key), p) == CountKeyWhere(rows, key, p)
  {
    if rows != [] {
      GroupByTotalWhere(rows[1..], key, p);
      if key(rows[0]).Some? { AddToTotalWhere(GroupBy(rows[1..], key), key(rows[0]).value, 1, p); }
    }
  }

  /** Every count is at most the total of the counts that share its key property. */
  lemma {:induction false} CountBelowTotalWhere<K>(t: seq<Bucket<K>>, i: nat, p: K -> bool)
    requires i < |t| && p(t[i].key)
    ensures t[i].count <= TotalWhere(t, p)
  {
    if i > 0 { CountBelowTotalWhere(t[1..], i - 1, p); }
  }

  /** The key predicate "projects to `j`", one value shared by every statement that uses it. */
  function Is<K, J(==)>(proj: K -> J, j: J): K -> bool {
    k => proj(k) == j
  }

  /**
   * `groupby(proj)[count].sum()` on a count table: one bucket per distinct projected key,
   * holding the sum of the counts whose key projects to it.
   */
  function SumBy<K, J(==,!new)>(t: seq<Bucket<K>>, proj: K -> J): (r: seq<Bucket<J>>)
    ensures Distinct(Keys(r))
    ensures forall j :: Lookup(r, j) == TotalWhere(t, Is(proj, j))
    ensures forall j :: j in Keys(r) <==> exists i :: 0 <= i < |t| && proj(t[i].key) == j
    ensures Total(r) == Total(t)
    ensures Positive(t) ==> Positive(r)
  {
    if t == [] then []
    else
      var rest := SumBy(t[1..], proj);
      SumByStep(t, proj, rest);
      AddTo(rest, proj(t[0].key), t[0].count)
  }

  /** Summing one more bucket into the sums of the others. */
  lemma SumByStep<K, J(!new)>(t: seq<Bucket<K>>, proj: K -> J, rest: seq<Bucket<J>>)
    requires t != []
    requires Distinct(Keys(rest))
    requires forall j :: Lookup(rest, j) == TotalWhere(t[1..], Is(proj, j))
    requires forall j :: j in Keys(rest) <==> exists i :: 0 <= i < |t[1..]| && proj(t[1..][i].key) == j
    requires Total(rest) == Total(t[1..])
    requires Positive(t[1..]) ==> Positive(rest)
    ensures var r := AddTo(rest, proj(t[0].key), t[0].count);
      && Distinct(Keys(r))
      && (forall j :: Lookup(r, j) == TotalWhere(t, Is(proj, j)))
      && (forall j :: j in Keys(r) <==> exists i :: 0 <= i < |t| && proj(t[i].key) == j)
      && Total(r) == Total(t)
      && (Positive(t) ==> Positive(r))
  {
    var j0 := proj(t[0].key);
    var r := AddTo(rest, j0, t[0].count);
    AddToDistinct(rest, j0, t[0].count);
    AddToCounts(rest, j0, t[0].count);
    forall j ensures j in Keys(r) <==> exists i :: 0 <= i < |t| && proj(t[i].key) == j {
      if j in Keys(rest) && j != j0 {
        var i :| 0 <= i < |t[1..]| && proj(t[1..][i].key) == j;
        assert proj(t[i + 1].key) == j;
      }
      if (exists i :: 0 <= i < |t| && proj(t[i].key) == j) && j != j0 {
        var i :| 0 <= i < |t| && proj(t[i].key) == j;
        assert i > 0 && proj(t[1..][i - 1].key) == j;
      }
    }
    if Positive(t) { PositiveTail(t); }
  }

  // ---------------------------------------------------------------------------
  // Counting rows by a total key (no missing values).

  /** The number of rows whose `f` value is `k`. */
  function CountEq<T, K(==)>(rows: seq<T>, f: T -> K, k: K): nat {
    if rows == [] then 0 else (if f(rows[0]) == k then 1 else 0) + CountEq(rows[1..], f, k)
  }

  /** The number of rows whose `f` value lies in `s`. */
  function CountIn<T, K>(rows: seq<T>, f: T -> K, s: set<K>): nat {
    if rows == [] then 0 else (if f(rows[0]) in s then 1 else 0) + CountIn(rows[1..], f, s)
  }

  /** The counts of `ks[0]`, `ks[1]`, ... added up. */
  function SumEach<T, K(==)>(rows: seq<T>, f: T -> K, ks: seq<K>): nat {
    if ks == [] then 0 else CountEq(rows, f, ks[0]) + SumEach(rows, f, ks[1..])
  }

  /** Filtering on "`f` is `k`" keeps exactly the rows `CountEq` counts. */
  lemma {:induction false} KeepIsCount<T, K>(rows: seq<T>, f: T -> K, k: K)
    ensures |Keep(rows, Is(f, k))| == CountEq(rows, f, k)
  {
    if rows != [] { KeepIsCount(rows[1..], f, k); }
  }

  lemma {:induction false} CountInSplit<T, K>(rows: seq<T>, f: T -> K, s: set<K>, k: K)
    requires k in s
    ensures CountIn(rows, f, s) == CountEq(rows, f, k) + CountIn(rows, f, s - {k})
  {
    if rows != [] { CountInSplit(rows[1..], f, s, k); }
  }

  lemma {:induction false} CountInNone<T, K>(rows: seq<T>, f: T -> K)
    ensures CountIn(rows, f, {}) == 0
  {
    if rows != [] { CountInNone(rows[1..], f); }
  }

  /** Counting each of some distinct values in turn counts the rows holding any of them. */
  lemma {:induction false} SumEachCover<T, K>(rows: seq<T>, f: T -> K, ks: seq<K>)
    requires Distinct(ks)
    ensures SumEach(rows, f, ks) == CountIn(rows, f, set k | k in ks)
  {
    if ks == [] {
      assert (set k | k in ks) == {};
      CountInNone(rows, f);
    } else {
      SumEachCover(rows, f, ks[1..]);
      CountInSplit(rows, f, (set k | k in ks), ks[0]);
      assert (set k | k in ks) - {ks[0]} == set k | k in ks[1..];
    }
  }

  /** When every row's value lies in `s`, `CountIn` counts every row. */
  lemma {:induction false} CountInAll<T, K>(rows: seq<T>, f: T -> K, s: set<K>)
    requires forall i :: 0 <= i < |rows| ==> f(rows[i]) in s
    ensures CountIn(rows, f, s) == |rows|
  {
    if rows != [] { CountInAll(rows[1..], f, s); }
  }

  // ---------------------------------------------------------------------------
  // The first `n` groups by descending count.

  predicate CountAtLeast<K>(x: Bucket<K>, y: Bucket<K>) { x.count >= y.count }

  lemma CountAtLeastIsPreorder<K(!new)>()
    ensures TotalPreorder(CountAtLeast<K>)
  {
  }

  /** The table reordered by non-increasing count (which of two tied groups comes first is not specified). */
  function ByCountDescending<K(!new)>(t: seq<Bucket<K>>): (r: seq<Bucket<K>>)
    ensures multiset(r) == multiset(t) && |r| == |t|
    ensures forall i, j :: 0 <= i < j < |r| ==> r[i].count >= r[j].count
  {
    CountAtLeastIsPreorder<K>();
    var r := Sort(t, CountAtLeast<K>);
    assert forall i, j :: 0 <= i < j < |r| ==> CountAtLeast(r[i], r[j]);
    r
  }

  /** Cutting a descending arrangement of `t` after `m` groups keeps the largest counts. */
  lemma TopCut<K(!new)>(t: seq<Bucket<K>>, s: seq<Bucket<K>>, m: nat)
    requires multiset(s) == multiset(t) && m <= |s|
    requires forall i, j :: 0 <= i < j < |s| ==> s[i].count >= s[j].count
    ensures forall b :: b in s[..m] ==> b in t
    ensures forall b :: b in t && b !in s[..m] ==> forall i :: 0 <= i < m ==> b.count <= s[i].count
    ensures Distinct(Keys(t)) ==> Distinct(Keys(s[..m]))
  {
    TopCutMembers(t, s, m);
    if Distinct(Keys(t)) {
      ReorderedDistinct(t, s);
      DistinctPrefixKeys(s, m);
    }
  }

  lemma TopCutMembers<K(!new)>(t: seq<Bucket<K>>, s: seq<Bucket<K>>, m: nat)
    requires multiset(s) == multiset(t) && m <= |s|
    requires forall i, j :: 0 <= i < j < |s| ==> s[i].count >= s[j].count
    ensures forall b :: b in s[..m] ==> b in t
    ensures forall b :: b in t && b !in s[..m] ==> forall i :: 0 <= i < m ==> b.count <= s[i].count
  {
    var r := s[..m];
    forall b | b in r ensures b in t {
      assert b in multiset(s);
    }
    forall b | b in t && b !in r ensures forall i :: 0 <= i < m ==> b.count <= s[i].count {
      assert b in multiset(s);
      var j :| 0 <= j < |s| && s[j] == b;
      assert j >= m;
    }
  }

  lemma DistinctPrefixKeys<K>(s: seq<Bucket<K>>, m: nat)
    requires Distinct(Keys(s)) && m <= |s|
    ensures Distinct(Keys(s[..m]))
  {
    var p := s[..m];
    assert Keys(p) == Keys(s)[..m] by {
      forall i | 0 <= i < m ensures Keys(p)[i] == Keys(s)[..m][i] {
        assert p[i] == s[i];
      }
    }
    DistinctPrefix(Keys(s), m);
  }

  function Min(a: nat, b: nat): nat { if a <= b then a else b }

  /**
   * `nlargest(n)` / `value_counts().head(n)` on a group table: at most `n` groups, in
   * non-increasing count order, and no group left out has a larger count than one kept.
   */
  function Top<K(==,!new)>(t: seq<Bucket<K>>, n: nat): (r: seq<Bucket<K>>)
    ensures |r| == Min(n, |t|)
    ensures forall i, j :: 0 <= i < j < |r| ==> r[i].count >= r[j].count
    ensures forall b :: b in r ==> b in t
    ensures forall b :: b in t && b !in r ==> forall i :: 0 <= i < |r| ==> b.count <= r[i].count
    ensures Distinct(Keys(t)) ==> Distinct(Keys(r))
    ensures |t| <= n ==> forall b :: b in t ==> b in r
  {
    var s := ByCountDescending(t);
    var m := Min(n, |t|);
    TopCut(t, s, m);
    WholeCut(t, s, m);
    s[..m]
  }

  /** Cutting a rearrangement of `t` after all of its groups keeps every group. */
  lemma WholeCut<K>(t: seq<Bucket<K>>, s: seq<Bucket<K>>, m: nat)
    requires multiset(s) == multiset(t) && m <= |s|
    ensures m == |s| ==> forall b :: b in t ==> b in s[..m]
  {
    if m == |s| {
      assert s[..m] == s;
      forall b | b in t ensures b in s {
        assert b in multiset(t);
      }
    }
  }

  /**
   * `groupby(key).size().nlargest(n)` / `value_counts().head(n)`: `n` distinct keys, or all
   * of them when there are fewer, each with its row count, in non-increasing order, and no
   * key left out occurs more often than a key kept.
   */
  function TopCounts<T, K(==,!new)>(rows: seq<T>, key: T -> Option<K>, n: nat): (t: seq<Bucket<K>>)
    ensures |t| == Min(n, |GroupBy(rows, key)|)
    ensures |t| < n ==> forall k :: CountKey(rows, key, k) > 0 ==> k in Keys(t)
    ensures Distinct(Keys(t)) && Positive(t)
    ensures forall i :: 0 <= i < |t| ==> t[i].count == CountKey(rows, key, t[i].key)
    ensures forall i, j :: 0 <= i < j < |t| ==> t[i].count >= t[j].count
    ensures forall k :: CountKey(rows, key, k) > 0 && k !in Keys(t) ==>
              forall i :: 0 <= i < |t| ==> CountKey(rows, key, k) <= t[i].count
  {
    var g := GroupBy(rows, key);
    TopKept(g, n, rows, key);
    TopBeaten(g, n, rows, key);
    TopAll(g, n, rows, key);
    Top(g, n)
  }

  /** A cut that keeps fewer than `n` groups has kept every key that occurs. */
  lemma TopAll<T, K(!new)>(g: seq<Bucket<K>>, n: nat, rows: seq<T>, key: T -> Option<K>)
    requires forall k :: k in Keys(g) <==> CountKey(rows, key, k) > 0
    ensures |Top(g, n)| < n ==> forall k :: CountKey(rows, key, k) > 0 ==> k in Keys(Top(g, n))
  {
    var t := Top(g, n);
    if |t| < n {
      forall k | CountKey(rows, key, k) > 0 ensures k in Keys(t) {
        var m :| 0 <= m < |g| && Keys(g)[m] == k;
        assert g[m] in g;
        var j :| 0 <= j < |t| && t[j] == g[m];
        assert Keys(t)[j] == k;
      }
    }
  }

  lemma TopKept<T, K(!new)>(g: seq<Bucket<K>>, n: nat, rows: seq<T>, key: T -> Option<K>)
    requires Positive(g)
    requires forall i :: 0 <= i < |g| ==> g[i].count == CountKey(rows, key, g[i].key)
    ensures Positive(Top(g, n))
    ensures forall i :: 0 <= i < |Top(g, n)| ==> Top(g, n)[i].count == CountKey(rows, key, Top(g, n)[i].key)
  {
    var t := Top(g, n);
    forall i | 0 <= i < |t| ensures t[i].count == CountKey(rows, key, t[i].key) && t[i].count >= 1 {
      var b := t[i];
      assert b in g;
    }
  }

  lemma TopBeaten<T, K(!new)>(g: seq<Bucket<K>>, n: nat, rows: seq<T>, key: T -> Option<K>)
    requires forall k :: k in Keys(g) <==> CountKey(rows, key, k) > 0
    requires forall i :: 0 <= i < |g| ==> g[i].count == CountKey(rows, key, g[i].key)
    ensures forall k :: CountKey(rows, key, k) > 0 && k !in Keys(Top(g, n)) ==>
              forall i :: 0 <= i < |Top(g, n)| ==> CountKey(rows, key, k) <= Top(g, n)[i].count
  {
    var t := Top(g, n);
    forall k | CountKey(rows, key, k) > 0 && k !in Keys(t)
      ensures forall i :: 0 <= i < |t| ==> CountKey(rows, key, k) <= t[i].count
    {
      var m :| 0 <= m < |g| && Keys(g)[m] == k;
      var b := g[m];
      KeyAbsent(t, b);
    }
  }

  /** Two positions holding the same value make it occur twice. */
  lemma TwoIndices<T>(b: seq<T>, i: nat, j: nat)
    requires i < j < |b| && b[i] == b[j]
    ensures multiset(b)[b[i]] >= 2
  {
    var front, back := b[..j], b[j..];
    assert front + back == b;
    assert front[i] == b[i];
    assert back[0] == b[i];
    assert multiset(b) == multiset(front) + multiset(back);
  }

  /** A reordered table with distinct keys has the same keys, still distinct, and the same counts. */
  lemma Reordered<K>(a: seq<Bucket<K>>, b: seq<Bucket<K>>)
    requires multiset(a) == multiset(b) && Distinct(Keys(a))
    ensures Distinct(Keys(b))
    ensures forall k :: k in Keys(b) <==> k in Keys(a)
    ensures forall i :: 0 <= i < |b| ==> b[i].count == Lookup(a, b[i].key)
  {
    ReorderedCounts(a, b);
    ReorderedKeys(a, b);
    ReorderedDistinct(a, b);
  }

  lemma ReorderedDistinct<K>(a: seq<Bucket<K>>, b: seq<Bucket<K>>)
    requires multiset(a) == multiset(b) && Distinct(Keys(a))
    ensures Distinct(Keys(b))
  {
    var kb := Keys(b);
    forall i, j | 0 <= i < j < |kb| ensures kb[i] != kb[j] {
      ReorderedApart(a, b, i, j);
    }
  }

  lemma ReorderedCounts<K>(a: seq<Bucket<K>>, b: seq<Bucket<K>>)
    requires multiset(a) == multiset(b) && Distinct(Keys(a))
    ensures forall i :: 0 <= i < |b| ==> b[i].count == Lookup(a, b[i].key)
    ensures forall k :: k in Keys(b) ==> k in Keys(a)
  {
    forall k | k in Keys(b) ensures k in Keys(a) {
      var n :| 0 <= n < |b| && Keys(b)[n] == k;
      assert b[n] in multiset(b);
      var m := IndexIn(a, b[n]);
      assert Keys(a)[m] == k;
    }
    forall i | 0 <= i < |b| ensures b[i].count == Lookup(a, b[i].key) {
      assert b[i] in multiset(b);
      var m := IndexIn(a, b[i]);
      LookupAt(a, m);
    }
  }

  lemma ReorderedKeys<K>(a: seq<Bucket<K>>, b: seq<Bucket<K>>)
    requires multiset(a) == multiset(b)
    ensures forall k :: k in Keys(a) ==> k in Keys(b)
  {
    forall k | k in Keys(a) ensures k in Keys(b) {
      var m :| 0 <= m < |a| && Keys(a)[m] == k;
      assert a[m] in multiset(b);
      var n := IndexIn(b, a[m]);
      assert Keys(b)[n] == k;
    }
  }

  lemma ReorderedApart<K>(a: seq<Bucket<K>>, b: seq<Bucket<K>>, i: nat, j: nat)
    requires multiset(a) == multiset(b) && Distinct(Keys(a))
    requires i < j < |b|
    ensures b[i].key != b[j].key
  {
    if b[i].key == b[j].key {
      assert b[i] in multiset(b) && b[j] in multiset(b);
      var m := IndexIn(a, b[i]);
      var n := IndexIn(a, b[j]);
      assert Keys(a)[m] == Keys(a)[n];
      assert m == n;
      TwoIndices(b, i, j);
      assert Distinct(a) by {
        forall p, q | 0 <= p < q < |a| ensures a[p] != a[q] { assert Keys(a)[p] != Keys(a)[q]; }
      }
      DistinctCount(a, b[i]);
    }
  }

  /** The position in `a` of a bucket that `a` holds. */
  lemma IndexIn<K>(a: seq<Bucket<K>>, x: Bucket<K>) returns (m: nat)
    requires x in multiset(a)
    ensures m < |a| && a[m] == x
  {
    m :| 0 <= m < |a| && a[m] == x;
  }
}
