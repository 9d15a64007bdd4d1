/** Sums over rows, whole and by key: the folds of the aggregation scripts, and why the order of
    the rows does not matter to them. */
module Buckets {
  import opened Sorting

  /** A way of adding. */
  datatype Adding<!A> = Adding(zero: A, plus: (A, A) -> A)

  ghost predicate Lawful<A(!new)>(m: Adding<A>) {
    && (forall a :: m.plus(a, m.zero) == a)
    && (forall a, b :: m.plus(a, b) == m.plus(b, a))
    && (forall a, b, c :: m.plus(m.plus(a, b), c) == m.plus(a, m.plus(b, c)))
  }

  function Sum<T, A>(m: Adding<A>, rows: seq<T>, f: T -> A): A {
    if rows == [] then m.zero else m.plus(Sum(m, rows[..|rows| - 1], f), f(rows[|rows| - 1]))
  }

  /** What a row adds to the bucket `k`. */
  function Only<T, K(==), A>(m: Adding<A>, key: T -> K, k: K, f: T -> A): T -> A {
    r => if key(r) == k then f(r) else m.zero
  }

  /** The bucket `k` of the rows. */
  function SumAt<T, K(==), A>(m: Adding<A>, rows: seq<T>, key: T -> K, k: K, f: T -> A): A {
    Sum(m, rows, Only(m, key, k, f))
  }

  /** The bucket of each key. */
  function Bucket<T, K(==), A>(m: Adding<A>, rows: seq<T>, key: T -> K, f: T -> A): K -> A {
    k => SumAt(m, rows, key, k, f)
  }

  /** All the buckets `ks` together. */
  function SumOver<T, K(==), A>(m: Adding<A>, ks: seq<K>, rows: seq<T>, key: T -> K, f: T -> A): A {
    Sum(m, ks, Bucket(m, rows, key, f))
  }

  lemma {:induction false} SumOne<T, A>(m: Adding<A>, rows: seq<T>, r: T, f: T -> A)
    ensures Sum(m, rows + [r], f) == m.plus(Sum(m, rows, f), f(r))
  {
    assert (rows + [r])[..|rows|] == rows;
  }

  /** A row taken out takes its share with it. */
  lemma {:induction false} SumWithout<T, A(!new)>(m: Adding<A>, rows: seq<T>, i: nat, f: T -> A)
    requires Lawful(m) && i < |rows|
    ensures Sum(m, rows, f) == m.plus(Sum(m, rows[..i] + rows[i + 1..], f), f(rows[i]))
    decreases |rows|
  {
    var front, last := rows[..|rows| - 1], rows[|rows| - 1];
    if i < |front| {
      SumWithout(m, front, i, f);
      LastStays(rows, i);
    } else {
      assert rows[..i] + rows[i + 1..] == front;
    }
  }

  lemma {:induction false} LastStays<T>(rows: seq<T>, i: nat)
    requires i + 1 < |rows|
    ensures var front, last := rows[..|rows| - 1], rows[|rows| - 1];
            rows == front + [last] && rows[i] == front[i]
            && rows[..i] + rows[i + 1..] == (front[..i] + front[i + 1..]) + [last]
  {
  }

  /** Reordering the rows changes no sum. */
  lemma {:induction false} SumPermutes<T, A(!new)>(m: Adding<A>, a: seq<T>, b: seq<T>, f: T -> A)
    requires Lawful(m) && multiset(a) == multiset(b)
    ensures Sum(m, a, f) == Sum(m, b, f)
    decreases |a|
  {
    if a == [] {
      assert |multiset(b)| == |b|;
    } else {
      var k := |a| - 1;
      assert a[k] in multiset(b);
      var i :| 0 <= i < |b| && b[i] == a[k];
      RemoveAt(a, k);
      RemoveAt(b, i);
      assert a[..k] + a[k + 1..] == a[..k];
      SumPermutes(m, a[..k], b[..i] + b[i + 1..], f);
      SumWithout(m, b, i, f);
    }
  }

  /** One more row lands in the one bucket with its key. */
  lemma {:induction false} RowLands<T, K, A(!new)>(m: Adding<A>, ks: seq<K>, rows: seq<T>, r: T, key: T -> K, f: T -> A)
    requires Lawful(m) && forall i, j :: 0 <= i < j < |ks| ==> ks[i] != ks[j]
    ensures SumOver(m, ks, rows + [r], key, f) ==
            m.plus(SumOver(m, ks, rows, key, f), if key(r) in ks then f(r) else m.zero)
    decreases |ks|
  {
    if ks != [] {
      var front, k := ks[..|ks| - 1], ks[|ks| - 1];
      RowLands(m, front, rows, r, key, f);
      SumOne(m, rows, r, Only(m, key, k, f));
      assert ks == front + [k];
      var before := SumOver(m, front, rows, key, f);
      assert m.plus(before, m.zero) == before;
      assert m.plus(m.plus(before, SumAt(m, rows, key, k, f)), f(r)) == m.plus(before, m.plus(SumAt(m, rows, key, k, f), f(r)));
    }
  }

  /** The buckets add up to the whole, when every row that adds something has a bucket. */
  lemma {:induction false} BucketsAddUp<T, K, A(!new)>(m: Adding<A>, ks: seq<K>, rows: seq<T>, key: T -> K, f: T -> A)
    requires Lawful(m) && forall i, j :: 0 <= i < j < |ks| ==> ks[i] != ks[j]
    requires forall i :: 0 <= i < |rows| ==> key(rows[i]) in ks || f(rows[i]) == m.zero
    ensures SumOver(m, ks, rows, key, f) == Sum(m, rows, f)
    decreases |rows|
  {
    if rows == [] {
      NoRows(m, ks, rows, key, f);
    } else {
      var front, r := rows[..|rows| - 1], rows[|rows| - 1];
      assert rows == front + [r];
      BucketsAddUp(m, ks, front, key, f);
      RowLands(m, ks, front, r, key, f);
    }
  }

  lemma {:induction false} NoRows<T, K, A(!new)>(m: Adding<A>, ks: seq<K>, rows: seq<T>, key: T -> K, f: T -> A)
    requires Lawful(m) && rows == []
    ensures SumOver(m, ks, rows, key, f) == m.zero
    decreases |ks|
  {
    if ks != [] {
      NoRows(m, ks[..|ks| - 1], rows, key, f);
    }
  }

  /** A sum of parts that read the same row by row is the same. */
  lemma {:induction false} SumAgrees<T, U, A>(m: Adding<A>, a: seq<T>, b: seq<U>, f: T -> A, g: U -> A)
    requires |a| == |b| && forall i :: 0 <= i < |a| ==> f(a[i]) == g(b[i])
    ensures Sum(m, a, f) == Sum(m, b, g)
    decreases |a|
  {
    if a != [] {
      SumAgrees(m, a[..|a| - 1], b[..|b| - 1], f, g);
    }
  }

  // ---- listings: one line for each bucket ----

  ghost predicate Has<T, K>(s: seq<T>, key: T -> K, k: K) {
    exists i :: 0 <= i < |s| && key(s[i]) == k
  }

  /** One line for each key of the rows, made from that key and its bucket. */
  ghost predicate Lists<T(!new), K(!new), A, L(!new)>(m: Adding<A>, rows: seq<T>, key: T -> K, f: T -> A, lines: seq<L>,
                              name: L -> K, line: (K, A) -> L) {
    && DistinctBy(lines, name)
    && (forall l :: l in lines ==> l == line(name(l), SumAt(m, rows, key, name(l), f)))
    && (forall k :: Has(lines, name, k) <==> Has(rows, key, k))
  }

  lemma {:induction false} HasAnyOrder<T, K>(a: seq<T>, b: seq<T>, key: T -> K, k: K)
    requires multiset(a) == multiset(b)
    ensures Has(a, key, k) <==> Has(b, key, k)
  {
    if Has(a, key, k) {
      var i :| 0 <= i < |a| && key(a[i]) == k;
      assert a[i] in multiset(b);
    }
    if Has(b, key, k) {
      var i :| 0 <= i < |b| && key(b[i]) == k;
      assert b[i] in multiset(a);
    }
  }

  lemma {:induction false} HasOneMore<T, K>(s: seq<T>, x: T, key: T -> K, k: K)
    ensures Has(s + [x], key, k) <==> Has(s, key, k) || key(x) == k
  {
    var more := s + [x];
    if Has(s, key, k) {
      var i :| 0 <= i < |s| && key(s[i]) == k;
      assert more[i] == s[i];
    }
    assert more[|s|] == x;
  }

  /** The keys of the rows, each once. */
  ghost predicate Keys<T, K(!new)>(rows: seq<T>, key: T -> K, keys: seq<K>) {
    && (forall i, j :: 0 <= i < j < |keys| ==> keys[i] != keys[j])
    && (forall k :: k in keys <==> Has(rows, key, k))
  }

  lemma {:induction false} KeysOneMore<T, K(!new)>(rows: seq<T>, row: T, key: T -> K, keys: seq<K>)
    requires Keys(rows, key, keys)
    ensures Keys(rows + [row], key, if key(row) in keys then keys else keys + [key(row)])
  {
    var next := if key(row) in keys then keys else keys + [key(row)];
    forall k ensures k in next <==> Has(rows + [row], key, k) {
      HasOneMore(rows, row, key, k);
    }
  }

  /** One more row adds to one bucket. */
  lemma {:induction false} BucketOneMore<T, K, A(!new)>(m: Adding<A>, rows: seq<T>, row: T, key: T -> K, k: K, f: T -> A)
    requires Lawful(m)
    ensures SumAt(m, rows + [row], key, k, f) ==
            if key(row) == k then m.plus(SumAt(m, rows, key, k, f), f(row)) else SumAt(m, rows, key, k, f)
  {
    SumOne(m, rows, row, Only(m, key, k, f));
  }

  /** Lines made key by key are a listing. */
  lemma {:induction false} ListedByKey<T(!new), K(!new), A, L(!new)>(m: Adding<A>, rows: seq<T>, key: T -> K, f: T -> A, keys: seq<K>,
                              lines: seq<L>, name: L -> K, line: (K, A) -> L)
    requires Keys(rows, key, keys) && |lines| == |keys|
    requires forall j :: 0 <= j < |keys| ==>
               name(lines[j]) == keys[j] && lines[j] == line(keys[j], SumAt(m, rows, key, keys[j], f))
    ensures Lists(m, rows, key, f, lines, name, line)
  {
    forall k ensures Has(lines, name, k) <==> Has(rows, key, k) {
      if k in keys {
        var j :| 0 <= j < |keys| && keys[j] == k;
        assert name(lines[j]) == k;
      }
    }
  }

  /** Reordering the lines of a listing leaves it a listing. */
  lemma {:induction false} ListsAnyOrder<T(!new), K(!new), A, L(!new)>(m: Adding<A>, rows: seq<T>, key: T -> K, f: T -> A, a: seq<L>, b: seq<L>,
                              name: L -> K, line: (K, A) -> L)
    requires Lists(m, rows, key, f, a, name, line) && multiset(a) == multiset(b)
    ensures Lists(m, rows, key, f, b, name, line)
  {
    DistinctPermutes(a, b, name);
    forall l | l in b ensures l in a {
      assert l in multiset(a);
    }
    forall k ensures Has(b, name, k) <==> Has(rows, key, k) {
      HasAnyOrder(a, b, name, k);
    }
  }

  lemma {:induction false} SameLines<T(!new), K(!new), A(!new), L(!new)>(m: Adding<A>, rows: seq<T>, other: seq<T>, key: T -> K, f: T -> A,
                              a: seq<L>, b: seq<L>, name: L -> K, line: (K, A) -> L)
    requires Lawful(m) && multiset(rows) == multiset(other)
    requires Lists(m, rows, key, f, a, name, line) && Lists(m, other, key, f, b, name, line)
    ensures forall l :: l in a ==> l in b
  {
    forall l | l in a ensures l in b {
      var k := name(l);
      assert Has(a, name, k);
      HasAnyOrder(rows, other, key, k);
      assert Has(b, name, k);
      var i :| 0 <= i < |b| && name(b[i]) == k;
      SumPermutes(m, rows, other, Only(m, key, k, f));
      assert b[i] in b;
    }
  }

  /** A sorted listing whose order tells the keys apart is determined by the bag of rows. */
  lemma {:induction false} ListingIgnoresOrder<T(!new), K(!new), A(!new), L(!new)>(m: Adding<A>, rows: seq<T>, other: seq<T>, key: T -> K, f: T -> A,
                              a: seq<L>, b: seq<L>, name: L -> K, line: (K, A) -> L, le: (L, L) -> bool)
    requires Lawful(m) && multiset(rows) == multiset(other)
    requires Lists(m, rows, key, f, a, name, line) && Lists(m, other, key, f, b, name, line)
    requires TotalOrder(le) && SortedBy(a, le) && SortedBy(b, le)
    requires forall x, y :: le(x, y) && le(y, x) ==> name(x) == name(y)
    ensures a == b
  {
    SameLines(m, rows, other, key, f, a, b, name, line);
    SameLines(m, other, rows, key, f, b, a, name, line);
    forall i, j | 0 <= i < j < |a| ensures a[i] != a[j] {
      assert name(a[i]) != name(a[j]);
    }
    forall i, j | 0 <= i < j < |b| ensures b[i] != b[j] {
      assert name(b[i]) != name(b[j]);
    }
    SameElements(a, b);
    SortedUnique(a, b, le);
  }

  /** Over all the lines of a listing, a figure read off each bucket adds up to that of the rows. */
  lemma {:induction false} ListingAddsUp<T(!new), K(!new), A(!new), L(!new), B(!new)>(m: Adding<A>, rows: seq<T>, key: T -> K, f: T -> A, lines: seq<L>,
                              name: L -> K, line: (K, A) -> L, n: Adding<B>, g: T -> B, read: L -> B)
    requires Lawful(n) && Lists(m, rows, key, f, lines, name, line)
    requires forall l :: l in lines ==> read(l) == SumAt(n, rows, key, name(l), g)
    ensures Sum(n, lines, read) == Sum(n, rows, g)
  {
    var names := seq(|lines|, i requires 0 <= i < |lines| => name(lines[i]));
    forall i, j | 0 <= i < j < |names| ensures names[i] != names[j] {
      assert name(lines[i]) != name(lines[j]);
    }
    forall i | 0 <= i < |rows| ensures key(rows[i]) in names {
      assert Has(rows, key, key(rows[i]));
      assert Has(lines, name, key(rows[i]));
      var j :| 0 <= j < |lines| && name(lines[j]) == key(rows[i]);
      assert names[j] == key(rows[i]);
    }
    BucketsAddUp(n, names, rows, key, g);
    forall i | 0 <= i < |lines| ensures read(lines[i]) == Bucket(n, rows, key, g)(names[i]) {
      assert lines[i] in lines;
    }
    SumAgrees(n, lines, names, read, Bucket(n, rows, key, g));
  }
}
