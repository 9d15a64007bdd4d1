/** Stable sorting, as Python's `sorted` does it, and what can be read off a sorted sequence. */
module Sorting {

  ghost predicate TotalOrder<T(!new)>(le: (T, T) -> bool) {
    && (forall a, b :: le(a, b) || le(b, a))
    && (forall a, b, c :: le(a, b) && le(b, c) ==> le(a, c))
  }

  ghost predicate Antisymmetric<T(!new)>(le: (T, T) -> bool) {
    forall a, b :: le(a, b) && le(b, a) ==> a == b
  }

  ghost predicate SortedBy<T>(s: seq<T>, le: (T, T) -> bool) {
    forall i, j :: 0 <= i <= j < |s| ==> le(s[i], s[j])
  }

  function Insert<T>(x: T, s: seq<T>, le: (T, T) -> bool): seq<T> {
    if s == [] || le(x, s[0]) then [x] + s else [s[0]] + Insert(x, s[1..], le)
  }

  /** Insertion sort from the right: equal elements keep their order. */
  function Sort<T>(s: seq<T>, le: (T, T) -> bool): seq<T> {
    if s == [] then [] else Insert(s[0], Sort(s[1..], le), le)
  }

  lemma {:induction false} InsertKeeps<T(!new)>(x: T, s: seq<T>, le: (T, T) -> bool)
    requires TotalOrder(le) && SortedBy(s, le)
    ensures SortedBy(Insert(x, s, le), le)
    ensures multiset(Insert(x, s, le)) == multiset(s) + multiset{x}
    ensures |Insert(x, s, le)| == |s| + 1
  {
    if s != [] && !le(x, s[0]) {
      InsertKeeps(x, s[1..], le);
      assert s == [s[0]] + s[1..];
      HeadFirst(x, s, Insert(x, s[1..], le), le);
    } else {
      forall j | 0 <= j < |s| ensures le(x, s[j]) {
        assert le(s[0], s[j]);
      }
    }
  }

  lemma {:induction false} HeadFirst<T(!new)>(x: T, s: seq<T>, rest: seq<T>, le: (T, T) -> bool)
    requires TotalOrder(le) && SortedBy(s, le) && s != [] && !le(x, s[0])
    requires multiset(rest) == multiset(s[1..]) + multiset{x}
    ensures forall j :: 0 <= j < |rest| ==> le(s[0], rest[j])
  {
    forall j | 0 <= j < |rest| ensures le(s[0], rest[j]) {
      assert rest[j] in multiset(rest);
      assert rest[j] == x || rest[j] in s[1..];
    }
  }

  lemma {:induction false} SortSorts<T(!new)>(s: seq<T>, le: (T, T) -> bool)
    requires TotalOrder(le)
    ensures SortedBy(Sort(s, le), le) && multiset(Sort(s, le)) == multiset(s) && |Sort(s, le)| == |s|
  {
    if s != [] {
      SortSorts(s[1..], le);
      InsertKeeps(s[0], Sort(s[1..], le), le);
      assert s == [s[0]] + s[1..];
    }
  }

  ghost predicate InPlaceOrder<T(!new)>(s: seq<T>, pos: T -> int) {
    forall i, j :: 0 <= i < j < |s| ==> pos(s[i]) < pos(s[j])
  }

  /** Elements the order does not tell apart stand in the order of their places. */
  ghost predicate Stable<T(!new)>(s: seq<T>, le: (T, T) -> bool, pos: T -> int) {
    forall i, j :: 0 <= i < j < |s| && le(s[j], s[i]) ==> pos(s[i]) < pos(s[j])
  }

  /** Sorting keeps the order of equal elements. */
  lemma {:induction false} SortStable<T(!new)>(s: seq<T>, le: (T, T) -> bool, pos: T -> int)
    requires TotalOrder(le) && InPlaceOrder(s, pos)
    ensures Stable(Sort(s, le), le, pos)
  {
    if s != [] {
      TailInPlaceOrder(s, pos);
      SortStable(s[1..], le, pos);
      SortSorts(s[1..], le);
      LaterPlaces(s, Sort(s[1..], le), pos);
      InsertStable(s[0], Sort(s[1..], le), le, pos);
    }
  }

  lemma {:induction false} TailInPlaceOrder<T(!new)>(s: seq<T>, pos: T -> int)
    requires s != [] && InPlaceOrder(s, pos)
    ensures InPlaceOrder(s[1..], pos)
  {
    forall i, j | 0 <= i < j < |s[1..]| ensures pos(s[1..][i]) < pos(s[1..][j]) {
      assert pos(s[i + 1]) < pos(s[j + 1]);
    }
  }

  lemma {:induction false} LaterPlaces<T(!new)>(s: seq<T>, t: seq<T>, pos: T -> int)
    requires s != [] && InPlaceOrder(s, pos) && multiset(t) == multiset(s[1..])
    ensures forall y :: y in t ==> pos(s[0]) < pos(y)
  {
    forall y | y in t ensures pos(s[0]) < pos(y) {
      assert y in multiset(t);
      var i :| 0 <= i < |s[1..]| && s[1..][i] == y;
      assert pos(s[0]) < pos(s[i + 1]);
    }
  }

  lemma {:induction false} InsertStable<T(!new)>(x: T, t: seq<T>, le: (T, T) -> bool, pos: T -> int)
    requires TotalOrder(le) && SortedBy(t, le) && Stable(t, le, pos) && forall y :: y in t ==> pos(x) < pos(y)
    ensures Stable(Insert(x, t, le), le, pos)
  {
    if t != [] && !le(x, t[0]) {
      assert Stable(t[1..], le, pos);
      InsertStable(x, t[1..], le, pos);
      InsertKeeps(x, t[1..], le);
      HeadStable(x, t, Insert(x, t[1..], le), le, pos);
    }
  }

  lemma {:induction false} HeadStable<T(!new)>(x: T, t: seq<T>, rest: seq<T>, le: (T, T) -> bool, pos: T -> int)
    requires t != [] && Stable(t, le, pos) && !le(x, t[0]) && Stable(rest, le, pos)
    requires multiset(rest) == multiset(t[1..]) + multiset{x}
    ensures Stable([t[0]] + rest, le, pos)
  {
    forall j | 0 <= j < |rest| && le(rest[j], t[0]) ensures pos(t[0]) < pos(rest[j]) {
      assert rest[j] in multiset(rest);
      var i :| 0 <= i < |t[1..]| && t[1..][i] == rest[j];
      assert t[i + 1] == rest[j];
    }
  }

  /** The order tells the elements of `s` apart. */
  ghost predicate Separates<T(!new)>(s: seq<T>, le: (T, T) -> bool) {
    forall x, y :: x in s && y in s && le(x, y) && le(y, x) ==> x == y
  }

  lemma {:induction false} SameHead<T(!new)>(a: seq<T>, b: seq<T>, le: (T, T) -> bool)
    requires TotalOrder(le) && SortedBy(a, le) && SortedBy(b, le) && Separates(a, le)
    requires a != [] && b != [] && multiset(a) == multiset(b)
    ensures a[0] == b[0] && multiset(a[1..]) == multiset(b[1..])
  {
    assert a[0] in multiset(b) && b[0] in multiset(a);
    assert le(a[0], b[0]) && le(b[0], a[0]);
    assert a == [a[0]] + a[1..] && b == [b[0]] + b[1..];
    assert multiset(a[1..]) == multiset(a) - multiset{a[0]} && multiset(b[1..]) == multiset(b) - multiset{b[0]};
  }

  /** There is only one way to sort a bag in which the order tells different elements apart. */
  lemma {:induction false} SortedUnique<T(!new)>(a: seq<T>, b: seq<T>, le: (T, T) -> bool)
    requires TotalOrder(le) && SortedBy(a, le) && SortedBy(b, le) && Separates(a, le)
    requires multiset(a) == multiset(b)
    ensures a == b
  {
    assert |a| == |multiset(a)| && |b| == |multiset(b)|;
    if a != [] {
      SameHead(a, b, le);
      SortedUnique(a[1..], b[1..], le);
      assert a == [a[0]] + a[1..] && b == [b[0]] + b[1..];
    }
  }

  // ---- order statistics ----

  /** How many elements are at most `x`. */
  function AtMost<T>(s: seq<T>, x: T, le: (T, T) -> bool): nat {
    if s == [] then 0 else (if le(s[0], x) then 1 else 0) + AtMost(s[1..], x, le)
  }

  lemma {:induction false} AtMostBounds<T>(s: seq<T>, x: T, le: (T, T) -> bool)
    ensures AtMost(s, x, le) <= |s|
  {
    if s != [] {
      AtMostBounds(s[1..], x, le);
    }
  }

  lemma {:induction false} AtMostOfInsert<T>(y: T, s: seq<T>, x: T, le: (T, T) -> bool)
    ensures AtMost(Insert(y, s, le), x, le) == AtMost(s, x, le) + if le(y, x) then 1 else 0
  {
    if s != [] && !le(y, s[0]) {
      AtMostOfInsert(y, s[1..], x, le);
    }
  }

  lemma {:induction false} AtMostOfSort<T>(s: seq<T>, x: T, le: (T, T) -> bool)
    ensures AtMost(Sort(s, le), x, le) == AtMost(s, x, le)
  {
    if s != [] {
      AtMostOfSort(s[1..], x, le);
      AtMostOfInsert(s[0], Sort(s[1..], le), x, le);
    }
  }

  /** In a sorted sequence, position k holds something at most x exactly when more than k
      elements are at most x. */
  lemma {:induction false} RankInSorted<T(!new)>(s: seq<T>, k: nat, x: T, le: (T, T) -> bool)
    requires TotalOrder(le) && SortedBy(s, le) && k < |s|
    ensures le(s[k], x) <==> AtMost(s, x, le) > k
    decreases |s|
  {
    if k == 0 {
      if !le(s[0], x) {
        NoneAtMost(s, x, le);
      }
    } else {
      RankInSorted(s[1..], k - 1, x, le);
      if !le(s[0], x) {
        NoneAtMost(s, x, le);
        assert le(s[0], s[k]);
      }
    }
  }

  lemma {:induction false} NoneAtMost<T(!new)>(s: seq<T>, x: T, le: (T, T) -> bool)
    requires TotalOrder(le) && SortedBy(s, le) && s != [] && !le(s[0], x)
    ensures AtMost(s, x, le) == 0
  {
    if |s| > 1 {
      assert le(s[0], s[1]);
      NoneAtMost(s[1..], x, le);
    }
  }

  ghost predicate Pointwise<T>(a: seq<T>, b: seq<T>, le: (T, T) -> bool) {
    |a| == |b| && forall i :: 0 <= i < |a| ==> le(a[i], b[i])
  }

  lemma {:induction false} AtMostPointwise<T(!new)>(a: seq<T>, b: seq<T>, x: T, le: (T, T) -> bool)
    requires TotalOrder(le) && Pointwise(a, b, le)
    ensures AtMost(b, x, le) <= AtMost(a, x, le)
  {
    if a != [] {
      assert le(a[0], b[0]);
      AtMostPointwise(a[1..], b[1..], x, le);
    }
  }

  /** Raising samples raises every order statistic. */
  lemma {:induction false} SortPointwise<T(!new)>(a: seq<T>, b: seq<T>, le: (T, T) -> bool)
    requires TotalOrder(le) && Pointwise(a, b, le)
    ensures Pointwise(Sort(a, le), Sort(b, le), le)
  {
    SortSorts(a, le);
    SortSorts(b, le);
    var sa, sb := Sort(a, le), Sort(b, le);
    forall k | 0 <= k < |sa| ensures le(sa[k], sb[k]) {
      assert le(sb[k], sb[k]);
      RankInSorted(sb, k, sb[k], le);
      AtMostOfSort(b, sb[k], le);
      AtMostPointwise(a, b, sb[k], le);
      AtMostOfSort(a, sb[k], le);
      RankInSorted(sa, k, sb[k], le);
    }
  }

  // ---- numbers ----

  predicate IntLe(a: int, b: int) {
    a <= b
  }

  predicate RealLe(a: real, b: real) {
    a <= b
  }

  // ---- keys that tell elements apart ----

  ghost predicate DistinctBy<T, K>(s: seq<T>, key: T -> K) {
    forall i, j :: 0 <= i < j < |s| ==> key(s[i]) != key(s[j])
  }

  lemma {:induction false} RemoveAt<T>(s: seq<T>, i: nat)
    requires i < |s|
    ensures multiset(s[..i] + s[i + 1..]) == multiset(s) - multiset{s[i]}
  {
    assert s == s[..i] + [s[i]] + s[i + 1..];
  }

  lemma {:induction false} PlaceOf<T>(s: seq<T>, x: T) returns (p: nat)
    requires x in multiset(s)
    ensures p < |s| && s[p] == x && multiset(s[..p] + s[p + 1..]) == multiset(s) - multiset{x}
  {
    p :| 0 <= p < |s| && s[p] == x;
    RemoveAt(s, p);
  }

  /** Two places of a sequence have two places in any reordering of it. */
  lemma {:induction false} TwoPlaces<T>(a: seq<T>, b: seq<T>, i: nat, j: nat) returns (p: nat, q: nat)
    requires multiset(a) == multiset(b) && i < j < |b|
    ensures p < |a| && q < |a| && p != q && a[p] == b[i] && a[q] == b[j]
  {
    p := PlaceOf(a, b[i]);
    RemoveAt(b, i);
    var others := b[..i] + b[i + 1..];
    assert others[j - 1] == b[j];
    var r := PlaceOf(a[..p] + a[p + 1..], b[j]);
    q := if r < p then r else r + 1;
  }

  lemma {:induction false} DistinctPermutes<T, K>(a: seq<T>, b: seq<T>, key: T -> K)
    requires multiset(a) == multiset(b) && DistinctBy(a, key)
    ensures DistinctBy(b, key)
  {
    forall i, j | 0 <= i < j < |b| ensures key(b[i]) != key(b[j]) {
      var p, q := TwoPlaces(a, b, i, j);
      assert p < q || q < p;
    }
  }

  lemma {:induction false} CountOfDistinct<T>(s: seq<T>, x: T)
    requires forall i, j :: 0 <= i < j < |s| ==> s[i] != s[j]
    ensures multiset(s)[x] == if x in s then 1 else 0
    decreases |s|
  {
    if s != [] {
      CountOfDistinct(s[1..], x);
      assert s == [s[0]] + s[1..];
    }
  }

  /** Two sequences without repetitions and with the same elements are reorderings of one another. */
  lemma {:induction false} SameElements<T>(a: seq<T>, b: seq<T>)
    requires forall i, j :: 0 <= i < j < |a| ==> a[i] != a[j]
    requires forall i, j :: 0 <= i < j < |b| ==> b[i] != b[j]
    requires forall x :: x in a <==> x in b
    ensures multiset(a) == multiset(b)
  {
    forall x ensures multiset(a)[x] == multiset(b)[x] {
      CountOfDistinct(a, x);
      CountOfDistinct(b, x);
    }
  }
}
