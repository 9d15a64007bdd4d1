/** Ranking metrics of `scripts/eval_retrieval_hit_at_k.py`.  The discount 1/log2(i + 2) enters
    only as a positive, strictly decreasing weight of the position, in exact arithmetic. */
module RetrievalMetrics {

  type Weight = nat -> real

  ghost predicate Discount(w: Weight) {
    && (forall i: nat :: w(i) > 0.0)
    && (forall i: nat, j: nat :: i < j ==> w(i) > w(j))
  }

  function ToSet(ids: seq<string>): set<string> {
    set id | id in ids
  }

  /** How many of the `length` retrieved ids `retrieved[:k]` keeps, for `k` > 0. */
  function Cut(k: int, length: nat): nat {
    if k <= 0 then 0 else if k < length then k else length
  }

  // ---- the metrics ----

  function HitAtK(retrieved: seq<string>, expected: seq<string>, k: int): real {
    if k <= 0 || expected == [] || retrieved == [] then 0.0
    else if exists i :: 0 <= i < Cut(k, |retrieved|) && retrieved[i] in expected then 1.0 else 0.0
  }

  /** Discounted gain of the first `n` positions. */
  function Dcg(retrieved: seq<string>, relevant: set<string>, w: Weight, n: nat): real
    requires n <= |retrieved|
  {
    if n == 0 then 0.0
    else Dcg(retrieved, relevant, w, n - 1) + Gain(retrieved[n - 1], relevant, w, n - 1)
  }

  function Gain(id: string, relevant: set<string>, w: Weight, position: nat): real {
    if id in relevant then w(position) else 0.0
  }

  /** Gain of a ranking whose first `n` positions are all relevant. */
  function Ideal(w: Weight, n: nat): real {
    if n == 0 then 0.0 else Ideal(w, n - 1) + w(n - 1)
  }

  function IdealHits(expected: seq<string>, k: int): nat {
    if k <= 0 then 0 else if |ToSet(expected)| < k then |ToSet(expected)| else k
  }

  /** `dcg_at_k` */
  method DcgAtK(retrieved: seq<string>, expected: seq<string>, k: int, w: Weight) returns (dcg: real)
    ensures dcg == Dcg(retrieved, ToSet(expected), w, Cut(k, |retrieved|))
  {
    if k <= 0 || expected == [] || retrieved == [] {
      NothingRelevant(retrieved, ToSet(expected), w, Cut(k, |retrieved|));
      return 0.0;
    }
    dcg := 0.0;
    var idx := 0;
    while idx < Cut(k, |retrieved|)
      invariant 0 <= idx <= Cut(k, |retrieved|)
      invariant dcg == Dcg(retrieved, ToSet(expected), w, idx)
    {
      if retrieved[idx] in ToSet(expected) {
        dcg := dcg + w(idx);
      }
      idx := idx + 1;
    }
  }

  lemma {:induction false} NothingRelevant(retrieved: seq<string>, relevant: set<string>, w: Weight, n: nat)
    requires n <= |retrieved| && forall i :: 0 <= i < n ==> retrieved[i] !in relevant
    ensures Dcg(retrieved, relevant, w, n) == 0.0
  {
    if n > 0 {
      NothingRelevant(retrieved, relevant, w, n - 1);
    }
  }

  /** `ndcg_at_k`; with positive weights the ideal gain is 0 only for 0 ideal hits. */
  function NdcgAtK(retrieved: seq<string>, expected: seq<string>, k: int, w: Weight): real {
    if k <= 0 || expected == [] then 0.0
    else
      var ideal := Ideal(w, IdealHits(expected, k));
      if ideal == 0.0 then 0.0
      else Dcg(retrieved, ToSet(expected), w, Cut(k, |retrieved|)) / ideal
  }

  /** Position of the first relevant id from `i` on, or the length. */
  function FirstHit(retrieved: seq<string>, expected: seq<string>, i: nat): nat
    decreases |retrieved| - i
  {
    if i >= |retrieved| then |retrieved|
    else if retrieved[i] in expected then i
    else FirstHit(retrieved, expected, i + 1)
  }

  function Reciprocal(retrieved: seq<string>, expected: seq<string>): real {
    var first := FirstHit(retrieved, expected, 0);
    if first < |retrieved| then 1.0 / (first + 1) as real else 0.0
  }

  /** `reciprocal_rank` */
  method ReciprocalRank(retrieved: seq<string>, expected: seq<string>) returns (r: real)
    ensures r == Reciprocal(retrieved, expected)
  {
    FirstHitIs(retrieved, expected, 0);
    if expected == [] || retrieved == [] {
      return 0.0;
    }
    var idx := 0;
    while idx < |retrieved|
      invariant 0 <= idx <= |retrieved|
      invariant FirstHit(retrieved, expected, 0) == FirstHit(retrieved, expected, idx)
    {
      if retrieved[idx] in expected {
        return 1.0 / (idx + 1) as real;
      }
      idx := idx + 1;
    }
    return 0.0;
  }

  lemma {:induction false} FirstHitIs(retrieved: seq<string>, expected: seq<string>, i: nat)
    ensures var f := FirstHit(retrieved, expected, i);
            && (i <= |retrieved| ==> i <= f <= |retrieved|)
            && (f < |retrieved| ==> retrieved[f] in expected)
            && (forall j :: i <= j < f && j < |retrieved| ==> retrieved[j] !in expected)
    decreases |retrieved| - i
  {
    if i < |retrieved| && retrieved[i] !in expected {
      FirstHitIs(retrieved, expected, i + 1);
    }
  }

  // ---- nDCG against the ideal ranking ----

  /** Number of relevant positions among the first `n`. */
  function Hits(retrieved: seq<string>, relevant: set<string>, n: nat): nat
    requires n <= |retrieved|
  {
    if n == 0 then 0
    else Hits(retrieved, relevant, n - 1) + if retrieved[n - 1] in relevant then 1 else 0
  }

  ghost predicate NoHitTwice(retrieved: seq<string>, relevant: set<string>, n: nat)
    requires n <= |retrieved|
  {
    forall i, j :: 0 <= i < j < n && retrieved[i] in relevant ==> retrieved[i] != retrieved[j]
  }

  ghost predicate AllHits(retrieved: seq<string>, relevant: set<string>, n: nat) {
    n <= |retrieved| && forall i :: 0 <= i < n ==> retrieved[i] in relevant
  }

  lemma {:induction false} HitsAtMost(retrieved: seq<string>, relevant: set<string>, n: nat)
    requires n <= |retrieved|
    ensures Hits(retrieved, relevant, n) <= n
  {
    if n > 0 {
      HitsAtMost(retrieved, relevant, n - 1);
    }
  }

  lemma {:induction false} HitsAreIds(retrieved: seq<string>, relevant: set<string>, n: nat)
    requires n <= |retrieved| && NoHitTwice(retrieved, relevant, n)
    ensures Hits(retrieved, relevant, n) <= |relevant|
    decreases n
  {
    if n > 0 {
      var id := retrieved[n - 1];
      if id in relevant {
        HitsOfOthers(retrieved, relevant, n - 1, id);
        HitsAreIds(retrieved, relevant - {id}, n - 1);
      } else {
        HitsAreIds(retrieved, relevant, n - 1);
      }
    }
  }

  lemma {:induction false} HitsOfOthers(retrieved: seq<string>, relevant: set<string>, n: nat, id: string)
    requires n <= |retrieved| && forall i :: 0 <= i < n ==> retrieved[i] != id
    ensures Hits(retrieved, relevant - {id}, n) == Hits(retrieved, relevant, n)
  {
    if n > 0 {
      HitsOfOthers(retrieved, relevant, n - 1, id);
    }
  }

  lemma {:induction false} IdealGrows(w: Weight, m: nat, n: nat)
    requires Discount(w) && m <= n
    ensures Ideal(w, m) <= Ideal(w, n) && (m < n ==> Ideal(w, m) < Ideal(w, n))
    decreases n - m
  {
    if m < n {
      IdealGrows(w, m, n - 1);
    }
  }

  /** Moving the relevant positions to the front never loses gain, and keeps it only when they
      were in front already. */
  lemma {:induction false} DcgBelowIdeal(retrieved: seq<string>, relevant: set<string>, w: Weight, n: nat)
    requires Discount(w) && n <= |retrieved|
    ensures Dcg(retrieved, relevant, w, n) <= Ideal(w, Hits(retrieved, relevant, n))
    ensures Dcg(retrieved, relevant, w, n) == Ideal(w, Hits(retrieved, relevant, n)) ==>
              AllHits(retrieved, relevant, Hits(retrieved, relevant, n))
  {
    if n > 0 {
      DcgBelowIdeal(retrieved, relevant, w, n - 1);
      HitsAtMost(retrieved, relevant, n - 1);
      var hits := Hits(retrieved, relevant, n - 1);
      assert hits < n - 1 ==> w(hits) > w(n - 1);
    }
  }

  lemma {:induction false} DcgOfAllHits(retrieved: seq<string>, relevant: set<string>, w: Weight, h: nat, n: nat)
    requires AllHits(retrieved, relevant, h) && h <= n <= |retrieved|
    requires Hits(retrieved, relevant, n) <= h
    ensures Dcg(retrieved, relevant, w, n) == Ideal(w, h)
    decreases n
  {
    if n > h {
      HitsGrow(retrieved, relevant, h, n - 1);
      DcgOfAllHits(retrieved, relevant, w, h, n - 1);
    } else if n > 0 {
      DcgOfAllHits(retrieved, relevant, w, h - 1, n - 1);
    }
  }

  lemma {:induction false} HitsGrow(retrieved: seq<string>, relevant: set<string>, h: nat, n: nat)
    requires AllHits(retrieved, relevant, h) && h <= n <= |retrieved|
    ensures h <= Hits(retrieved, relevant, n)
    decreases n
  {
    if n > h {
      HitsGrow(retrieved, relevant, h, n - 1);
    } else if n > 0 {
      HitsGrow(retrieved, relevant, h - 1, n - 1);
    }
  }

  lemma {:induction false} IdealPositive(w: Weight, expected: seq<string>, k: int)
    requires Discount(w) && k > 0 && expected != []
    ensures IdealHits(expected, k) > 0 && Ideal(w, IdealHits(expected, k)) > 0.0
  {
    assert expected[0] in ToSet(expected);
    IdealGrows(w, 0, IdealHits(expected, k));
  }

  lemma {:induction false} DcgNonNegative(retrieved: seq<string>, relevant: set<string>, w: Weight, n: nat)
    requires Discount(w) && n <= |retrieved|
    ensures Dcg(retrieved, relevant, w, n) >= 0.0
  {
    if n > 0 {
      DcgNonNegative(retrieved, relevant, w, n - 1);
    }
  }

  lemma {:induction false} Quotient(a: real, b: real)
    requires b > 0.0
    ensures a / b <= 1.0 <==> a <= b
    ensures a / b == 1.0 <==> a == b
    ensures a >= 0.0 ==> a / b >= 0.0
  {
    var q := a / b;
    assert q * b == a;
    if q > 1.0 {
      PositiveProduct(q - 1.0, b);
    } else if q < 1.0 {
      PositiveProduct(1.0 - q, b);
    }
    if q < 0.0 {
      PositiveProduct(0.0 - q, b);
    }
  }

  lemma {:induction false} PositiveProduct(x: real, y: real)
    requires x > 0.0 && y > 0.0
    ensures x * y > 0.0
  {
  }

  lemma {:induction false} QuotientLess(a: real, b: real, c: real)
    requires a < b && c > 0.0
    ensures a / c < b / c
  {
    assert a == (a / c) * c && b == (b / c) * c;
    Cancel(b / c, a / c, c);
  }

  lemma {:induction false} HitsWithinIdeal(retrieved: seq<string>, expected: seq<string>, k: int)
    requires k > 0 && NoHitTwice(retrieved, ToSet(expected), Cut(k, |retrieved|))
    ensures Hits(retrieved, ToSet(expected), Cut(k, |retrieved|)) <= IdealHits(expected, k)
  {
    HitsAtMost(retrieved, ToSet(expected), Cut(k, |retrieved|));
    HitsAreIds(retrieved, ToSet(expected), Cut(k, |retrieved|));
  }

  /** nDCG@k is at most 1, and exactly 1 when the first min(|set(expected)|, k) positions are all
      relevant, if no relevant id is retrieved twice in the top k. */
  lemma {:induction false} NdcgRange(retrieved: seq<string>, expected: seq<string>, k: int, w: Weight)
    requires Discount(w) && (k > 0 ==> NoHitTwice(retrieved, ToSet(expected), Cut(k, |retrieved|)))
    ensures 0.0 <= NdcgAtK(retrieved, expected, k, w) <= 1.0
    ensures k > 0 && expected != [] ==>
              (NdcgAtK(retrieved, expected, k, w) == 1.0 <==>
               AllHits(retrieved, ToSet(expected), IdealHits(expected, k)))
  {
    if k > 0 && expected != [] {
      var n, relevant, h := Cut(k, |retrieved|), ToSet(expected), IdealHits(expected, k);
      var hits := Hits(retrieved, relevant, n);
      HitsWithinIdeal(retrieved, expected, k);
      IdealPositive(w, expected, k);
      DcgNonNegative(retrieved, relevant, w, n);
      DcgBelowIdeal(retrieved, relevant, w, n);
      IdealGrows(w, hits, h);
      Quotient(Dcg(retrieved, relevant, w, n), Ideal(w, h));
      if AllHits(retrieved, relevant, h) {
        DcgOfAllHits(retrieved, relevant, w, h, n);
      }
    }
  }

  /** With nothing to find, or at no depth, the score is 0. */
  lemma {:induction false} NdcgOfNothing(retrieved: seq<string>, expected: seq<string>, k: int, w: Weight)
    requires k <= 0 || expected == []
    ensures NdcgAtK(retrieved, expected, k, w) == 0.0
  {
  }

  /** Otherwise it is the share of the ideal gain. */
  lemma {:induction false} NdcgIsShare(retrieved: seq<string>, expected: seq<string>, k: int, w: Weight)
    requires Discount(w) && k > 0 && expected != []
    ensures NdcgAtK(retrieved, expected, k, w) * Ideal(w, IdealHits(expected, k))
            == Dcg(retrieved, ToSet(expected), w, Cut(k, |retrieved|))
  {
    IdealPositive(w, expected, k);
  }

  /** One expected id, found once at position `p` of the top k, scores the discount of that position
      relative to the first. */
  lemma {:induction false} OneFoundAt(retrieved: seq<string>, id: string, k: int, w: Weight, p: nat)
    requires Discount(w) && p < k && p < |retrieved| && retrieved[p] == id
    requires forall i :: 0 <= i < |retrieved| && i != p ==> retrieved[i] != id
    ensures NdcgAtK(retrieved, [id], k, w) * w(0) == w(p)
  {
    assert ToSet([id]) == {id};
    assert Ideal(w, 1) == Ideal(w, 0) + w(0);
    NdcgIsShare(retrieved, [id], k, w);
    OneGain(retrieved, id, w, Cut(k, |retrieved|), p);
  }

  lemma {:induction false} OneGain(retrieved: seq<string>, id: string, w: Weight, n: nat, p: nat)
    requires p < n <= |retrieved| && retrieved[p] == id && forall i :: 0 <= i < |retrieved| && i != p ==> retrieved[i] != id
    ensures Dcg(retrieved, {id}, w, n) == w(p)
  {
    if p < n - 1 {
      OneGain(retrieved, id, w, n - 1, p);
    } else {
      NothingRelevant(retrieved, {id}, w, p);
    }
  }

  lemma {:induction false} NdcgBounded(retrieved: seq<string>, expected: seq<string>, k: int, w: Weight)
    requires Discount(w) && k > 0 && expected != []
    requires Hits(retrieved, ToSet(expected), Cut(k, |retrieved|)) <= IdealHits(expected, k)
    ensures NdcgAtK(retrieved, expected, k, w) <= 1.0
  {
    var n, relevant, h := Cut(k, |retrieved|), ToSet(expected), IdealHits(expected, k);
    IdealPositive(w, expected, k);
    DcgBelowIdeal(retrieved, relevant, w, n);
    IdealGrows(w, Hits(retrieved, relevant, n), h);
    Quotient(Dcg(retrieved, relevant, w, n), Ideal(w, h));
  }

  lemma {:induction false} NdcgUnbounded(retrieved: seq<string>, expected: seq<string>, k: int)
    requires k > 0 && expected != []
    requires Hits(retrieved, ToSet(expected), Cut(k, |retrieved|)) > IdealHits(expected, k)
    ensures Discount(NearlyFlat(IdealHits(expected, k) + 1))
    ensures NdcgAtK(retrieved, expected, k, NearlyFlat(IdealHits(expected, k) + 1)) > 1.0
  {
    var n, relevant, h := Cut(k, |retrieved|), ToSet(expected), IdealHits(expected, k);
    NearlyFlatDiscounts(h + 1);
    IdealPositive(NearlyFlat(h + 1), expected, k);
    FlatExceeds(retrieved, relevant, h, n);
    Quotient(Dcg(retrieved, relevant, NearlyFlat(h + 1), n), Ideal(NearlyFlat(h + 1), h));
  }

  /** Exactly when nDCG@k stays within 1 for every discount: when the top k holds no more hits
      than an ideal ranking could, which repeated ids can break. */
  lemma {:induction false} NdcgBoundedExactly(retrieved: seq<string>, expected: seq<string>, k: int)
    requires k > 0 && expected != []
    ensures (forall w :: Discount(w) ==> NdcgAtK(retrieved, expected, k, w) <= 1.0) <==>
              Hits(retrieved, ToSet(expected), Cut(k, |retrieved|)) <= IdealHits(expected, k)
  {
    if Hits(retrieved, ToSet(expected), Cut(k, |retrieved|)) <= IdealHits(expected, k) {
      forall w | Discount(w) ensures NdcgAtK(retrieved, expected, k, w) <= 1.0 {
        NdcgBounded(retrieved, expected, k, w);
      }
    } else {
      NdcgUnbounded(retrieved, expected, k);
    }
  }

  /** A discount that falls from c + 1 towards c. */
  function NearlyFlat(c: nat): Weight {
    (i: nat) => c as real + 1.0 / (i + 1) as real
  }

  lemma {:induction false} Inverse(i: nat, j: nat)
    requires 0 < i < j
    ensures 1.0 / i as real > 1.0 / j as real > 0.0 && 1.0 / i as real <= 1.0
  {
    var a, b := 1.0 / i as real, 1.0 / j as real;
    assert a * i as real == 1.0 && b * j as real == 1.0;
    assert b * j as real == b * i as real + b * (j - i) as real;
    Cancel(a, b, i as real);
  }

  lemma {:induction false} Cancel(a: real, b: real, c: real)
    requires c > 0.0
    ensures a * c > b * c <==> a > b
  {
    assert a * c - b * c == (a - b) * c;
  }

  lemma {:induction false} NearlyFlatDiscounts(c: nat)
    ensures Discount(NearlyFlat(c))
  {
    var w := NearlyFlat(c);
    forall i: nat ensures w(i) > 0.0 {
      Inverse(i + 1, i + 2);
    }
    forall i: nat, j: nat | i < j ensures w(i) > w(j) {
      Inverse(i + 1, j + 1);
    }
  }

  lemma {:induction false} FlatGain(retrieved: seq<string>, relevant: set<string>, c: nat, n: nat)
    requires n <= |retrieved|
    ensures Dcg(retrieved, relevant, NearlyFlat(c), n) >= c as real * Hits(retrieved, relevant, n) as real
  {
    if n > 0 {
      FlatGain(retrieved, relevant, c, n - 1);
      Inverse(n, n + 1);
      assert c as real * (Hits(retrieved, relevant, n - 1) + 1) as real
             == c as real * Hits(retrieved, relevant, n - 1) as real + c as real;
    }
  }

  lemma {:induction false} FlatIdeal(c: nat, n: nat)
    ensures Ideal(NearlyFlat(c), n) <= (c as real + 1.0) * n as real
  {
    if n > 0 {
      FlatIdeal(c, n - 1);
      Inverse(n, n + 1);
      assert (c as real + 1.0) * n as real == (c as real + 1.0) * (n - 1) as real + (c as real + 1.0);
    }
  }

  lemma {:induction false} FlatExceeds(retrieved: seq<string>, relevant: set<string>, h: nat, n: nat)
    requires n <= |retrieved| && h < Hits(retrieved, relevant, n)
    ensures Dcg(retrieved, relevant, NearlyFlat(h + 1), n) > Ideal(NearlyFlat(h + 1), h)
  {
    FlatGain(retrieved, relevant, h + 1, n);
    FlatIdeal(h + 1, h);
    FlatCompare(h, Hits(retrieved, relevant, n));
  }

  lemma {:induction false} FlatCompare(h: nat, hits: nat)
    requires h < hits
    ensures (h + 1) as real * hits as real > ((h + 1) as real + 1.0) * h as real
  {
    assert (h + 1) * hits >= (h + 1) * (h + 1);
    assert (h + 1) as real * hits as real == ((h + 1) * hits) as real;
    assert ((h + 1) as real + 1.0) * h as real == ((h + 2) * h) as real;
  }

  /** The bound does need the hypothesis: one relevant id retrieved twice scores above 1 for
      every discount. */
  lemma {:induction false} RepeatedIdScoresAboveOne(w: Weight)
    requires Discount(w)
    ensures NdcgAtK(["a", "a"], ["a"], 2, w) > 1.0
  {
    assert ToSet(["a"]) == {"a"};
    assert Ideal(w, 1) == w(0);
    assert Dcg(["a", "a"], {"a"}, w, 2) == Dcg(["a", "a"], {"a"}, w, 1) + w(1);
    assert Dcg(["a", "a"], {"a"}, w, 1) == w(0);
    Quotient(w(0) + w(1), w(0));
  }

  // ---- moving a relevant id up ----

  lemma {:induction false} DcgUpdate(retrieved: seq<string>, relevant: set<string>, w: Weight, n: nat, p: nat, id: string)
    requires p < |retrieved| && n <= |retrieved|
    ensures Dcg(retrieved[p := id], relevant, w, n)
            == Dcg(retrieved, relevant, w, n)
               + if p < n then Gain(id, relevant, w, p) - Gain(retrieved[p], relevant, w, p) else 0.0
  {
    if n > 0 {
      DcgUpdate(retrieved, relevant, w, n - 1, p, id);
    }
  }

  /** Swapping a relevant id above an irrelevant one inside the top k strictly raises nDCG@k. */
  lemma {:induction false} NdcgSwapRaises(retrieved: seq<string>, expected: seq<string>, k: int, w: Weight, i: nat, j: nat)
    requires Discount(w) && i < j < Cut(k, |retrieved|)
    requires retrieved[i] !in expected && retrieved[j] in expected
    ensures NdcgAtK(retrieved[i := retrieved[j]][j := retrieved[i]], expected, k, w)
            > NdcgAtK(retrieved, expected, k, w)
  {
    var n, relevant := Cut(k, |retrieved|), ToSet(expected);
    var ideal := Ideal(w, IdealHits(expected, k));
    IdealPositive(w, expected, k);
    DcgUpdate(retrieved, relevant, w, n, i, retrieved[j]);
    DcgUpdate(retrieved[i := retrieved[j]], relevant, w, n, j, retrieved[i]);
    var swapped := retrieved[i := retrieved[j]][j := retrieved[i]];
    var before, after := Dcg(retrieved, relevant, w, n), Dcg(swapped, relevant, w, n);
    assert NdcgAtK(swapped, expected, k, w) == after / ideal;
    assert NdcgAtK(retrieved, expected, k, w) == before / ideal;
    assert w(i) > w(j);
    assert after == before + w(i) - w(j);
    QuotientLess(before, after, ideal);
  }

  // ---- hit@k and reciprocal rank ----

  lemma {:induction false} HitIsFirstHit(retrieved: seq<string>, expected: seq<string>, k: int)
    ensures HitAtK(retrieved, expected, k) == 0.0 || HitAtK(retrieved, expected, k) == 1.0
    ensures HitAtK(retrieved, expected, k) == 1.0 <==>
              FirstHit(retrieved, expected, 0) < |retrieved| && FirstHit(retrieved, expected, 0) < k
  {
    FirstHitIs(retrieved, expected, 0);
    var f := FirstHit(retrieved, expected, 0);
    if f < |retrieved| && f < k {
      assert retrieved[f] in expected && f < Cut(k, |retrieved|);
    }
  }

  /** hit@k never falls as k grows, and is 1 exactly when the reciprocal rank is at least 1/k. */
  lemma {:induction false} HitAndReciprocal(retrieved: seq<string>, expected: seq<string>, k: int, k': int)
    requires 0 < k <= k'
    ensures HitAtK(retrieved, expected, k) <= HitAtK(retrieved, expected, k')
    ensures HitAtK(retrieved, expected, k) == 1.0 <==> Reciprocal(retrieved, expected) >= 1.0 / k as real
  {
    HitIsFirstHit(retrieved, expected, k);
    HitIsFirstHit(retrieved, expected, k');
    var rank := FirstHit(retrieved, expected, 0) + 1;
    if rank < k {
      Inverse(rank, k);
    } else if k < rank {
      Inverse(k, rank);
    }
    Inverse(k, k + 1);
  }

  /** hit@1 <= reciprocal rank <= hit@d for every depth d that covers what was retrieved. */
  lemma {:induction false} ReciprocalBetweenHits(retrieved: seq<string>, expected: seq<string>, d: int)
    requires |retrieved| <= d
    ensures HitAtK(retrieved, expected, 1) <= Reciprocal(retrieved, expected)
            <= HitAtK(retrieved, expected, d)
    ensures 0.0 <= Reciprocal(retrieved, expected) <= 1.0
  {
    HitIsFirstHit(retrieved, expected, 1);
    HitIsFirstHit(retrieved, expected, d);
    var rank := FirstHit(retrieved, expected, 0) + 1;
    Inverse(rank, rank + 1);
  }
}
