/** Cosine similarity and ranking figures of `scripts/evaluate_embeddings.py`, in exact
    arithmetic; `math.sqrt` is any function with the defining square. */
module EmbeddingEval {
  import opened Sets
  import opened Sorting

  type Vector = seq<real>

  type SquareRoot = real -> real

  ghost predicate IsSqrt(sqrt: SquareRoot) {
    forall x :: x >= 0.0 ==> sqrt(x) >= 0.0 && sqrt(x) * sqrt(x) == x
  }

  // ---- cosine ----

  /** Product sum over the first `n` components. */
  function Dot(a: Vector, b: Vector, n: nat): real
    requires n <= |a| && n <= |b|
  {
    if n == 0 then 0.0 else Dot(a, b, n - 1) + a[n - 1] * b[n - 1]
  }

  function Zipped(a: Vector, b: Vector): nat {
    if |a| <= |b| then |a| else |b|
  }

  function Cosine(a: Vector, b: Vector, sqrt: SquareRoot): real
    requires IsSqrt(sqrt)
  {
    var n := Zipped(a, b);
    var na, nb := Dot(a, a, n), Dot(b, b, n);
    if na == 0.0 || nb == 0.0 then 0.0
    else
      RootsPositive(a, b, sqrt);
      Ratio(Dot(a, b, n), sqrt(na), sqrt(nb))
  }

  /** `_cos` */
  method Cos(a: Vector, b: Vector, sqrt: SquareRoot) returns (c: real)
    requires IsSqrt(sqrt)
    ensures c == Cosine(a, b, sqrt) && -1.0 <= c <= 1.0
  {
    var dot, na, nb := Products(a, b);
    CosineInRange(a, b, sqrt);
    if na == 0.0 || nb == 0.0 {
      return 0.0;
    }
    RootsPositive(a, b, sqrt);
    c := Ratio(dot, sqrt(na), sqrt(nb));
  }

  function Ratio(dot: real, x: real, y: real): real
    requires x * y > 0.0
  {
    dot / (x * y)
  }

  /** The loop over the zipped vectors. */
  method Products(a: Vector, b: Vector) returns (dot: real, na: real, nb: real)
    ensures var n := Zipped(a, b); dot == Dot(a, b, n) && na == Dot(a, a, n) && nb == Dot(b, b, n)
  {
    dot, na, nb := 0.0, 0.0, 0.0;
    var i := 0;
    while i < |a| && i < |b|
      invariant 0 <= i <= Zipped(a, b)
      invariant dot == Dot(a, b, i) && na == Dot(a, a, i) && nb == Dot(b, b, i)
    {
      dot := dot + a[i] * b[i];
      na := na + a[i] * a[i];
      nb := nb + b[i] * b[i];
      i := i + 1;
    }
  }

  lemma {:induction false} Square(x: real)
    ensures x * x >= 0.0
  {
  }

  lemma {:induction false} SumOfSquares(a: Vector, n: nat)
    requires n <= |a|
    ensures Dot(a, a, n) >= 0.0
  {
    if n > 0 {
      SumOfSquares(a, n - 1);
      Square(a[n - 1]);
    }
  }

  lemma {:induction false} SquaresOrder(s: real, t: real)
    requires s >= 0.0 && s * s >= t * t
    ensures -s <= t <= s
  {
    if t > s {
      assert t * t - s * s == (t - s) * (t + s);
      Product(t - s, t + s);
    } else if t < -s {
      assert t * t - s * s == (-t - s) * (-t + s);
      Product(-t - s, -t + s);
    }
  }

  lemma {:induction false} Product(x: real, y: real)
    requires x > 0.0 && y > 0.0
    ensures x * y > 0.0
  {
  }

  lemma {:induction false} ProductOrder(x: real, y: real, c: real)
    requires x <= y && c >= 0.0
    ensures x * c <= y * c
  {
    assert y * c - x * c == (y - x) * c;
  }

  /** One more component: from d^2 <= p q to (d + xy)^2 <= (p + x^2)(q + y^2). */
  lemma {:induction false} OneMoreComponent(d: real, p: real, q: real, x: real, y: real)
    requires p >= 0.0 && q >= 0.0 && d * d <= p * q
    ensures (d + x * y) * (d + x * y) <= (p + x * x) * (q + y * y)
  {
    var u, v, t := p * (y * y), q * (x * x), d * (x * y);
    Square(x);
    Square(y);
    ProductOrder(0.0, p, y * y);
    ProductOrder(0.0, q, x * x);
    var xy2 := (x * y) * (x * y);
    Square(x * y);
    ProductOrder(d * d, p * q, xy2);
    assert t * t == (d * d) * xy2;
    assert u * v == (p * q) * xy2;
    Square(u - v);
    assert (u + v) * (u + v) == (u - v) * (u - v) + 4.0 * (u * v);
    assert (2.0 * t) * (2.0 * t) == 4.0 * (t * t);
    SquaresOrder(u + v, 2.0 * t);
    Expand(d, p, q, x, y);
  }

  lemma {:induction false} Expand(d: real, p: real, q: real, x: real, y: real)
    ensures (d + x * y) * (d + x * y) == d * d + 2.0 * (d * (x * y)) + (x * y) * (x * y)
    ensures (p + x * x) * (q + y * y) == p * q + p * (y * y) + q * (x * x) + (x * y) * (x * y)
  {
    assert (x * x) * (y * y) == (x * y) * (x * y);
  }

  /** Cauchy-Schwarz over any common prefix. */
  lemma {:induction false} CauchySchwarz(a: Vector, b: Vector, n: nat)
    requires n <= |a| && n <= |b|
    ensures Dot(a, b, n) * Dot(a, b, n) <= Dot(a, a, n) * Dot(b, b, n)
  {
    if n > 0 {
      CauchySchwarz(a, b, n - 1);
      SumOfSquares(a, n - 1);
      SumOfSquares(b, n - 1);
      NextComponent(Dot(a, b, n - 1), Dot(a, a, n - 1), Dot(b, b, n - 1), a[n - 1], b[n - 1],
                    Dot(a, b, n), Dot(a, a, n), Dot(b, b, n));
    }
  }

  lemma {:induction false} NextComponent(d: real, p: real, q: real, x: real, y: real, d': real, p': real, q': real)
    requires p >= 0.0 && q >= 0.0 && d * d <= p * q
    requires d' == d + x * y && p' == p + x * x && q' == q + y * y
    ensures d' * d' <= p' * q'
  {
    OneMoreComponent(d, p, q, x, y);
  }

  lemma {:induction false} RootsPositive(a: Vector, b: Vector, sqrt: SquareRoot)
    requires IsSqrt(sqrt)
    requires Dot(a, a, Zipped(a, b)) != 0.0 && Dot(b, b, Zipped(a, b)) != 0.0
    ensures sqrt(Dot(a, a, Zipped(a, b))) * sqrt(Dot(b, b, Zipped(a, b))) > 0.0
  {
    var na, nb := Dot(a, a, Zipped(a, b)), Dot(b, b, Zipped(a, b));
    SumOfSquares(a, Zipped(a, b));
    SumOfSquares(b, Zipped(a, b));
    assert sqrt(na) != 0.0 && sqrt(nb) != 0.0;
    Product(sqrt(na), sqrt(nb));
  }

  lemma {:induction false} CosineInRange(a: Vector, b: Vector, sqrt: SquareRoot)
    requires IsSqrt(sqrt)
    ensures -1.0 <= Cosine(a, b, sqrt) <= 1.0
  {
    var n := Zipped(a, b);
    var na, nb, dot := Dot(a, a, n), Dot(b, b, n), Dot(a, b, n);
    if na != 0.0 && nb != 0.0 {
      RootsPositive(a, b, sqrt);
      SumOfSquares(a, n);
      SumOfSquares(b, n);
      CauchySchwarz(a, b, n);
      var r := sqrt(na) * sqrt(nb);
      SquareOfProduct(sqrt(na), sqrt(nb));
      assert r * r == na * nb;
      SquaresOrder(r, dot);
      RatioInUnit(dot, r);
      assert Cosine(a, b, sqrt) == Ratio(dot, sqrt(na), sqrt(nb)) == dot / r;
    } else {
      assert Cosine(a, b, sqrt) == 0.0;
    }
  }

  lemma {:induction false} SquareOfProduct(x: real, y: real)
    ensures (x * y) * (x * y) == (x * x) * (y * y)
  {
  }

  lemma {:induction false} RatioInUnit(x: real, r: real)
    requires r > 0.0 && -r <= x <= r
    ensures -1.0 <= x / r <= 1.0
  {
    var z := x / r;
    assert z * r == x;
    if z > 1.0 {
      Product(z - 1.0, r);
    } else if z < -1.0 {
      Product(-1.0 - z, r);
    }
  }

  /** A vector that is not zero is fully similar to itself. */
  lemma {:induction false} SelfSimilar(a: Vector, sqrt: SquareRoot)
    requires IsSqrt(sqrt) && Dot(a, a, |a|) != 0.0
    ensures Cosine(a, a, sqrt) == 1.0
  {
    SumOfSquares(a, |a|);
    RootsPositive(a, a, sqrt);
    var na := Dot(a, a, |a|);
    RatioOfSelf(na, sqrt(na));
    assert Cosine(a, a, sqrt) == Ratio(na, sqrt(na), sqrt(na));
  }

  lemma {:induction false} RatioOfSelf(x: real, root: real)
    requires x > 0.0 && root * root == x
    ensures Ratio(x, root, root) == 1.0
  {
    assert x / x == 1.0;
  }

  // ---- rank of the true text ----

  /** A similarity with the index it belongs to. */
  datatype Pair = Pair(sim: real, j: nat)

  /** Python's order on pairs, reversed: larger first, and of equal similarities the larger index. */
  predicate Before(a: Pair, b: Pair) {
    a.sim > b.sim || (a.sim == b.sim && a.j >= b.j)
  }

  lemma {:induction false} BeforeIsTotal()
    ensures TotalOrder(Before) && Antisymmetric(Before)
  {
  }

  /** How many pairs come strictly before `x`. */
  function Beats(pairs: seq<Pair>, x: Pair): nat {
    if pairs == [] then 0
    else (if Before(pairs[0], x) && pairs[0] != x then 1 else 0) + Beats(pairs[1..], x)
  }

  lemma {:induction false} AtMostIsBeats(pairs: seq<Pair>, x: Pair)
    ensures AtMost(pairs, x, Before) == Beats(pairs, x) + multiset(pairs)[x]
  {
    if pairs != [] {
      AtMostIsBeats(pairs[1..], x);
      assert pairs == [pairs[0]] + pairs[1..];
    }
  }

  predicate Numbered(pairs: seq<Pair>) {
    forall j :: 0 <= j < |pairs| ==> pairs[j].j == j
  }

  /** Pairs with different indices occur once each. */
  lemma {:induction false} NumberedOnce(pairs: seq<Pair>, i: nat)
    requires Numbered(pairs) && i < |pairs|
    ensures multiset(pairs)[pairs[i]] == 1
  {
    assert pairs == pairs[..i] + [pairs[i]] + pairs[i + 1..];
    assert pairs[i] !in pairs[..i] && pairs[i] !in pairs[i + 1..];
  }

  lemma {:induction false} NotTwice(s: seq<Pair>, k: nat)
    requires k + 1 < |s| && multiset(s)[s[k]] == 1
    ensures s[k + 1] != s[k]
  {
    assert s == s[..k + 1] + s[k + 1..];
    assert s[k] == s[..k + 1][k];
    assert multiset(s) == multiset(s[..k + 1]) + multiset(s[k + 1..]);
    assert s[k + 1] == s[k + 1..][0];
  }

  lemma {:induction false} PositionInSorted(pairs: seq<Pair>, i: nat, k: nat)
    requires Numbered(pairs) && i < |pairs| && k < |Sort(pairs, Before)|
    requires Sort(pairs, Before)[k] == pairs[i]
    ensures k == Beats(pairs, pairs[i])
  {
    BeforeIsTotal();
    SortSorts(pairs, Before);
    var sorted := Sort(pairs, Before);
    RankInSorted(sorted, k, pairs[i], Before);
    AtMostOfSort(pairs, pairs[i], Before);
    AtMostIsBeats(pairs, pairs[i]);
    NumberedOnce(pairs, i);
    if k + 1 < |sorted| {
      RankInSorted(sorted, k + 1, pairs[i], Before);
      NotTwice(sorted, k);
      assert Before(sorted[k], sorted[k + 1]);
    } else {
      AtMostBounds(sorted, pairs[i], Before);
    }
  }

  /** The rank read off the sorted list: how many texts come strictly before the true one. */
  method RankOf(pairs: seq<Pair>, i: nat) returns (rank: nat)
    requires Numbered(pairs) && i < |pairs|
    ensures rank == Beats(pairs, pairs[i]) && rank < |pairs|
  {
    BeforeIsTotal();
    SortSorts(pairs, Before);
    var sorted := Sort(pairs, Before);
    assert pairs[i] in multiset(sorted);
    rank := 0;
    while sorted[rank].j != i
      invariant rank < |sorted|
      invariant forall k :: 0 <= k < rank ==> sorted[k].j != i
      decreases |sorted| - rank
    {
      assert exists k :: rank < k < |sorted| && sorted[k] == pairs[i] by {
        var k :| 0 <= k < |sorted| && sorted[k] == pairs[i];
      }
      rank := rank + 1;
    }
    assert sorted[rank] in multiset(pairs);
    assert sorted[rank] == pairs[i];
    PositionInSorted(pairs, i, rank);
  }

  // ---- the evaluation loop ----

  datatype Evaluation =
    | ZeroQuestions                       // the script divides by zero
    | Evaluated(ranks: seq<nat>, recall1: real, recall5: real, mrr: real)

  function Pairs(q: Vector, texts: seq<Vector>, sqrt: SquareRoot): seq<Pair>
    requires IsSqrt(sqrt)
  {
    seq(|texts|, j requires 0 <= j < |texts| => Pair(Cosine(q, texts[j], sqrt), j))
  }

  function CountBelow(ranks: seq<nat>, r: nat): nat {
    if ranks == [] then 0
    else CountBelow(ranks[..|ranks| - 1], r) + if ranks[|ranks| - 1] < r then 1 else 0
  }

  function ReciprocalSum(ranks: seq<nat>): real {
    if ranks == [] then 0.0
    else ReciprocalSum(ranks[..|ranks| - 1]) + 1.0 / (ranks[|ranks| - 1] + 1) as real
  }

  method AllSims(q: Vector, texts: seq<Vector>, sqrt: SquareRoot) returns (pairs: seq<Pair>)
    requires IsSqrt(sqrt)
    ensures pairs == Pairs(q, texts, sqrt)
  {
    pairs := [];
    for j := 0 to |texts|
      invariant pairs == Pairs(q, texts, sqrt)[..j]
    {
      var c := Cos(q, texts[j], sqrt);
      pairs := pairs + [Pair(c, j)];
    }
  }

  /** The rank of the true text of query `i` among all texts. */
  function TrueRank(queries: seq<Vector>, texts: seq<Vector>, sqrt: SquareRoot, i: nat): nat
    requires IsSqrt(sqrt) && i < |queries| == |texts|
  {
    Beats(Pairs(queries[i], texts, sqrt), Pair(Cosine(queries[i], texts[i], sqrt), i))
  }

  // ---- what a rank means ----

  /** The texts more similar to the query than text `i`, and later ones as similar. */
  ghost function Ahead(q: Vector, texts: seq<Vector>, sqrt: SquareRoot, i: nat): set<nat>
    requires IsSqrt(sqrt) && i < |texts|
  {
    set j: nat | j < |texts| && j != i
                 && (Cosine(q, texts[j], sqrt) > Cosine(q, texts[i], sqrt)
                     || (Cosine(q, texts[j], sqrt) == Cosine(q, texts[i], sqrt) && j > i))
  }

  ghost function BeatenBy(pairs: seq<Pair>, x: Pair): set<nat> {
    set p | p in pairs && Before(p, x) && p != x :: p.j
  }

  lemma {:induction false} BeatsCounts(pairs: seq<Pair>, x: Pair)
    requires forall a, b :: 0 <= a < b < |pairs| ==> pairs[a].j != pairs[b].j
    ensures Beats(pairs, x) == |BeatenBy(pairs, x)|
  {
    if pairs != [] {
      var head, tail := pairs[0], pairs[1..];
      BeatsCounts(tail, x);
      assert pairs == [head] + tail;
      HeadNotBeaten(pairs, x);
      assert BeatenBy(pairs, x) == BeatenBy(tail, x) + if Before(head, x) && head != x then {head.j} else {};
    } else {
      assert BeatenBy(pairs, x) == {};
    }
  }

  lemma {:induction false} HeadNotBeaten(pairs: seq<Pair>, x: Pair)
    requires pairs != [] && forall a, b :: 0 <= a < b < |pairs| ==> pairs[a].j != pairs[b].j
    ensures pairs[0].j !in BeatenBy(pairs[1..], x)
  {
    forall p | p in pairs[1..] ensures p.j != pairs[0].j {
      var k :| 0 <= k < |pairs[1..]| && pairs[1..][k] == p;
      assert pairs[0].j != pairs[k + 1].j;
    }
  }

  /** The rank of the true text is the number of texts more similar to the query, where of equally
      similar texts the later ones go first. */
  lemma {:induction false} RankCounts(queries: seq<Vector>, texts: seq<Vector>, sqrt: SquareRoot, i: nat)
    requires IsSqrt(sqrt) && i < |queries| == |texts|
    ensures TrueRank(queries, texts, sqrt, i) == |Ahead(queries[i], texts, sqrt, i)|
  {
    var q := queries[i];
    var pairs, x := Pairs(q, texts, sqrt), Pair(Cosine(q, texts[i], sqrt), i);
    BeatsCounts(pairs, x);
    forall j: nat ensures j in BeatenBy(pairs, x) <==> j in Ahead(q, texts, sqrt, i) {
      BeatenIs(q, texts, sqrt, i, j);
    }
    assert BeatenBy(pairs, x) == Ahead(q, texts, sqrt, i);
  }

  lemma {:induction false} BeatenIs(q: Vector, texts: seq<Vector>, sqrt: SquareRoot, i: nat, j: nat)
    requires IsSqrt(sqrt) && i < |texts|
    ensures j in BeatenBy(Pairs(q, texts, sqrt), Pair(Cosine(q, texts[i], sqrt), i)) <==> j in Ahead(q, texts, sqrt, i)
  {
    var pairs := Pairs(q, texts, sqrt);
    if j < |texts| {
      assert pairs[j] in pairs && pairs[j].j == j;
    }
    forall p | p in pairs ensures p.j < |texts| && p == pairs[p.j] {
      var k :| 0 <= k < |pairs| && pairs[k] == p;
    }
  }

  /** The true text is first exactly when no other is more similar, or later and as similar. */
  lemma {:induction false} FirstExactly(queries: seq<Vector>, texts: seq<Vector>, sqrt: SquareRoot, i: nat)
    requires IsSqrt(sqrt) && i < |queries| == |texts|
    ensures TrueRank(queries, texts, sqrt, i) == 0 <==>
              forall j :: 0 <= j < |texts| && j != i ==>
                var (other, own) := (Cosine(queries[i], texts[j], sqrt), Cosine(queries[i], texts[i], sqrt));
                other < own || (other == own && j < i)
  {
    RankCounts(queries, texts, sqrt, i);
    var ahead := Ahead(queries[i], texts, sqrt, i);
    if forall j :: 0 <= j < |texts| && j != i ==>
         var (other, own) := (Cosine(queries[i], texts[j], sqrt), Cosine(queries[i], texts[i], sqrt));
         other < own || (other == own && j < i) {
      assert ahead == {};
    } else {
      var j :| 0 <= j < |texts| && j != i
               && var (other, own) := (Cosine(queries[i], texts[j], sqrt), Cosine(queries[i], texts[i], sqrt));
               !(other < own || (other == own && j < i));
      assert j in ahead;
    }
  }

  /** A true text that becomes more similar, the others as they were, never falls in rank. */
  lemma {:induction false} CloserNeverFalls(queries: seq<Vector>, texts: seq<Vector>, sqrt: SquareRoot, i: nat, text: Vector)
    requires IsSqrt(sqrt) && i < |queries| == |texts|
    requires Cosine(queries[i], text, sqrt) >= Cosine(queries[i], texts[i], sqrt)
    ensures TrueRank(queries, texts[i := text], sqrt, i) <= TrueRank(queries, texts, sqrt, i)
  {
    RankCounts(queries, texts, sqrt, i);
    RankCounts(queries, texts[i := text], sqrt, i);
    SubsetSize(Ahead(queries[i], texts[i := text], sqrt, i), Ahead(queries[i], texts, sqrt, i));
  }

  // ---- what the figures mean ----

  /** The positions of ranks below `r`. */
  ghost function Below(ranks: seq<nat>, r: nat): set<nat> {
    set i: nat | i < |ranks| && ranks[i] < r
  }

  lemma {:induction false} CountBelowCounts(ranks: seq<nat>, r: nat)
    ensures CountBelow(ranks, r) == |Below(ranks, r)|
  {
    if ranks == [] {
      assert Below(ranks, r) == {};
    } else {
      var n := |ranks| - 1;
      CountBelowCounts(ranks[..n], r);
      assert Below(ranks, r) == Below(ranks[..n], r) + if ranks[n] < r then {n} else {};
    }
  }

  /** The sum of reciprocals is what it is for one rank, added up. */
  lemma {:induction false} ReciprocalsAdd(a: seq<nat>, b: seq<nat>, r: nat)
    ensures ReciprocalSum(a + b) == ReciprocalSum(a) + ReciprocalSum(b)
    ensures ReciprocalSum([r]) == 1.0 / (r + 1) as real
    decreases |b|
  {
    assert [r][..0] == [];
    if b == [] {
      assert a + b == a;
    } else {
      var n := |b| - 1;
      ReciprocalsAdd(a, b[..n], r);
      assert (a + b)[..|a + b| - 1] == a + b[..n];
    }
  }

  /** The per-question loop of `evaluate_model`. */
  method EvaluateModel(queries: seq<Vector>, texts: seq<Vector>, sqrt: SquareRoot) returns (e: Evaluation)
    requires IsSqrt(sqrt) && |queries| == |texts|
    ensures e.ZeroQuestions? <==> queries == []
    ensures e.Evaluated? ==>
              && |e.ranks| == |queries|
              && (forall i :: 0 <= i < |queries| ==> e.ranks[i] == TrueRank(queries, texts, sqrt, i))
              && (forall i :: 0 <= i < |queries| ==> e.ranks[i] == |Ahead(queries[i], texts, sqrt, i)|)
              && e.recall1 == CountBelow(e.ranks, 1) as real / |queries| as real
              && e.recall5 == CountBelow(e.ranks, 5) as real / |queries| as real
              && e.mrr == ReciprocalSum(e.ranks) / |queries| as real
              && 0.0 <= e.recall1 <= e.recall5 <= 1.0
              && e.recall1 <= e.mrr <= e.recall1 + (1.0 - e.recall1) / 2.0
  {
    if queries == [] {
      return ZeroQuestions;
    }
    var ranks: seq<nat> := [];
    for i := 0 to |queries|
      invariant |ranks| == i
      invariant forall k :: 0 <= k < i ==> ranks[k] == TrueRank(queries, texts, sqrt, k)
    {
      var pairs := AllSims(queries[i], texts, sqrt);
      var rank := RankOf(pairs, i);
      ranks := ranks + [rank];
    }
    var n := |ranks| as real;
    FiguresConsistent(ranks);
    forall k | 0 <= k < |queries| ensures ranks[k] == |Ahead(queries[k], texts, sqrt, k)| {
      RankCounts(queries, texts, sqrt, k);
    }
    e := Evaluated(ranks, CountBelow(ranks, 1) as real / n, CountBelow(ranks, 5) as real / n, ReciprocalSum(ranks) / n);
  }

  lemma {:induction false} CountsOrdered(ranks: seq<nat>)
    ensures CountBelow(ranks, 1) <= CountBelow(ranks, 5) <= |ranks|
    ensures CountBelow(ranks, 1) as real <= ReciprocalSum(ranks)
            <= (CountBelow(ranks, 1) + |ranks|) as real / 2.0
  {
    if ranks != [] {
      CountsOrdered(ranks[..|ranks| - 1]);
      Half(ranks[|ranks| - 1]);
    }
  }

  lemma {:induction false} Half(r: nat)
    ensures 0.0 < 1.0 / (r + 1) as real <= 1.0 && (r > 0 ==> 1.0 / (r + 1) as real <= 0.5)
  {
    var x, m := 1.0 / (r + 1) as real, (r + 1) as real;
    assert x * m == 1.0;
    if x <= 0.0 {
      ProductOrder(x, 0.0, m);
    }
    if r > 0 && x > 0.5 {
      ProductOrder(0.5, x, m);
      Product(x - 0.5, m);
    } else if x > 1.0 {
      Product(x - 1.0, m);
    }
  }

  lemma {:induction false} FiguresConsistent(ranks: seq<nat>)
    requires ranks != []
    ensures var n := |ranks| as real;
            var r1, r5, mrr := CountBelow(ranks, 1) as real / n, CountBelow(ranks, 5) as real / n, ReciprocalSum(ranks) / n;
            0.0 <= r1 <= r5 <= 1.0 && r1 <= mrr <= r1 + (1.0 - r1) / 2.0
  {
    CountsOrdered(ranks);
    Shares(|ranks| as real, CountBelow(ranks, 1) as real, CountBelow(ranks, 5) as real, ReciprocalSum(ranks));
  }

  lemma {:induction false} Shares(n: real, c1: real, c5: real, sum: real)
    requires n > 0.0 && 0.0 <= c1 <= c5 <= n && c1 <= sum <= (c1 + n) / 2.0
    ensures 0.0 <= c1 / n <= c5 / n <= 1.0 && c1 / n <= sum / n <= c1 / n + (1.0 - c1 / n) / 2.0
  {
    Divide(0.0, c1, n);
    Divide(c1, c5, n);
    Divide(c5, n, n);
    Divide(c1, sum, n);
    var r := c1 / n;
    assert c1 == r * n;
    var x := r / 2.0 + 0.5;
    assert x * n == c1 / 2.0 + n / 2.0;
    Divide(sum, x * n, n);
    Undo(x, n);
    assert x == r + (1.0 - r) / 2.0;
  }

  lemma {:induction false} Undo(x: real, n: real)
    requires n > 0.0
    ensures (x * n) / n == x
  {
    var y := (x * n) / n;
    assert y * n == x * n;
    if y > x {
      Product(y - x, n);
    } else if y < x {
      Product(x - y, n);
    }
  }

  lemma {:induction false} Divide(a: real, b: real, n: real)
    requires a <= b && n > 0.0
    ensures a / n <= b / n
  {
    assert (b - a) / n == b / n - a / n;
  }
}
