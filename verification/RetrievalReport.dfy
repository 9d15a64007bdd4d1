/** `compute_bot_metrics` of `scripts/eval_retrieval_hit_at_k.py`: one report over all golden
    queries of a bot. */
module RetrievalReport {
  import opened RetrievalMetrics

  datatype GoldenQuery = GoldenQuery(question: string, expected: seq<string>)

  /** The injected retrieval runner: an ordered list of ids, or an exception the report counts as
      nothing retrieved. */
  datatype Retrieval = Ids(ids: seq<string>) | RunnerError

  type Runner = (string, int) -> Retrieval

  datatype BotMetrics = BotMetrics(total: nat, hit: map<int, real>, ndcg: map<int, real>, mrr: real)

  function Retrieved(runner: Runner, q: GoldenQuery, top: int): seq<string> {
    match runner(q.question, top)
    case Ids(ids) => ids
    case RunnerError => []
  }

  /** A per-query figure. */
  type Score = GoldenQuery -> real

  function HitScore(runner: Runner, top: int, k: int): Score {
    q => HitAtK(Retrieved(runner, q, top), q.expected, k)
  }

  function NdcgScore(runner: Runner, top: int, w: Weight, k: int): Score {
    q => NdcgAtK(Retrieved(runner, q, top), q.expected, k, w)
  }

  function RankScore(runner: Runner, top: int): Score {
    q => Reciprocal(Retrieved(runner, q, top), q.expected)
  }

  function Sum(score: Score, queries: seq<GoldenQuery>): real {
    if queries == [] then 0.0
    else Sum(score, queries[..|queries| - 1]) + score(queries[|queries| - 1])
  }

  function Mean(score: Score, queries: seq<GoldenQuery>): real {
    if queries == [] then 0.0 else Sum(score, queries) / |queries| as real
  }

  /** How often depth `d` is asked for. */
  function Times(depths: seq<int>, d: int): nat {
    multiset(depths)[d]
  }

  function Deepest(depths: seq<int>, top: int): int {
    if depths == [] then top
    else var rest := Deepest(depths[1..], top); if depths[0] > rest then depths[0] else rest
  }

  lemma {:induction false} DeepestCovers(depths: seq<int>, top: int)
    ensures top <= Deepest(depths, top) && forall d :: d in depths ==> d <= Deepest(depths, top)
  {
    if depths != [] {
      DeepestCovers(depths[1..], top);
      assert depths == [depths[0]] + depths[1..];
    }
  }

  // ---- the accumulating loops ----

  /** `for depth in depths: sums[depth] += score(depth)`, for one query. */
  method AddDepths(sums: map<int, real>, depths: seq<int>, score: int -> real) returns (r: map<int, real>)
    requires forall d :: d in depths ==> d in sums
    ensures r.Keys == sums.Keys
    ensures forall d :: d in r ==> r[d] == sums[d] + Times(depths, d) as real * score(d)
  {
    r := sums;
    var j := 0;
    while j < |depths|
      invariant 0 <= j <= |depths| && Added(sums, depths, j, score, r)
    {
      var d := depths[j];
      assert d in depths && d in r.Keys;
      ghost var before := r;
      r := r[d := r[d] + score(d)];
      AddedNext(sums, depths, j, score, before, r);
      j := j + 1;
    }
    assert depths[..j] == depths;
  }

  /** `r` is `sums` with the scores of the first `j` depths added. */
  ghost predicate Added(sums: map<int, real>, depths: seq<int>, j: nat, score: int -> real, r: map<int, real>)
    requires j <= |depths|
  {
    && r.Keys == sums.Keys
    && forall d :: d in r ==> r[d] == sums[d] + Weighted(depths, j, d, score(d))
  }

  function Weighted(depths: seq<int>, j: nat, d: int, x: real): real
    requires j <= |depths|
  {
    Times(depths[..j], d) as real * x
  }

  lemma {:induction false} AddedNext(sums: map<int, real>, depths: seq<int>, j: nat, score: int -> real,
                                     before: map<int, real>, r: map<int, real>)
    requires j < |depths| && depths[j] in before && Added(sums, depths, j, score, before)
    requires r == before[depths[j] := before[depths[j]] + score(depths[j])]
    ensures Added(sums, depths, j + 1, score, r)
  {
    assert r.Keys == before.Keys;
    forall d | d in r ensures r[d] == sums[d] + Weighted(depths, j + 1, d, score(d)) {
      OneMoreDepth(depths, j, d, score(d));
    }
  }

  lemma {:induction false} OneMoreDepth(depths: seq<int>, j: nat, d: int, x: real)
    requires j < |depths|
    ensures Weighted(depths, j + 1, d, x) == Weighted(depths, j, d, x) + if d == depths[j] then x else 0.0
  {
    assert depths[..j + 1] == depths[..j] + [depths[j]];
    OneMore(Times(depths[..j], d), x);
  }

  lemma {:induction false} OneMore(n: nat, x: real)
    ensures (n + 1) as real * x == n as real * x + x
  {
  }

  /** The figures the report averages, for the runner asked for the deepest list needed. */
  datatype Figures = Figures(hit: int -> Score, ndcg: int -> Score, rank: Score)

  function FiguresOf(runner: Runner, hitDepths: seq<int>, ndcgDepths: seq<int>, topK: int, w: Weight): Figures {
    var top := Deepest(hitDepths + ndcgDepths, topK);
    Figures(k => HitScore(runner, top, k), k => NdcgScore(runner, top, w, k), RankScore(runner, top))
  }

  /** Every depth of the report is the mean of its per-query figures, times the number of times
      that depth was asked for. */
  ghost predicate IsReport(m: BotMetrics, queries: seq<GoldenQuery>, hitDepths: seq<int>,
                           ndcgDepths: seq<int>, f: Figures)
  {
    && m.total == |queries|
    && m.hit.Keys == (set d | d in hitDepths) && m.ndcg.Keys == (set d | d in ndcgDepths)
    && (forall d :: d in m.hit ==> m.hit[d] == Times(hitDepths, d) as real * Mean(f.hit(d), queries))
    && (forall d :: d in m.ndcg ==> m.ndcg[d] == Times(ndcgDepths, d) as real * Mean(f.ndcg(d), queries))
    && m.mrr == Mean(f.rank, queries)
  }

  /** The sums hold what `score` gives over `queries`, counted once per request of a depth. */
  ghost predicate Accumulated(sums: map<int, real>, depths: seq<int>, score: int -> Score, queries: seq<GoldenQuery>) {
    && sums.Keys == (set d | d in depths)
    && forall d :: d in sums ==> sums[d] == Times(depths, d) as real * Sum(score(d), queries)
  }

  method AddQuery(sums: map<int, real>, depths: seq<int>, score: int -> Score,
                  ghost before: seq<GoldenQuery>, q: GoldenQuery) returns (r: map<int, real>)
    requires Accumulated(sums, depths, score, before)
    ensures Accumulated(r, depths, score, before + [q])
  {
    r := AddDepths(sums, depths, d => score(d)(q));
    assert (before + [q])[..|before|] == before;
    forall d | d in r ensures r[d] == Times(depths, d) as real * Sum(score(d), before + [q]) {
    }
  }

  method Means(sums: map<int, real>, depths: seq<int>, ghost score: int -> Score, queries: seq<GoldenQuery>)
    returns (r: map<int, real>)
    requires Accumulated(sums, depths, score, queries) && queries != []
    ensures r.Keys == (set d | d in depths)
    ensures forall d :: d in r ==> r[d] == Times(depths, d) as real * Mean(score(d), queries)
  {
    r := map d | d in sums :: sums[d] / |queries| as real;
    forall d | d in r ensures r[d] == Times(depths, d) as real * Mean(score(d), queries) {
      assert r[d] == (Times(depths, d) as real * Sum(score(d), queries)) / |queries| as real;
    }
  }

  /** `compute_bot_metrics` */
  method ComputeBotMetrics(queries: seq<GoldenQuery>, runner: Runner, hitDepths: seq<int>,
                           ndcgDepths: seq<int>, topK: int, w: Weight) returns (m: BotMetrics)
    ensures IsReport(m, queries, hitDepths, ndcgDepths, FiguresOf(runner, hitDepths, ndcgDepths, topK, w))
  {
    var f := FiguresOf(runner, hitDepths, ndcgDepths, topK, w);
    var hitSums := map d | d in hitDepths :: 0.0;
    var ndcgSums := map d | d in ndcgDepths :: 0.0;
    if queries == [] {
      return BotMetrics(0, hitSums, ndcgSums, 0.0);
    }
    var rrSum := 0.0;
    var top := Deepest(hitDepths + ndcgDepths, topK);
    var i := 0;
    while i < |queries|
      invariant 0 <= i <= |queries|
      invariant Accumulated(hitSums, hitDepths, f.hit, queries[..i])
      invariant Accumulated(ndcgSums, ndcgDepths, f.ndcg, queries[..i])
      invariant rrSum == Sum(f.rank, queries[..i])
    {
      var q := queries[i];
      assert queries[..i + 1] == queries[..i] + [q] && queries[..i + 1][..i] == queries[..i];
      hitSums := AddQuery(hitSums, hitDepths, f.hit, queries[..i], q);
      ndcgSums := AddQuery(ndcgSums, ndcgDepths, f.ndcg, queries[..i], q);
      var rr := ReciprocalRank(Retrieved(runner, q, top), q.expected);
      rrSum := rrSum + rr;
      i := i + 1;
    }
    assert queries[..i] == queries;
    m := MeanReport(queries, hitDepths, ndcgDepths, f, hitSums, ndcgSums, rrSum);
  }

  method MeanReport(queries: seq<GoldenQuery>, hitDepths: seq<int>, ndcgDepths: seq<int>, ghost f: Figures,
                    hitSums: map<int, real>, ndcgSums: map<int, real>, rrSum: real) returns (m: BotMetrics)
    requires queries != [] && rrSum == Sum(f.rank, queries)
    requires Accumulated(hitSums, hitDepths, f.hit, queries) && Accumulated(ndcgSums, ndcgDepths, f.ndcg, queries)
    ensures IsReport(m, queries, hitDepths, ndcgDepths, f)
  {
    var hit := Means(hitSums, hitDepths, f.hit, queries);
    var ndcg := Means(ndcgSums, ndcgDepths, f.ndcg, queries);
    m := BotMetrics(|queries|, hit, ndcg, rrSum / |queries| as real);
  }

  // ---- what the report means ----

  lemma {:induction false} SumOrdered(a: Score, b: Score, queries: seq<GoldenQuery>)
    requires forall q :: q in queries ==> a(q) <= b(q)
    ensures Sum(a, queries) <= Sum(b, queries)
  {
    if queries != [] {
      SumOrdered(a, b, queries[..|queries| - 1]);
    }
  }

  /** The mean of equal scores is that score. */
  lemma {:induction false} MeanOfSame(a: Score, c: real, queries: seq<GoldenQuery>)
    requires queries != [] && forall q :: q in queries ==> a(q) == c
    ensures Mean(a, queries) == c
  {
    SumOfSame(a, c, queries);
    Cancelled(c, |queries| as real);
  }

  lemma {:induction false} SumOfSame(a: Score, c: real, queries: seq<GoldenQuery>)
    requires forall q :: q in queries ==> a(q) == c
    ensures Sum(a, queries) == |queries| as real * c
  {
    if queries != [] {
      SumOfSame(a, c, queries[..|queries| - 1]);
      OneMore(|queries| - 1, c);
    }
  }

  lemma {:induction false} Cancelled(c: real, n: real)
    requires n > 0.0
    ensures n * c / n == c
  {
  }

  /** A query whose retrieval raised scores nothing at any depth. */
  lemma {:induction false} ErrorIsMiss(runner: Runner, q: GoldenQuery, top: int, k: int, w: Weight)
    requires Discount(w) && runner(q.question, top).RunnerError?
    ensures HitScore(runner, top, k)(q) == 0.0 && NdcgScore(runner, top, w, k)(q) == 0.0 && RankScore(runner, top)(q) == 0.0
  {
    if k > 0 && q.expected != [] {
      IdealPositive(w, q.expected, k);
    }
  }

  lemma {:induction false} MeanOrdered(a: Score, b: Score, queries: seq<GoldenQuery>)
    requires forall q :: q in queries ==> a(q) <= b(q)
    ensures Mean(a, queries) <= Mean(b, queries)
  {
    SumOrdered(a, b, queries);
    if queries != [] {
      var n := |queries| as real;
      assert Sum(a, queries) == (Sum(a, queries) / n) * n && Sum(b, queries) == (Sum(b, queries) / n) * n;
      Cancel(Sum(a, queries) / n, Sum(b, queries) / n, n);
    }
  }

  lemma {:induction false} MeanInUnit(a: Score, queries: seq<GoldenQuery>)
    requires forall q :: q in queries ==> 0.0 <= a(q) <= 1.0
    ensures 0.0 <= Mean(a, queries) <= 1.0
  {
    if queries != [] {
      SumOfSame(_ => 0.0, 0.0, queries);
      SumOfSame(_ => 1.0, 1.0, queries);
      SumOrdered(_ => 0.0, a, queries);
      SumOrdered(a, _ => 1.0, queries);
      Quotient(Sum(a, queries), |queries| as real);
    }
  }

  lemma {:induction false} DistinctOnce(depths: seq<int>, d: int)
    requires d in depths && Distinct(depths)
    ensures Times(depths, d) == 1
  {
    assert depths == [depths[0]] + depths[1..];
    if depths[0] == d {
      assert d !in multiset(depths[1..]);
    } else {
      DistinctOnce(depths[1..], d);
    }
  }

  predicate Distinct(depths: seq<int>) {
    forall i, j :: 0 <= i < j < |depths| ==> depths[i] != depths[j]
  }

  /** The report of pairwise distinct depths, whatever was retrieved: means in [0, 1], hit rates that
      grow with depth, and hit@1 <= MRR <= hit@d once d covers every retrieved list. */
  lemma {:induction false} ReportOfDistinctDepths(m: BotMetrics, queries: seq<GoldenQuery>, runner: Runner, hitDepths: seq<int>,
                               ndcgDepths: seq<int>, topK: int, w: Weight)
    requires IsReport(m, queries, hitDepths, ndcgDepths, FiguresOf(runner, hitDepths, ndcgDepths, topK, w))
    requires Distinct(hitDepths)
    ensures forall d :: d in hitDepths ==> 0.0 <= m.hit[d] <= 1.0
    ensures forall c, d :: c in hitDepths && d in hitDepths && 0 < c <= d ==> m.hit[c] <= m.hit[d]
    ensures 0.0 <= m.mrr <= 1.0 && (1 in hitDepths ==> m.hit[1] <= m.mrr)
    ensures forall d :: d in hitDepths
                        && (forall q :: q in queries ==>
                              |Retrieved(runner, q, Deepest(hitDepths + ndcgDepths, topK))| <= d) ==>
                          m.mrr <= m.hit[d]
  {
    var top := Deepest(hitDepths + ndcgDepths, topK);
    forall d | d in hitDepths
      ensures m.hit[d] == Mean(HitScore(runner, top, d), queries) && 0.0 <= m.hit[d] <= 1.0
    {
      DistinctOnce(hitDepths, d);
      HitsInUnit(runner, top, d, queries);
    }
    forall c, d | c in hitDepths && d in hitDepths && 0 < c <= d ensures m.hit[c] <= m.hit[d] {
      HitsGrowWithDepth(runner, top, c, d, queries);
    }
    RanksInUnit(runner, top, queries);
    forall d | d in hitDepths && (forall q :: q in queries ==> |Retrieved(runner, q, top)| <= d)
      ensures m.mrr <= m.hit[d]
    {
      RanksBelowHits(runner, top, d, queries);
    }
  }

  /** An nDCG figure of the report is in [0, 1] when its depth is asked for once and no query has a
      relevant id twice among the ids that depth looks at. */
  lemma {:induction false} ReportNdcgInUnit(m: BotMetrics, queries: seq<GoldenQuery>, runner: Runner, hitDepths: seq<int>,
                               ndcgDepths: seq<int>, topK: int, w: Weight, d: int)
    requires IsReport(m, queries, hitDepths, ndcgDepths, FiguresOf(runner, hitDepths, ndcgDepths, topK, w))
    requires Discount(w) && d in ndcgDepths && Times(ndcgDepths, d) == 1
    requires var top := Deepest(hitDepths + ndcgDepths, topK);
             forall q :: q in queries ==> NoHitTwiceIn(Retrieved(runner, q, top), q, d)
    ensures 0.0 <= m.ndcg[d] <= 1.0
  {
    NdcgInUnit(runner, Deepest(hitDepths + ndcgDepths, topK), w, d, queries);
  }

  ghost predicate NoHitTwiceIn(retrieved: seq<string>, q: GoldenQuery, d: int) {
    NoHitTwice(retrieved, ToSet(q.expected), Cut(d, |retrieved|))
  }

  /** What a runner that cuts a ranking at `top` returns. */
  function Truncated(ranking: seq<string>, top: int): seq<string> {
    ranking[..Cut(top, |ranking|)]
  }

  /** One retrieval at the deepest depth is enough: at every depth asked for, a ranking cut there
      scores what the whole ranking scores. */
  lemma {:induction false} DeepestSuffices(ranking: seq<string>, expected: seq<string>, hitDepths: seq<int>,
                               ndcgDepths: seq<int>, topK: int, d: int, w: Weight)
    ensures var kept := Truncated(ranking, Deepest(hitDepths + ndcgDepths, topK));
            && (d in hitDepths ==> HitAtK(kept, expected, d) == HitAtK(ranking, expected, d))
            && (d in ndcgDepths ==> NdcgAtK(kept, expected, d, w) == NdcgAtK(ranking, expected, d, w))
            && (topK >= |ranking| ==> Reciprocal(kept, expected) == Reciprocal(ranking, expected))
  {
    var top := Deepest(hitDepths + ndcgDepths, topK);
    var kept := Truncated(ranking, top);
    DeepestCovers(hitDepths + ndcgDepths, topK);
    if d in hitDepths + ndcgDepths {
      assert Cut(d, |kept|) == Cut(d, |ranking|);
      SamePrefix(kept, ranking, ToSet(expected), w, Cut(d, |kept|));
    }
    if topK >= |ranking| {
      assert kept == ranking;
    }
  }

  lemma {:induction false} SamePrefix(a: seq<string>, b: seq<string>, relevant: set<string>, w: Weight, n: nat)
    requires n <= |a| && n <= |b| && forall i :: 0 <= i < n ==> a[i] == b[i]
    ensures Dcg(a, relevant, w, n) == Dcg(b, relevant, w, n)
  {
    if n > 0 {
      SamePrefix(a, b, relevant, w, n - 1);
    }
  }

  lemma {:induction false} HitsInUnit(runner: Runner, top: int, d: int, queries: seq<GoldenQuery>)
    ensures 0.0 <= Mean(HitScore(runner, top, d), queries) <= 1.0
  {
    forall q | q in queries ensures 0.0 <= HitScore(runner, top, d)(q) <= 1.0 {
      HitIsFirstHit(Retrieved(runner, q, top), q.expected, d);
    }
    MeanInUnit(HitScore(runner, top, d), queries);
  }

  lemma {:induction false} NdcgInUnit(runner: Runner, top: int, w: Weight, d: int, queries: seq<GoldenQuery>)
    requires Discount(w)
    requires forall q :: q in queries ==> NoHitTwiceIn(Retrieved(runner, q, top), q, d)
    ensures 0.0 <= Mean(NdcgScore(runner, top, w, d), queries) <= 1.0
  {
    forall q | q in queries ensures 0.0 <= NdcgScore(runner, top, w, d)(q) <= 1.0 {
      NdcgRange(Retrieved(runner, q, top), q.expected, d, w);
    }
    MeanInUnit(NdcgScore(runner, top, w, d), queries);
  }

  lemma {:induction false} HitsGrowWithDepth(runner: Runner, top: int, c: int, d: int, queries: seq<GoldenQuery>)
    requires 0 < c <= d
    ensures Mean(HitScore(runner, top, c), queries) <= Mean(HitScore(runner, top, d), queries)
  {
    forall q | q in queries ensures HitScore(runner, top, c)(q) <= HitScore(runner, top, d)(q) {
      HitAndReciprocal(Retrieved(runner, q, top), q.expected, c, d);
    }
    MeanOrdered(HitScore(runner, top, c), HitScore(runner, top, d), queries);
  }

  lemma {:induction false} RanksInUnit(runner: Runner, top: int, queries: seq<GoldenQuery>)
    ensures 0.0 <= Mean(RankScore(runner, top), queries) <= 1.0
    ensures Mean(HitScore(runner, top, 1), queries) <= Mean(RankScore(runner, top), queries)
  {
    forall q | q in queries
      ensures 0.0 <= RankScore(runner, top)(q) <= 1.0 && HitScore(runner, top, 1)(q) <= RankScore(runner, top)(q)
    {
      ReciprocalBetweenHits(Retrieved(runner, q, top), q.expected, |Retrieved(runner, q, top)|);
    }
    MeanInUnit(RankScore(runner, top), queries);
    MeanOrdered(HitScore(runner, top, 1), RankScore(runner, top), queries);
  }

  lemma {:induction false} RanksBelowHits(runner: Runner, top: int, d: int, queries: seq<GoldenQuery>)
    requires forall q :: q in queries ==> |Retrieved(runner, q, top)| <= d
    ensures Mean(RankScore(runner, top), queries) <= Mean(HitScore(runner, top, d), queries)
  {
    forall q | q in queries ensures RankScore(runner, top)(q) <= HitScore(runner, top, d)(q) {
      ReciprocalBetweenHits(Retrieved(runner, q, top), q.expected, d);
    }
    MeanOrdered(RankScore(runner, top), HitScore(runner, top, d), queries);
  }
}
