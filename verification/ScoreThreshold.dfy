/** Threshold recommendation and histogram of `scripts/analyze_score_distribution.py`. */
module ScoreThreshold {
  import opened Sorting

  datatype Turn = Turn(score: real, status: string)

  predicate IsAnswered(status: string) {
    status == "answered" || status == "ANSWERED"
  }

  predicate IsRefused(status: string) {
    status == "no_context" || status == "blocked" || status == "refuse" || status == "REFUSE"
  }

  function AnsweredScores(turns: seq<Turn>): seq<real> {
    if turns == [] then []
    else
      AnsweredScores(turns[..|turns| - 1])
      + if IsAnswered(turns[|turns| - 1].status) then [turns[|turns| - 1].score] else []
  }

  /** Python's `int()`: truncation towards zero. */
  function Trunc(x: real): int {
    if x >= 0.0 then x.Floor else -((-x).Floor)
  }

  function CutoffIndex(n: nat, target: int): nat {
    var idx := Trunc((n * (100 - target)) as real / 100.0) - 1;
    if idx < 0 then 0 else idx
  }

  datatype Recommendation =
    | NothingAnswered
    | IndexError            // the list access the script would crash on
    | Recommend(threshold: real, answeredTotal: nat, above: nat, below: nat, refusedBelow: nat)

  function Below(scores: seq<real>, t: real): nat {
    if scores == [] then 0 else (if scores[0] < t then 1 else 0) + Below(scores[1..], t)
  }

  function RefusedBelow(turns: seq<Turn>, t: real): nat {
    if turns == [] then 0
    else
      RefusedBelow(turns[..|turns| - 1], t)
      + if IsRefused(turns[|turns| - 1].status) && turns[|turns| - 1].score < t then 1 else 0
  }

  function AtLeast(scores: seq<real>, t: real): nat {
    if scores == [] then 0 else (if scores[0] >= t then 1 else 0) + AtLeast(scores[1..], t)
  }

  function RecommendThreshold(turns: seq<Turn>, target: int): Recommendation {
    var answered := Sort(AnsweredScores(turns), RealLe);
    if answered == [] then NothingAnswered
    else if CutoffIndex(|answered|, target) >= |answered| then IndexError
    else
      var t := answered[CutoffIndex(|answered|, target)];
      Recommend(t, |answered|, AtLeast(answered, t), Below(answered, t), RefusedBelow(turns, t))
  }

  /** The turns with an answer. */
  ghost function Answered(turns: seq<Turn>): set<nat> {
    set i: nat | i < |turns| && turns[i].status in {"answered", "ANSWERED"}
  }

  ghost function ScoresAnswered(turns: seq<Turn>): set<real> {
    set i | i in Answered(turns) :: turns[i].score
  }

  /** The scores of the answered turns, one for each. */
  lemma {:induction false} AnsweredScoresAre(turns: seq<Turn>)
    ensures |AnsweredScores(turns)| == |Answered(turns)|
    ensures (set v | v in AnsweredScores(turns)) == ScoresAnswered(turns)
    decreases |turns|
  {
    if turns != [] {
      var n := |turns| - 1;
      AnsweredScoresAre(turns[..n]);
      MoreAnswered(turns);
      MoreScores(AnsweredScores(turns[..n]), turns[n].score);
    }
  }

  lemma {:induction false} MoreScores(scores: seq<real>, v: real)
    ensures (set x | x in scores + [v]) == (set x | x in scores) + {v}
  {
  }

  lemma {:induction false} MoreAnswered(turns: seq<Turn>)
    requires turns != []
    ensures var (n, front) := (|turns| - 1, turns[..|turns| - 1]);
            && |Answered(turns)| == |Answered(front)| + (if turns[n].status in {"answered", "ANSWERED"} then 1 else 0)
            && ScoresAnswered(turns)
               == ScoresAnswered(front) + if turns[n].status in {"answered", "ANSWERED"} then {turns[n].score} else {}
  {
    var n, front := |turns| - 1, turns[..|turns| - 1];
    LastAnswered(turns);
    forall v ensures v in ScoresAnswered(turns) <==>
                       v in ScoresAnswered(front) || (turns[n].status in {"answered", "ANSWERED"} && v == turns[n].score) {
      if v in ScoresAnswered(front) {
        var i :| i in Answered(front) && front[i].score == v;
        assert i in Answered(turns) && turns[i].score == v;
      }
      if v in ScoresAnswered(turns) {
        var i :| i in Answered(turns) && turns[i].score == v;
        assert i < n ==> i in Answered(front) && front[i].score == v;
      }
      assert turns[n].status in {"answered", "ANSWERED"} ==> n in Answered(turns);
    }
  }

  lemma {:induction false} LastAnswered(turns: seq<Turn>)
    requires turns != []
    ensures |Answered(turns)| == |Answered(turns[..|turns| - 1])|
                                 + if turns[|turns| - 1].status in {"answered", "ANSWERED"} then 1 else 0
  {
    var n := |turns| - 1;
    assert Answered(turns) == Answered(turns[..n]) + if turns[n].status in {"answered", "ANSWERED"} then {n} else {};
  }

  /** The refused turns with a score below `t`. */
  ghost function Refused(turns: seq<Turn>, t: real): set<nat> {
    set i: nat | i < |turns| && turns[i].status in {"no_context", "blocked", "refuse", "REFUSE"} && turns[i].score < t
  }

  lemma {:induction false} RefusedBelowCounts(turns: seq<Turn>, t: real)
    ensures RefusedBelow(turns, t) == |Refused(turns, t)|
    decreases |turns|
  {
    if turns == [] {
      assert Refused(turns, t) == {};
    } else {
      var n := |turns| - 1;
      RefusedBelowCounts(turns[..n], t);
      assert Refused(turns, t) == Refused(turns[..n], t) + if n in Refused(turns, t) then {n} else {};
    }
  }

  // ---- counting in a sorted list ----

  lemma {:induction false} Split(scores: seq<real>, t: real)
    ensures AtLeast(scores, t) + Below(scores, t) == |scores|
  {
    if scores != [] {
      Split(scores[1..], t);
    }
  }

  /** Fewer than k + 1 elements are below the one at position k. */
  lemma {:induction false} BelowAt(sorted: seq<real>, k: nat, t: real)
    requires SortedBy(sorted, RealLe) && k < |sorted| && t <= sorted[k]
    ensures Below(sorted, t) <= k
    decreases |sorted|
  {
    if k > 0 {
      BelowAt(sorted[1..], k - 1, t);
    } else {
      NoneBelow(sorted, t);
    }
  }

  lemma {:induction false} NoneBelow(sorted: seq<real>, t: real)
    requires SortedBy(sorted, RealLe) && (sorted == [] || t <= sorted[0])
    ensures Below(sorted, t) == 0
  {
    if sorted != [] {
      assert |sorted| > 1 ==> RealLe(sorted[0], sorted[1]);
      NoneBelow(sorted[1..], t);
    }
  }

  /** With distinct scores exactly k of them are below the one at position k. */
  lemma {:induction false} BelowExactly(sorted: seq<real>, k: nat)
    requires (forall i, j :: 0 <= i < j < |sorted| ==> sorted[i] < sorted[j]) && k < |sorted|
    ensures Below(sorted, sorted[k]) == k
    decreases |sorted|
  {
    if k > 0 {
      assert sorted[1..][k - 1] == sorted[k];
      BelowExactly(sorted[1..], k - 1);
    } else {
      NoneBelow(sorted, sorted[0]);
    }
  }

  // ---- the recommendation ----

  /** Exactly when the script crashes: only for a negative target at or below -100 / n. */
  lemma {:induction false} CrashesExactly(turns: seq<Turn>, target: int)
    ensures RecommendThreshold(turns, target).IndexError? <==>
              AnsweredScores(turns) != [] && |AnsweredScores(turns)| * (-target) >= 100
  {
    SortSorts(AnsweredScores(turns), RealLe);
    var n := |AnsweredScores(turns)|;
    TruncOfHundredths(n * (100 - target));
    assert n * (100 - target) == 100 * n + n * (-target);
  }

  lemma {:induction false} TruncOfHundredths(x: int)
    ensures x >= 0 ==> Trunc(x as real / 100.0) == x / 100
    ensures x < 0 ==> Trunc(x as real / 100.0) <= 0
  {
    var q, r := x / 100, x % 100;
    assert x as real / 100.0 == q as real + r as real / 100.0;
  }

  /** For a target between 0 and 100 the threshold is one of the answered scores, admits at least
      that percentage of them, and the two counts add up. */
  lemma {:induction false} AdmitsTarget(turns: seq<Turn>, target: int)
    requires 0 <= target <= 100 && AnsweredScores(turns) != []
    ensures var r := RecommendThreshold(turns, target);
            && r.Recommend? && r.threshold in AnsweredScores(turns)
            && r.answeredTotal == |AnsweredScores(turns)| == r.above + r.below
            && 100 * r.above >= target * r.answeredTotal
  {
    var answered := Sort(AnsweredScores(turns), RealLe);
    SortSorts(AnsweredScores(turns), RealLe);
    var n := |answered|;
    CutoffSmall(n, target);
    var k := CutoffIndex(n, target);
    assert answered[k] in multiset(answered);
    BelowAt(answered, k, answered[k]);
    Split(answered, answered[k]);
  }

  /** The positions given up are at most the share that may be refused, and nearly all of it. */
  lemma {:induction false} CutoffSmall(n: nat, target: int)
    requires n > 0 && 0 <= target <= 100
    ensures CutoffIndex(n, target) < n
    ensures 100 * (n - CutoffIndex(n, target)) >= target * n
    ensures n * (100 - target) >= 100 ==> 100 * (n - CutoffIndex(n, target) - 1) >= target * n
    ensures 100 * (n - CutoffIndex(n, target) - 2) < target * n
  {
    var refusable := n * (100 - target);
    TruncOfHundredths(refusable);
    assert refusable == 100 * n - target * n;
    assert 0 <= target * n;
    assert refusable >= 0;
  }

  /** With distinct scores the threshold is within one position of the tightest: the next score
      up still meets the target (unless nothing may be refused), the one after misses it. */
  lemma {:induction false} NearlyTight(turns: seq<Turn>, target: int)
    requires 0 <= target <= 100 && AnsweredScores(turns) != []
    requires var answered := Sort(AnsweredScores(turns), RealLe);
             forall i, j :: 0 <= i < j < |answered| ==> answered[i] < answered[j]
    ensures var answered := Sort(AnsweredScores(turns), RealLe);
            var n, k := |answered|, CutoffIndex(|answered|, target);
            && (k + 1 < n && n * (100 - target) >= 100 ==>
                  100 * AtLeast(answered, answered[k + 1]) >= target * n)
            && (k + 2 < n ==> 100 * AtLeast(answered, answered[k + 2]) < target * n)
  {
    SortSorts(AnsweredScores(turns), RealLe);
    TightOf(Sort(AnsweredScores(turns), RealLe), target);
  }

  lemma {:induction false} TightOf(sorted: seq<real>, target: int)
    requires 0 <= target <= 100 && sorted != []
    requires forall i, j :: 0 <= i < j < |sorted| ==> sorted[i] < sorted[j]
    ensures var n, k := |sorted|, CutoffIndex(|sorted|, target);
            && k >= 0
            && (k + 1 < n && n * (100 - target) >= 100 ==> 100 * AtLeast(sorted, sorted[k + 1]) >= target * n)
            && (k + 2 < n ==> 100 * AtLeast(sorted, sorted[k + 2]) < target * n)
  {
    CutoffSmall(|sorted|, target);
    TightAt(sorted, target, CutoffIndex(|sorted|, target));
  }

  lemma {:induction false} TightAt(sorted: seq<real>, target: int, k: nat)
    requires forall i, j :: 0 <= i < j < |sorted| ==> sorted[i] < sorted[j]
    ensures k + 1 < |sorted| && 100 * (|sorted| - k - 1) >= target * |sorted| ==>
              100 * AtLeast(sorted, sorted[k + 1]) >= target * |sorted|
    ensures k + 2 < |sorted| && 100 * (|sorted| - k - 2) < target * |sorted| ==>
              100 * AtLeast(sorted, sorted[k + 2]) < target * |sorted|
  {
    NextAdmitted(sorted, k + 1);
    NextAdmitted(sorted, k + 2);
  }

  lemma {:induction false} NextAdmitted(sorted: seq<real>, k: nat)
    requires forall i, j :: 0 <= i < j < |sorted| ==> sorted[i] < sorted[j]
    ensures k < |sorted| ==> 100 * AtLeast(sorted, sorted[k]) == 100 * (|sorted| - k)
  {
    if k < |sorted| {
      AtLeastExactly(sorted, k);
    }
  }

  lemma {:induction false} AtLeastExactly(sorted: seq<real>, k: nat)
    requires (forall i, j :: 0 <= i < j < |sorted| ==> sorted[i] < sorted[j]) && k < |sorted|
    ensures AtLeast(sorted, sorted[k]) == |sorted| - k
  {
    BelowExactly(sorted, k);
    Split(sorted, sorted[k]);
  }

  // ---- histogram ----

  function BucketFor(score: real, buckets: int): int {
    if score <= 0.0 then 0
    else if score >= 1.0 then buckets - 1
    else Trunc(score * buckets as real)
  }

  /** Counters of statuses, as bags. */
  type Histogram = map<int, multiset<string>>

  function Expected(turns: seq<Turn>, buckets: int, b: int): multiset<string> {
    if turns == [] then multiset{}
    else
      var last := turns[|turns| - 1];
      Expected(turns[..|turns| - 1], buckets, b)
      + if BucketFor(last.score, buckets) == b then multiset{last.status} else multiset{}
  }

  function Cell(h: Histogram, b: int): multiset<string> {
    if b in h then h[b] else multiset{}
  }

  /** `histogram`: bucket b holds the statuses of exactly the turns whose score falls in it. */
  method MakeHistogram(turns: seq<Turn>, buckets: int) returns (out: Histogram)
    ensures forall b :: Cell(out, b) == Expected(turns, buckets, b)
  {
    out := map[];
    for i := 0 to |turns|
      invariant forall b :: Cell(out, b) == Expected(turns[..i], buckets, b)
    {
      assert turns[..i + 1][..i] == turns[..i];
      var b := BucketFor(turns[i].score, buckets);
      assert Cell(out, b) == Expected(turns[..i], buckets, b);
      if b !in out {
        out := out[b := multiset{}];
      }
      ghost var before := out;
      out := out[b := out[b] + multiset{turns[i].status}];
      forall c ensures Cell(out, c) == Expected(turns[..i + 1], buckets, c) {
        assert c != b ==> Cell(out, c) == Cell(before, c);
      }
    }
    assert turns[..|turns|] == turns;
  }

  /** A score in [0, 1) lies in the interval its bucket is labelled with. */
  lemma {:induction false} BucketInterval(score: real, buckets: int)
    requires 0.0 <= score < 1.0 && buckets > 0
    ensures var b := BucketFor(score, buckets);
            0 <= b < buckets && b as real / buckets as real <= score < (b + 1) as real / buckets as real
  {
    if score == 0.0 {
      FirstInterval(buckets as real);
    } else {
      InnerInterval(score, buckets);
    }
  }

  /** Scores of 0 and less are in the first bucket, of 1 and more in the last. */
  lemma {:induction false} BucketEdges(score: real, buckets: int)
    ensures score <= 0.0 ==> BucketFor(score, buckets) == 0
    ensures score >= 1.0 ==> BucketFor(score, buckets) == buckets - 1
  {
  }

  lemma {:induction false} FirstInterval(n: real)
    requires n > 0.0
    ensures 0.0 / n == 0.0 < 1.0 / n
  {
    assert 1.0 / n * n == 1.0;
  }

  lemma {:induction false} InnerInterval(score: real, buckets: int)
    requires 0.0 < score < 1.0 && buckets > 0
    ensures var b := BucketFor(score, buckets);
            0 <= b < buckets && b as real / buckets as real <= score < (b + 1) as real / buckets as real
  {
    var x := score * buckets as real;
    PartOf(score, buckets as real);
    BucketIs(score, buckets, x);
    CellInterval(x, buckets, score);
  }

  lemma {:induction false} BucketIs(score: real, buckets: int, x: real)
    requires 0.0 < score < 1.0 && x == score * buckets as real && 0.0 < x < buckets as real
    ensures BucketFor(score, buckets) == x.Floor && 0 <= x.Floor < buckets
  {
  }

  lemma {:induction false} PartOf(score: real, n: real)
    requires 0.0 < score < 1.0 && n > 0.0
    ensures 0.0 < score * n < n
  {
    Positive(score, n);
    Positive(1.0 - score, n);
    assert (1.0 - score) * n == n - score * n;
  }

  lemma {:induction false} Positive(x: real, y: real)
    requires x > 0.0 && y > 0.0
    ensures x * y > 0.0
  {
  }

  lemma {:induction false} CellInterval(x: real, buckets: int, score: real)
    requires buckets > 0 && x == score * buckets as real
    ensures x.Floor as real / buckets as real <= score < (x.Floor + 1) as real / buckets as real
  {
    assert x.Floor as real <= x < (x.Floor + 1) as real;
    Quotients(x.Floor as real, buckets as real, score);
    Quotients((x.Floor + 1) as real, buckets as real, score);
  }

  lemma {:induction false} Quotients(a: real, n: real, q: real)
    requires n > 0.0
    ensures (a / n <= q <==> a <= q * n) && (q < a / n <==> q * n < a)
  {
    var r := a / n;
    assert r * n == a;
    if r < q {
      Positive(q - r, n);
      assert (q - r) * n == q * n - r * n;
    } else if r > q {
      Positive(r - q, n);
      assert (r - q) * n == r * n - q * n;
    }
  }

  function TotalUpTo(turns: seq<Turn>, buckets: int, n: nat): nat {
    if n == 0 then 0 else TotalUpTo(turns, buckets, n - 1) + |Expected(turns, buckets, n - 1)|
  }

  lemma {:induction false} BucketInRange(score: real, buckets: int)
    requires buckets > 0
    ensures 0 <= BucketFor(score, buckets) < buckets
  {
    if 0.0 < score < 1.0 {
      BucketInterval(score, buckets);
    }
  }

  /** No turn is dropped: the bucket totals add up to the number of turns. */
  lemma {:induction false} NothingDropped(turns: seq<Turn>, buckets: int)
    requires buckets > 0
    ensures TotalUpTo(turns, buckets, buckets) == |turns|
  {
    if turns == [] {
      EmptyTotal(buckets, buckets);
    } else {
      var init := turns[..|turns| - 1];
      NothingDropped(init, buckets);
      BucketInRange(turns[|turns| - 1].score, buckets);
      AddsOne(turns, buckets, buckets);
    }
  }

  lemma {:induction false} EmptyTotal(buckets: int, n: nat)
    ensures TotalUpTo([], buckets, n) == 0
  {
    if n > 0 {
      EmptyTotal(buckets, n - 1);
    }
  }

  lemma {:induction false} AddsOne(turns: seq<Turn>, buckets: int, n: nat)
    requires turns != [] && buckets > 0
    ensures var b := BucketFor(turns[|turns| - 1].score, buckets);
            TotalUpTo(turns, buckets, n)
            == TotalUpTo(turns[..|turns| - 1], buckets, n) + if 0 <= b < n then 1 else 0
  {
    BucketInRange(turns[|turns| - 1].score, buckets);
    if n > 0 {
      AddsOne(turns, buckets, n - 1);
    }
  }
}
