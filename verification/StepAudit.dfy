/** `_percentile` and the step verdicts of `scripts/auditor_analyze_round.py`. */
module StepAudit {
  import opened Wrappers
  import opened Sorting

  function SortedMs(values: seq<int>): seq<int> {
    Sort(values, IntLe)
  }

  lemma {:induction false} SortedMsSorted(values: seq<int>)
    ensures SortedBy(SortedMs(values), IntLe) && |SortedMs(values)| == |values|
    ensures multiset(SortedMs(values)) == multiset(values)
  {
    SortSorts(values, IntLe);
  }

  function Ceil(x: real): int {
    if x == x.Floor as real then x.Floor else x.Floor + 1
  }

  /** The value at fractional position `k` of a sorted sequence. */
  function At(sv: seq<int>, k: real): real
    requires sv != [] && 0.0 <= k <= (|sv| - 1) as real
  {
    var lo, hi := k.Floor, Ceil(k);
    if lo == hi then sv[lo] as real
    else sv[lo] as real + (sv[hi] - sv[lo]) as real * (k - lo as real)
  }

  function Position(n: nat, pct: real): real
    requires n > 0
  {
    (n - 1) as real * (pct / 100.0)
  }

  lemma {:induction false} PositionInRange(n: nat, pct: real)
    requires n > 0 && 0.0 <= pct <= 100.0
    ensures 0.0 <= Position(n, pct) <= (n - 1) as real
  {
    Percentage((n - 1) as real, pct);
  }

  lemma {:induction false} Percentage(m: real, pct: real)
    requires m >= 0.0 && 0.0 <= pct <= 100.0
    ensures 0.0 <= m * (pct / 100.0) <= m
  {
    Scaled(m, pct / 100.0);
  }

  lemma {:induction false} Scaled(m: real, f: real)
    requires m >= 0.0 && 0.0 <= f <= 1.0
    ensures 0.0 <= m * f <= m
  {
    NotNegative(m, f);
    NotNegative(m, 1.0 - f);
  }

  lemma {:induction false} NotNegative(x: real, y: real)
    requires x >= 0.0 && y >= 0.0
    ensures x * y >= 0.0
  {
  }

  /** `_percentile`, for the percentages it is called with. */
  function Percentile(values: seq<int>, pct: real): real
    requires 0.0 <= pct <= 100.0
  {
    if values == [] then 0.0
    else if |values| == 1 then values[0] as real
    else
      SortedMsSorted(values);
      PositionInRange(|values|, pct);
      At(SortedMs(values), Position(|values|, pct))
  }

  // ---- interpolation ----

  ghost predicate Ascending(sv: seq<int>) {
    SortedBy(sv, IntLe)
  }

  lemma {:induction false} Between(a: int, b: int, f: real)
    requires a <= b && 0.0 <= f <= 1.0
    ensures a as real <= a as real + (b - a) as real * f <= b as real
  {
  }

  lemma {:induction false} NonNegative(a: real, b: real)
    requires a >= 0.0 && b >= 0.0
    ensures a * b >= 0.0
  {
    if a > 0.0 && b > 0.0 {
      assert a * b > 0.0;
    }
  }

  /** The value at k lies between the samples at its two neighbours. */
  lemma {:induction false} AtBetween(sv: seq<int>, k: real)
    requires sv != [] && Ascending(sv) && 0.0 <= k <= (|sv| - 1) as real
    ensures sv[k.Floor] as real <= At(sv, k) <= sv[Ceil(k)] as real
  {
    var lo, hi := k.Floor, Ceil(k);
    assert IntLe(sv[lo], sv[hi]);
    Between(sv[lo], sv[hi], k - lo as real);
  }

  lemma {:induction false} AtMonotone(sv: seq<int>, k: real, k': real)
    requires sv != [] && Ascending(sv) && 0.0 <= k <= k' <= (|sv| - 1) as real
    ensures At(sv, k) <= At(sv, k')
  {
    AtBetween(sv, k);
    AtBetween(sv, k');
    if k.Floor == k'.Floor {
      var lo := k.Floor;
      if k != lo as real {
        var d := (sv[lo + 1] - sv[lo]) as real;
        assert IntLe(sv[lo], sv[lo + 1]);
        assert d * (k' - lo as real) - d * (k - lo as real) == d * (k' - k);
        assert d >= 0.0 && k' - k >= 0.0;
        NonNegative(d, k' - k);
      }
    } else {
      assert Ceil(k) <= k'.Floor;
      assert IntLe(sv[Ceil(k)], sv[k'.Floor]);
    }
  }

  lemma {:induction false} AtPointwise(sv: seq<int>, sv': seq<int>, k: real)
    requires sv != [] && Pointwise(sv, sv', IntLe) && 0.0 <= k <= (|sv| - 1) as real
    ensures At(sv, k) <= At(sv', k)
  {
    var lo, hi := k.Floor, Ceil(k);
    assert IntLe(sv[lo], sv'[lo]) && IntLe(sv[hi], sv'[hi]);
    if lo != hi {
      Mix(sv[lo], sv[hi], sv'[lo], sv'[hi], k - lo as real);
    }
  }

  lemma {:induction false} Mix(a: int, b: int, a': int, b': int, f: real)
    requires a <= a' && b <= b' && 0.0 <= f <= 1.0
    ensures a as real + (b - a) as real * f <= a' as real + (b' - a') as real * f
  {
    assert a as real + (b - a) as real * f == a as real * (1.0 - f) + b as real * f;
    assert a' as real + (b' - a') as real * f == a' as real * (1.0 - f) + b' as real * f;
    assert (a' - a) as real * (1.0 - f) >= 0.0 && (b' - b) as real * f >= 0.0;
  }

  // ---- the percentile ----

  /** `k` is the fractional position of the percentage among `n` samples. */
  predicate PositionAt(n: nat, pct: real, k: real) {
    100.0 * k == (n - 1) as real * pct
  }

  lemma {:induction false} PositionIs(n: nat, pct: real, k: real)
    requires n > 0 && PositionAt(n, pct, k)
    ensures Position(n, pct) == k
  {
    assert (n - 1) as real * (pct / 100.0) == (n - 1) as real * pct / 100.0;
  }

  /** Where the fractional position is whole, the percentile is that order statistic. */
  lemma {:induction false} PercentileAtSample(values: seq<int>, pct: real, m: nat)
    requires 0.0 <= pct <= 100.0 && m < |values| && PositionAt(|values|, pct, m as real)
    ensures |Sort(values, IntLe)| == |values| && Percentile(values, pct) == Sort(values, IntLe)[m] as real
  {
    SortedMsSorted(values);
    if |values| == 1 {
      SortedOne(values);
    } else {
      PositionIs(|values|, pct, m as real);
    }
  }

  lemma {:induction false} SortedOne(values: seq<int>)
    requires |values| == 1
    ensures Sort(values, IntLe) == values
  {
    assert values[1..] == [];
  }

  /** Between two neighbouring samples it runs straight from the one to the other. */
  lemma {:induction false} PercentileBetweenSamples(values: seq<int>, pct: real, k: real, m: nat)
    requires 0.0 <= pct <= 100.0 && m + 1 < |values| && PositionAt(|values|, pct, k) && m as real <= k <= (m + 1) as real
    ensures |Sort(values, IntLe)| == |values|
    ensures var sorted := Sort(values, IntLe);
            Percentile(values, pct) == sorted[m] as real + (sorted[m + 1] - sorted[m]) as real * (k - m as real)
  {
    SortedMsSorted(values);
    PositionIs(|values|, pct, k);
    AtFrom(SortedMs(values), k, m);
  }

  /** With two samples or more the percentile is read from the sorted ones. */
  lemma {:induction false} PercentileIsAt(values: seq<int>, pct: real, k: real)
    requires 0.0 <= pct <= 100.0 && |values| > 1 && PositionAt(|values|, pct, k)
    ensures |Sort(values, IntLe)| == |values| && 0.0 <= k <= (|values| - 1) as real
    ensures Percentile(values, pct) == At(Sort(values, IntLe), k)
  {
    SortedMsSorted(values);
    PositionInRange(|values|, pct);
    PositionIs(|values|, pct, k);
  }

  lemma {:induction false} AtFrom(sv: seq<int>, k: real, m: nat)
    requires m + 1 < |sv| && m as real <= k <= (m + 1) as real
    ensures At(sv, k) == sv[m] as real + (sv[m + 1] - sv[m]) as real * (k - m as real)
  {
    if k == (m + 1) as real {
      assert k - m as real == 1.0;
    } else {
      assert k.Floor == m;
    }
  }

  ghost predicate EvenlySpaced(values: seq<int>, a: int, b: nat) {
    forall i :: 0 <= i < |values| ==> values[i] == a + b * i
  }

  /** Of evenly spaced samples it is exactly the asked part of the way from the first to the last. */
  lemma {:induction false} PercentileOfEvenSamples(values: seq<int>, a: int, b: nat, pct: real, k: real)
    requires 0.0 <= pct <= 100.0 && values != [] && PositionAt(|values|, pct, k) && EvenlySpaced(values, a, b)
    ensures Percentile(values, pct) == a as real + b as real * k
  {
    EvenSorted(values, a, b);
    if |values| > 1 {
      PercentileIsAt(values, pct, k);
      AtEven(values, a, b, k);
    } else {
      EvenHere(values, a, b, 0);
      OnlySample(a, b, pct, k);
    }
  }

  lemma {:induction false} AtEven(sv: seq<int>, a: int, b: nat, k: real)
    requires sv != [] && 0.0 <= k <= (|sv| - 1) as real && EvenlySpaced(sv, a, b)
    ensures At(sv, k) == a as real + b as real * k
  {
    var m := k.Floor;
    EvenHere(sv, a, b, m);
    if k == m as real {
      AsReals(a, b, m);
    } else {
      EvenHere(sv, a, b, m + 1);
      EvenBetween(a, b, m, k, sv[m], sv[m + 1]);
    }
  }

  lemma {:induction false} EvenHere(values: seq<int>, a: int, b: nat, m: nat)
    requires m < |values| && EvenlySpaced(values, a, b)
    ensures values[m] == a + b * m
  {
  }

  lemma {:induction false} AsReals(a: int, b: nat, m: nat)
    ensures (a + b * m) as real == a as real + b as real * m as real
  {
  }

  lemma {:induction false} OnlySample(a: int, b: nat, pct: real, k: real)
    requires PositionAt(1, pct, k)
    ensures a as real + b as real * k == a as real
  {
    assert k == 0.0;
  }

  lemma {:induction false} EvenBetween(a: int, b: nat, m: nat, k: real, low: int, high: int)
    requires low == a + b * m && high == a + b * (m + 1)
    ensures low as real + (high - low) as real * (k - m as real) == a as real + b as real * k
  {
    assert high - low == b;
    assert (b * m) as real == b as real * m as real;
  }

  lemma {:induction false} EvenSorted(values: seq<int>, a: int, b: nat)
    requires EvenlySpaced(values, a, b)
    ensures Sort(values, IntLe) == values
  {
    forall i, j | 0 <= i <= j < |values| ensures IntLe(values[i], values[j]) {
      Steps(b, i, j);
    }
    SortedMsSorted(values);
    SortedUnique(Sort(values, IntLe), values, IntLe);
  }

  lemma {:induction false} Steps(b: nat, i: nat, j: nat)
    requires i <= j
    ensures b * i <= b * j
  {
    assert b * j - b * i == b * (j - i);
  }

  /** Between the smallest and the largest sample. */
  lemma {:induction false} PercentileInRange(values: seq<int>, pct: real)
    requires values != [] && 0.0 <= pct <= 100.0
    ensures (exists v :: v in values && v as real <= Percentile(values, pct))
            && (exists v :: v in values && Percentile(values, pct) <= v as real)
  {
    var sv := SortedMs(values);
    SortedMsSorted(values);
    if |values| == 1 {
      assert values[0] in values;
    } else {
      PositionInRange(|values|, pct);
      var k := Position(|values|, pct);
      AtBetween(sv, k);
      var lo, hi := sv[k.Floor], sv[Ceil(k)];
      assert lo in multiset(sv) && hi in multiset(sv);
      assert lo in values && hi in values;
    }
  }

  lemma {:induction false} PercentileMonotone(values: seq<int>, pct: real, pct': real)
    requires 0.0 <= pct <= pct' <= 100.0
    ensures Percentile(values, pct) <= Percentile(values, pct')
  {
    if |values| > 1 {
      SortedMsSorted(values);
      PositionInRange(|values|, pct);
      PositionInRange(|values|, pct');
      var n := (|values| - 1) as real;
      assert n * (pct' / 100.0) - n * (pct / 100.0) == n * ((pct' - pct) / 100.0);
      assert n * ((pct' - pct) / 100.0) >= 0.0;
      AtMonotone(SortedMs(values), Position(|values|, pct), Position(|values|, pct'));
    }
  }

  /** Raising samples never lowers the percentile. */
  lemma {:induction false} PercentileOfSlower(values: seq<int>, slower: seq<int>, pct: real)
    requires Pointwise(values, slower, IntLe) && 0.0 <= pct <= 100.0
    ensures Percentile(values, pct) <= Percentile(slower, pct)
  {
    if |values| == 1 {
      assert IntLe(values[0], slower[0]);
    } else if |values| > 1 {
      SortPointwise(values, slower, IntLe);
      SortedMsSorted(values);
      SortedMsSorted(slower);
      PositionInRange(|values|, pct);
      AtPointwise(SortedMs(values), SortedMs(slower), Position(|values|, pct));
    }
  }

  /** The order in which samples arrive does not matter. */
  lemma {:induction false} PercentileOfPermutation(values: seq<int>, other: seq<int>, pct: real)
    requires multiset(values) == multiset(other) && 0.0 <= pct <= 100.0
    ensures Percentile(values, pct) == Percentile(other, pct)
  {
    SortedMsSorted(values);
    SortedMsSorted(other);
    SortedUnique(SortedMs(values), SortedMs(other), IntLe);
    assert |multiset(values)| == |values| && |multiset(other)| == |other|;
    if |values| == 1 {
      assert values[0] in multiset(other);
    }
  }

  // ---- verdicts ----

  datatype Verdict = NotInstrumented | Broken | Suboptimal | Sufficient | Perfect

  datatype CanonicalStep = CanonicalStep(code: string, title: string, dbName: Option<string>)

  /** One recorded firing: its duration and whether its status counts as an error. */
  datatype Firing = Firing(ms: int, failed: bool)

  datatype StepRow = StepRow(code: string, title: string, dbName: Option<string>, fired: nat, errors: nat, p50: real, p95: real, verdict: Verdict)

  const P50 := 50.0
  const P95 := 95.0

  /** Any rounding that keeps order, such as Python's `round(x, 1)`. */
  type Rounding = real -> real

  ghost predicate KeepsOrder(rounding: Rounding) {
    forall x, y :: x <= y ==> rounding(x) <= rounding(y)
  }

  function Durations(bucket: seq<Firing>): seq<int> {
    seq(|bucket|, i requires 0 <= i < |bucket| => bucket[i].ms)
  }

  function Errors(bucket: seq<Firing>): nat {
    if bucket == [] then 0
    else Errors(bucket[..|bucket| - 1]) + if bucket[|bucket| - 1].failed then 1 else 0
  }

  function VerdictOf(errors: nat, p95: real, budget: Option<int>): Verdict {
    if errors > 0 then Broken
    else if budget.Some? && p95 > (budget.value * 2) as real then Suboptimal
    else if budget.Some? && p95 > budget.value as real then Sufficient
    else Perfect
  }

  function Rank(v: Verdict): nat {
    match v
    case NotInstrumented => 0
    case Broken => 0
    case Suboptimal => 1
    case Sufficient => 2
    case Perfect => 3
  }

  function RowOf(step: CanonicalStep, data: map<string, seq<Firing>>, budgets: map<string, Option<int>>,
                 turns: int, rounding: Rounding): StepRow
  {
    if step.dbName.None? then StepRow(step.code, step.title, step.dbName, 0, 0, 0.0, 0.0, NotInstrumented)
    else
      var name := step.dbName.value;
      var bucket := if name in data then data[name] else [];
      if bucket == [] then StepRow(step.code, step.title, step.dbName, 0, 0, 0.0, 0.0, if turns > 0 then Broken else NotInstrumented)
      else
        var p95 := rounding(Percentile(Durations(bucket), P95));
        StepRow(step.code, step.title, step.dbName, |bucket|, Errors(bucket), rounding(Percentile(Durations(bucket), P50)), p95,
                VerdictOf(Errors(bucket), p95, if name in budgets then budgets[name] else None))
  }

  function BucketOf(step: CanonicalStep, data: map<string, seq<Firing>>): seq<Firing> {
    if step.dbName.Some? && step.dbName.value in data then data[step.dbName.value] else []
  }

  function BudgetOf(step: CanonicalStep, budgets: map<string, Option<int>>): Option<int> {
    if step.dbName.Some? && step.dbName.value in budgets then budgets[step.dbName.value] else None
  }

  /** What a row says of its step: counts, and which verdict means what. */
  ghost predicate Audits(row: StepRow, step: CanonicalStep, data: map<string, seq<Firing>>,
                         budgets: map<string, Option<int>>, turns: int, rounding: Rounding)
  {
    var bucket, budget := BucketOf(step, data), BudgetOf(step, budgets);
    && row.code == step.code && row.title == step.title && row.dbName == step.dbName
    && row.fired == |bucket| && row.errors == Errors(bucket) <= row.fired
    && row.p50 == (if bucket == [] then 0.0 else rounding(Percentile(Durations(bucket), 50.0)))
    && row.p95 == (if bucket == [] then 0.0 else rounding(Percentile(Durations(bucket), 95.0)))
    && (row.verdict == NotInstrumented <==> bucket == [] && (step.dbName.None? || turns <= 0))
    && (row.verdict == Broken <==> row.errors > 0 || (bucket == [] && step.dbName.Some? && turns > 0))
    && (row.verdict == Suboptimal <==>
          bucket != [] && row.errors == 0 && budget.Some? && row.p95 > 2.0 * budget.value as real)
    && (row.verdict == Sufficient <==>
          bucket != [] && row.errors == 0 && budget.Some?
          && budget.value as real < row.p95 <= 2.0 * budget.value as real)
  }

  lemma {:induction false} RowAudits(step: CanonicalStep, data: map<string, seq<Firing>>, budgets: map<string, Option<int>>,
                                     turns: int, rounding: Rounding)
    ensures Audits(RowOf(step, data, budgets, turns, rounding), step, data, budgets, turns, rounding)
    ensures KeepsOrder(rounding) ==>
              RowOf(step, data, budgets, turns, rounding).p50 <= RowOf(step, data, budgets, turns, rounding).p95
  {
    var bucket := BucketOf(step, data);
    ErrorsBounded(bucket);
    if bucket != [] {
      PercentileMonotone(Durations(bucket), P50, P95);
    }
  }

  lemma {:induction false} ErrorsBounded(bucket: seq<Firing>)
    ensures Errors(bucket) <= |bucket|
  {
    if bucket != [] {
      ErrorsBounded(bucket[..|bucket| - 1]);
    }
  }

  /** `_build_step_matrix`: one row per canonical step, in order. */
  method BuildStepMatrix(steps: seq<CanonicalStep>, data: map<string, seq<Firing>>,
                         budgets: map<string, Option<int>>, turns: int, rounding: Rounding)
    returns (rows: seq<StepRow>)
    ensures |rows| == |steps|
    ensures forall i :: 0 <= i < |rows| ==> rows[i] == RowOf(steps[i], data, budgets, turns, rounding)
    ensures forall i :: 0 <= i < |rows| ==> Audits(rows[i], steps[i], data, budgets, turns, rounding)
    ensures KeepsOrder(rounding) ==> forall i :: 0 <= i < |rows| ==> rows[i].p50 <= rows[i].p95
  {
    rows := [];
    for i := 0 to |steps|
      invariant |rows| == i
      invariant forall j :: 0 <= j < i ==> rows[j] == RowOf(steps[j], data, budgets, turns, rounding)
    {
      var row := StepRow(steps[i].code, steps[i].title, steps[i].dbName, 0, 0, 0.0, 0.0, NotInstrumented);
      if steps[i].dbName.None? {
        rows := rows + [row];
        continue;
      }
      var name := steps[i].dbName.value;
      var bucket := if name in data then data[name] else [];
      if bucket == [] {
        row := row.(verdict := if turns > 0 then Broken else NotInstrumented);
        rows := rows + [row];
        continue;
      }
      var errors := CountErrors(bucket);
      row := row.(fired := |bucket|, errors := errors);
      row := row.(p50 := rounding(Percentile(Durations(bucket), P50)));
      row := row.(p95 := rounding(Percentile(Durations(bucket), P95)));
      var budget := if name in budgets then budgets[name] else None;
      if errors > 0 {
        row := row.(verdict := Broken);
      } else if budget.Some? && row.p95 > (budget.value * 2) as real {
        row := row.(verdict := Suboptimal);
      } else if budget.Some? && row.p95 > budget.value as real {
        row := row.(verdict := Sufficient);
      } else {
        row := row.(verdict := Perfect);
      }
      rows := rows + [row];
    }
    forall i | 0 <= i < |rows|
      ensures Audits(rows[i], steps[i], data, budgets, turns, rounding) && (KeepsOrder(rounding) ==> rows[i].p50 <= rows[i].p95)
    {
      RowAudits(steps[i], data, budgets, turns, rounding);
    }
  }

  method CountErrors(bucket: seq<Firing>) returns (n: nat)
    ensures n == Errors(bucket)
  {
    n := 0;
    for i := 0 to |bucket|
      invariant n == Errors(bucket[..i])
    {
      assert bucket[..i + 1][..i] == bucket[..i];
      n := n + if bucket[i].failed then 1 else 0;
    }
    assert bucket[..|bucket|] == bucket;
  }

  /** The same firings, none of them faster. */
  ghost predicate Slower(bucket: seq<Firing>, slower: seq<Firing>) {
    |bucket| == |slower|
    && forall i :: 0 <= i < |bucket| ==> bucket[i].ms <= slower[i].ms && bucket[i].failed == slower[i].failed
  }

  lemma {:induction false} SameErrors(bucket: seq<Firing>, slower: seq<Firing>)
    requires Slower(bucket, slower)
    ensures Errors(bucket) == Errors(slower)
  {
    if bucket != [] {
      SameErrors(bucket[..|bucket| - 1], slower[..|slower| - 1]);
    }
  }

  /** Slower samples never improve a step's verdict, whatever its budget and whatever the rounding. */
  lemma {:induction false} SlowerNeverBetter(step: CanonicalStep, data: map<string, seq<Firing>>, name: string,
                          slower: seq<Firing>, budgets: map<string, Option<int>>, turns: int, rounding: Rounding)
    requires KeepsOrder(rounding) && name in data && Slower(data[name], slower)
    ensures Rank(RowOf(step, data[name := slower], budgets, turns, rounding).verdict)
            <= Rank(RowOf(step, data, budgets, turns, rounding).verdict)
  {
    if step.dbName == Some(name) && data[name] != [] {
      SameErrors(data[name], slower);
      assert Pointwise(Durations(data[name]), Durations(slower), IntLe);
      PercentileOfSlower(Durations(data[name]), Durations(slower), P95);
    }
  }
}
