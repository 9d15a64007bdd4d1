/** The per-step latency table of `scripts/analyze_step_latency.py`. */
module StepLatency {
  import opened Wrappers
  import opened Sorting

  /** `_percentile` on a sorted list. */
  function NearestRank(sorted: seq<int>, pct: real): int {
    if sorted == [] then 0
    else if pct <= 0.0 then sorted[0]
    else if pct >= 1.0 then sorted[|sorted| - 1]
    else sorted[RankIndex(|sorted|, pct)]
  }

  /** The clamp to n - 1 that follows in the code never applies. */
  function RankIndex(n: nat, pct: real): (idx: nat)
    requires n > 0 && 0.0 < pct < 1.0
    ensures idx < n
  {
    (pct * n as real).Floor
  }

  /** The documented nearest-rank position is ceil(pct * n) - 1; the code takes the next one up
      exactly when pct * n is a whole number. */
  lemma {:induction false} AgainstDocumentedRank(n: nat, pct: real)
    requires n > 0 && 0.0 < pct < 1.0
    ensures var exact := pct * n as real;
            var documented := (if exact == exact.Floor as real then exact.Floor else exact.Floor + 1) - 1;
            && (RankIndex(n, pct) == documented <==> exact != exact.Floor as real)
            && (exact == exact.Floor as real ==> RankIndex(n, pct) == documented + 1)
  {
  }

  /** The median of two samples is documented as the lower one and reported as the upper. */
  lemma {:induction false} MedianOfTwo(a: int, b: int)
    ensures RankIndex(2, 0.5) == 1 && NearestRank([a, b], 0.5) == b
  {
    assert 0.5 * 2 as real == 1.0;
  }

  function IndexOf(n: nat, pct: real): (idx: nat)
    requires n > 0
    ensures idx < n
  {
    if pct <= 0.0 then 0 else if pct >= 1.0 then n - 1 else RankIndex(n, pct)
  }

  lemma {:induction false} IndexMonotone(n: nat, pct: real, pct': real)
    requires n > 0 && pct <= pct'
    ensures IndexOf(n, pct) <= IndexOf(n, pct')
  {
    if 0.0 < pct && pct' < 1.0 {
      var a, b := pct * n as real, pct' * n as real;
      assert b - a == (pct' - pct) * n as real;
      assert a <= b;
    }
  }

  lemma {:induction false} SampleAt(values: seq<int>, idx: nat)
    requires idx < |values|
    ensures |Sort(values, IntLe)| == |values|
    ensures Sort(values, IntLe)[idx] in values
    ensures AtMost(values, Sort(values, IntLe)[idx], IntLe) > idx
  {
    SortSorts(values, IntLe);
    var sv := Sort(values, IntLe);
    assert sv[idx] in multiset(sv);
    RankInSorted(sv, idx, sv[idx], IntLe);
    AtMostOfSort(values, sv[idx], IntLe);
  }

  /** The reported value is a sample that at least the asked fraction of samples do not exceed. */
  lemma {:induction false} CoversFraction(values: seq<int>, pct: real, p: int)
    requires values != [] && pct <= 1.0 && p == NearestRank(Sort(values, IntLe), pct)
    ensures p in values && AtMost(values, p, IntLe) as real >= pct * |values| as real
  {
    var idx := IndexOf(|values|, pct);
    SampleAt(values, idx);
  }

  lemma {:induction false} NearestRankMonotone(sorted: seq<int>, pct: real, pct': real)
    requires SortedBy(sorted, IntLe) && pct <= pct'
    ensures NearestRank(sorted, pct) <= NearestRank(sorted, pct')
  {
    if sorted != [] {
      IndexMonotone(|sorted|, pct, pct');
      assert IntLe(sorted[IndexOf(|sorted|, pct)], sorted[IndexOf(|sorted|, pct')]);
    }
  }

  /** No samples are reported as 0, a percentage of 0 or less as the least sample, of 1 or more as
      the greatest. */
  lemma {:induction false} NearestRankEdges(sorted: seq<int>, pct: real)
    ensures sorted == [] ==> NearestRank(sorted, pct) == 0
    ensures sorted != [] && SortedBy(sorted, IntLe) && pct <= 0.0 ==>
              NearestRank(sorted, pct) in sorted && forall v :: v in sorted ==> NearestRank(sorted, pct) <= v
    ensures sorted != [] && SortedBy(sorted, IntLe) && pct >= 1.0 ==>
              NearestRank(sorted, pct) in sorted && forall v :: v in sorted ==> v <= NearestRank(sorted, pct)
  {
    if sorted != [] && SortedBy(sorted, IntLe) {
      forall v | v in sorted ensures sorted[0] <= v <= sorted[|sorted| - 1] {
        var i :| 0 <= i < |sorted| && sorted[i] == v;
        assert IntLe(sorted[0], sorted[i]) && IntLe(sorted[i], sorted[|sorted| - 1]);
      }
    }
  }

  // ---- aggregation ----

  datatype StepRun = StepRun(step: string, ms: Option<int>, status: string, flag: Option<string>)

  datatype Stats = Stats(count: nat, errors: nat, errorRatePct: real, flag: Option<string>, p50: int, p95: int, p99: int)

  function OfStep(rows: seq<StepRun>, step: string): seq<StepRun> {
    if rows == [] then []
    else OfStep(rows[..|rows| - 1], step)
         + if rows[|rows| - 1].step == step then [rows[|rows| - 1]] else []
  }

  function Ms(r: StepRun): int {
    if r.ms.None? then 0 else r.ms.value
  }

  function Times(rows: seq<StepRun>): seq<int> {
    seq(|rows|, i requires 0 <= i < |rows| => Ms(rows[i]))
  }

  predicate IsError(r: StepRun) {
    r.status != "success" && r.status != "ok"
  }

  function ErrorsIn(rows: seq<StepRun>): nat {
    if rows == [] then 0 else ErrorsIn(rows[..|rows| - 1]) + if IsError(rows[|rows| - 1]) then 1 else 0
  }

  predicate HasFlag(r: StepRun) {
    r.flag.Some? && r.flag.value != ""
  }

  /** The first flag that is set. */
  function FlagOf(rows: seq<StepRun>): Option<string> {
    if rows == [] then None
    else
      var before := FlagOf(rows[..|rows| - 1]);
      if before.Some? then before else if HasFlag(rows[|rows| - 1]) then rows[|rows| - 1].flag else None
  }

  function Percent(part: nat, whole: nat): real {
    if whole == 0 then 0.0 else part as real / whole as real * 100.0
  }

  ghost predicate Describes(s: Stats, rows: seq<StepRun>) {
    var sv := Sort(Times(rows), IntLe);
    && s.count == |rows| && s.errors == ErrorsIn(rows) && s.flag == FlagOf(rows)
    && s.errorRatePct == Percent(s.errors, s.count)
    && s.p50 == NearestRank(sv, 0.50) && s.p95 == NearestRank(sv, 0.95) && s.p99 == NearestRank(sv, 0.99)
  }

  /** A row without a duration counts as one of 0 milliseconds. */
  lemma {:induction false} TimesAre(rows: seq<StepRun>)
    ensures |Times(rows)| == |rows|
    ensures forall i :: 0 <= i < |rows| ==> rows[i].ms == (if rows[i].ms.None? then None else Some(Times(rows)[i]))
                                            && (rows[i].ms.None? ==> Times(rows)[i] == 0)
  {
  }

  /** The rows whose status is neither "success" nor "ok". */
  ghost function Failing(rows: seq<StepRun>): set<nat> {
    set i: nat | i < |rows| && rows[i].status !in {"success", "ok"}
  }

  lemma {:induction false} ErrorsCount(rows: seq<StepRun>)
    ensures ErrorsIn(rows) == |Failing(rows)|
  {
    if rows == [] {
      assert Failing(rows) == {};
    } else {
      var n := |rows| - 1;
      ErrorsCount(rows[..n]);
      assert Failing(rows) == Failing(rows[..n]) + if rows[n].status !in {"success", "ok"} then {n} else {};
    }
  }

  /** The flag is the first that is given and not empty. */
  lemma {:induction false} FlagIsFirst(rows: seq<StepRun>)
    ensures FlagOf(rows).None? ==> forall i :: 0 <= i < |rows| ==> rows[i].flag in {None, Some("")}
    ensures FlagOf(rows).Some? ==>
              exists i :: 0 <= i < |rows| && rows[i].flag == FlagOf(rows) != Some("")
                          && forall j :: 0 <= j < i ==> rows[j].flag in {None, Some("")}
  {
    if rows != [] {
      var n := |rows| - 1;
      FlagIsFirst(rows[..n]);
      if FlagOf(rows[..n]).Some? {
        var i :| 0 <= i < n && rows[..n][i].flag == FlagOf(rows[..n]) != Some("")
                 && forall j :: 0 <= j < i ==> rows[..n][j].flag in {None, Some("")};
        assert rows[i].flag == FlagOf(rows) && forall j :: 0 <= j < i ==> rows[j] == rows[..n][j];
      } else {
        assert forall j :: 0 <= j < n ==> rows[j] == rows[..n][j];
        assert FlagOf(rows).Some? ==> rows[n].flag == FlagOf(rows);
      }
    }
  }

  function CountOf(m: map<string, nat>, step: string): nat {
    if step in m then m[step] else 0
  }

  function FlagIn(m: map<string, string>, step: string): Option<string> {
    if step in m then Some(m[step]) else None
  }

  ghost predicate TimesOk(durations: map<string, seq<int>>, rows: seq<StepRun>) {
    && durations.Keys == (set r | r in rows :: r.step)
    && forall s :: s in durations ==> durations[s] == Times(OfStep(rows, s))
  }

  ghost predicate ErrorsOk(errors: map<string, nat>, rows: seq<StepRun>) {
    forall s :: CountOf(errors, s) == ErrorsIn(OfStep(rows, s))
  }

  ghost predicate FlagsOk(flags: map<string, string>, rows: seq<StepRun>) {
    forall s :: FlagIn(flags, s) == FlagOf(OfStep(rows, s))
  }

  method AddTime(durations: map<string, seq<int>>, ghost rows: seq<StepRun>, ghost i: nat, r: StepRun)
    returns (durations': map<string, seq<int>>)
    requires i < |rows| && rows[i] == r && TimesOk(durations, rows[..i])
    ensures TimesOk(durations', rows[..i + 1])
  {
    var before := if r.step in durations then durations[r.step] else [];
    durations' := durations[r.step := before + [Ms(r)]];
    TimesBefore(durations, rows[..i], r.step);
    TimesNext(durations, rows, i, durations');
  }

  lemma {:induction false} TimesBefore(durations: map<string, seq<int>>, rows: seq<StepRun>, step: string)
    requires TimesOk(durations, rows)
    ensures Times(OfStep(rows, step)) == if step in durations then durations[step] else []
  {
    if step !in durations {
      assert forall r :: r in rows ==> r.step in durations;
      NotSeen(rows, step);
    }
  }

  lemma {:induction false} TimesNext(durations: map<string, seq<int>>, rows: seq<StepRun>, i: nat, durations': map<string, seq<int>>)
    requires i < |rows| && TimesOk(durations, rows[..i])
    requires durations' == durations[rows[i].step := Times(OfStep(rows[..i], rows[i].step)) + [Ms(rows[i])]]
    ensures TimesOk(durations', rows[..i + 1])
  {
    StepsNext(rows, i);
    assert durations'.Keys == durations.Keys + {rows[i].step};
    forall s | s in durations' ensures durations'[s] == Times(OfStep(rows[..i + 1], s)) {
      TimesOfOne(rows, i, s);
    }
  }

  lemma {:induction false} StepsNext(rows: seq<StepRun>, i: nat)
    requires i < |rows|
    ensures (set r | r in rows[..i + 1] :: r.step) == (set r | r in rows[..i] :: r.step) + {rows[i].step}
  {
    OneMoreRow(rows, i);
  }

  lemma {:induction false} TimesOfOne(rows: seq<StepRun>, i: nat, s: string)
    requires i < |rows|
    ensures Times(OfStep(rows[..i + 1], s)) == Times(OfStep(rows[..i], s)) + if s == rows[i].step then [Ms(rows[i])] else []
  {
    OneMoreRow(rows, i);
  }

  method AddError(errors: map<string, nat>, ghost rows: seq<StepRun>, ghost i: nat, r: StepRun)
    returns (errors': map<string, nat>)
    requires i < |rows| && rows[i] == r && ErrorsOk(errors, rows[..i])
    ensures ErrorsOk(errors', rows[..i + 1])
  {
    OneMoreRow(rows, i);
    assert CountOf(errors, r.step) == ErrorsIn(OfStep(rows[..i], r.step));
    errors' := if IsError(r) then errors[r.step := CountOf(errors, r.step) + 1] else errors;
    forall s ensures CountOf(errors', s) == ErrorsIn(OfStep(rows[..i + 1], s)) {
      assert CountOf(errors, s) == ErrorsIn(OfStep(rows[..i], s));
    }
  }

  method AddFlag(flags: map<string, string>, ghost rows: seq<StepRun>, ghost i: nat, r: StepRun)
    returns (flags': map<string, string>)
    requires i < |rows| && rows[i] == r && FlagsOk(flags, rows[..i])
    ensures FlagsOk(flags', rows[..i + 1])
  {
    OneMoreRow(rows, i);
    assert FlagIn(flags, r.step) == FlagOf(OfStep(rows[..i], r.step));
    flags' := if HasFlag(r) && r.step !in flags then flags[r.step := r.flag.value] else flags;
    forall s ensures FlagIn(flags', s) == FlagOf(OfStep(rows[..i + 1], s)) {
      assert FlagIn(flags, s) == FlagOf(OfStep(rows[..i], s));
    }
  }

  /** `aggregate`: each step seen gets the statistics of exactly its own rows. */
  method Aggregate(rows: seq<StepRun>) returns (out: map<string, Stats>)
    ensures out.Keys == (set r | r in rows :: r.step)
    ensures forall step :: step in out ==> Describes(out[step], OfStep(rows, step))
  {
    var durations: map<string, seq<int>> := map[];
    var errors: map<string, nat> := map[];
    var flags: map<string, string> := map[];
    for i := 0 to |rows|
      invariant TimesOk(durations, rows[..i]) && ErrorsOk(errors, rows[..i]) && FlagsOk(flags, rows[..i])
    {
      durations := AddTime(durations, rows, i, rows[i]);
      errors := AddError(errors, rows, i, rows[i]);
      flags := AddFlag(flags, rows, i, rows[i]);
    }
    assert rows[..|rows|] == rows;
    out := map step | step in durations ::
      var sv := Sort(durations[step], IntLe);
      Stats(|durations[step]|, CountOf(errors, step), Percent(CountOf(errors, step), |durations[step]|), FlagIn(flags, step),
            NearestRank(sv, 0.50), NearestRank(sv, 0.95), NearestRank(sv, 0.99));
  }

  lemma {:induction false} OneMoreRow(rows: seq<StepRun>, i: nat)
    requires i < |rows|
    ensures var r, before := rows[i], OfStep(rows[..i], rows[i].step);
            && OfStep(rows[..i + 1], r.step) == before + [r]
            && Times(before + [r]) == Times(before) + [Ms(r)]
            && ErrorsIn(before + [r]) == ErrorsIn(before) + (if IsError(r) then 1 else 0)
            && FlagOf(before + [r]) == (if FlagOf(before).Some? then FlagOf(before)
                                        else if HasFlag(r) then r.flag else None)
    ensures forall s :: s != rows[i].step ==> OfStep(rows[..i + 1], s) == OfStep(rows[..i], s)
    ensures (set r | r in rows[..i + 1] :: r.step) == (set r | r in rows[..i] :: r.step) + {rows[i].step}
  {
    assert rows[..i + 1] == rows[..i] + [rows[i]] && rows[..i + 1][..i] == rows[..i];
    var r, before := rows[i], OfStep(rows[..i], rows[i].step);
    assert (before + [r])[..|before|] == before;
  }

  lemma {:induction false} NotSeen(rows: seq<StepRun>, step: string)
    requires forall r :: r in rows ==> r.step != step
    ensures OfStep(rows, step) == []
  {
    if rows != [] {
      NotSeen(rows[..|rows| - 1], step);
    }
  }

  /** p50 <= p95 <= p99, and no more errors than rows, for every step of the table. */
  lemma {:induction false} StatsConsistent(s: Stats, rows: seq<StepRun>)
    requires Describes(s, rows)
    ensures s.p50 <= s.p95 <= s.p99 && s.errors <= s.count
    ensures rows != [] ==> 0.0 <= s.errorRatePct <= 100.0 && (s.errorRatePct == 0.0 <==> s.errors == 0)
  {
    SortSorts(Times(rows), IntLe);
    NearestRankMonotone(Sort(Times(rows), IntLe), 0.50, 0.95);
    NearestRankMonotone(Sort(Times(rows), IntLe), 0.95, 0.99);
    ErrorsBounded(rows);
    if rows != [] {
      RateInRange(s.errors, s.count);
    }
  }

  lemma {:induction false} RateInRange(part: nat, whole: nat)
    requires part <= whole && whole > 0
    ensures Percent(0, 0) == 0.0 <= Percent(part, whole) <= 100.0
    ensures Percent(part, whole) == 100.0 <==> part == whole
    ensures Percent(part, whole) == 0.0 <==> part == 0
  {
    Share(part as real, whole as real);
  }

  lemma {:induction false} Share(a: real, b: real)
    requires b > 0.0
    ensures (a / b >= 0.0 <==> a >= 0.0) && (a / b == 0.0 <==> a == 0.0)
    ensures (a / b <= 1.0 <==> a <= b) && (a / b == 1.0 <==> a == b)
  {
    var q := a / b;
    assert q * b == a;
    if q < 0.0 {
      assert (0.0 - q) * b > 0.0;
    } else if q > 0.0 {
      assert q * b > 0.0;
    }
    if q < 1.0 {
      assert (1.0 - q) * b > 0.0;
    } else if q > 1.0 {
      assert (q - 1.0) * b > 0.0;
    }
  }

  lemma {:induction false} ErrorsBounded(rows: seq<StepRun>)
    ensures ErrorsIn(rows) <= |rows|
  {
    if rows != [] {
      ErrorsBounded(rows[..|rows| - 1]);
    }
  }
}
