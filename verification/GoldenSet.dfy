/** `_scale_distribution` of `scripts/generate_golden_set.py`. */
module GoldenSet {

  /** Questions per category by default, in the order of the table; the last is "edge". */
  const DEFAULTS: seq<nat> := [10, 10, 5, 5, 5, 3, 5, 5, 3, 3]
  const DEFAULT_TOTAL := 54

  /** Python's `round(n / d)`: to the nearest, and to the even one of two. */
  function Round(n: int, d: int): int
    requires d > 0
  {
    var q := (2 * n + d) / (2 * d);
    if (2 * n + d) % (2 * d) == 0 && q % 2 != 0 then q - 1 else q
  }

  /** What rounding means. */
  ghost predicate IsRounding(n: int, d: int, r: int) {
    && -d <= 2 * (d * r - n) <= d
    && (2 * (d * r - n) == d || 2 * (d * r - n) == -d ==> r % 2 == 0)
  }

  lemma {:induction false} RoundRounds(n: int, d: int)
    requires d > 0
    ensures IsRounding(n, d, Round(n, d))
  {
    var m := 2 * n + d;
    var q, rest := m / (2 * d), m % (2 * d);
    assert m == 2 * d * q + rest;
    assert 2 * d * q == 2 * (d * q);
    assert d * (q - 1) == d * q - d;
  }

  function Max(a: int, b: int): int {
    if a < b then b else a
  }

  /** The scaled share of a category. */
  function Share(questions: nat, total: int): int {
    Max(1, Round(questions * total, DEFAULT_TOTAL))
  }

  /** The first `n` shares together. */
  function Assigned(total: int, n: nat): int
    requires n <= |DEFAULTS|
  {
    if n == 0 then 0 else Assigned(total, n - 1) + Share(DEFAULTS[n - 1], total)
  }

  function Sum(s: seq<int>): int {
    if s == [] then 0 else Sum(s[..|s| - 1]) + s[|s| - 1]
  }

  /** Every share but the last is the rounded one, and the last takes what is left, if anything. */
  ghost predicate IsScaled(total: int, scaled: seq<int>) {
    && |scaled| == |DEFAULTS|
    && (total == DEFAULT_TOTAL ==> scaled == DEFAULTS)
    && (total != DEFAULT_TOTAL ==>
          (forall i :: 0 <= i < |DEFAULTS| - 1 ==> scaled[i] == Share(DEFAULTS[i], total))
          && scaled[|DEFAULTS| - 1] == Max(1, total - Sum(scaled[..|DEFAULTS| - 1])))
  }

  method ScaleDistribution(total: int) returns (scaled: seq<int>)
    ensures IsScaled(total, scaled)
  {
    if total == DEFAULT_TOTAL {
      return DEFAULTS;
    }
    scaled := [];
    var spent := 0;
    for i := 0 to |DEFAULTS| - 1
      invariant |scaled| == i && spent == Sum(scaled)
      invariant forall j :: 0 <= j < i ==> scaled[j] == Share(DEFAULTS[j], total)
    {
      var n := Share(DEFAULTS[i], total);
      scaled := scaled + [n];
      assert scaled[..i] + [n] == scaled && scaled[..|scaled| - 1] == scaled[..i];
      spent := spent + n;
    }
    ghost var first := scaled;
    scaled := scaled + [Max(1, total - spent)];
    assert scaled[..|DEFAULTS| - 1] == first;
  }

  lemma {:induction false} AssignedIsSum(total: int, scaled: seq<int>, n: nat)
    requires n <= |scaled| && n < |DEFAULTS|
    requires forall j :: 0 <= j < n ==> scaled[j] == Share(DEFAULTS[j], total)
    ensures Sum(scaled[..n]) == Assigned(total, n)
  {
    if n > 0 {
      AssignedIsSum(total, scaled, n - 1);
      assert scaled[..n][..n - 1] == scaled[..n - 1];
    }
  }

  /** The nine rounded shares: two tens, five fives and two threes. */
  lemma {:induction false} AssignedByShare(total: int)
    ensures Assigned(total, 9) == 2 * Share(10, total) + 5 * Share(5, total) + 2 * Share(3, total)
  {
    var a, b, c := Share(10, total), Share(5, total), Share(3, total);
    OneMore(total, 1, a);
    OneMore(total, 2, a);
    OneMore(total, 3, b);
    OneMore(total, 4, b);
    OneMore(total, 5, b);
    OneMore(total, 6, c);
    OneMore(total, 7, b);
    OneMore(total, 8, b);
    OneMore(total, 9, c);
  }

  lemma {:induction false} OneMore(total: int, n: nat, share: int)
    requires 0 < n <= |DEFAULTS| && share == Share(DEFAULTS[n - 1], total)
    ensures Assigned(total, n) == Assigned(total, n - 1) + share
  {
  }

  lemma {:induction false} SumIs(total: int, scaled: seq<int>)
    requires IsScaled(total, scaled)
    ensures Sum(scaled) == Max(total, Assigned(total, 9) + 1)
  {
    AssignedByShare(total);
    if total == DEFAULT_TOTAL {
      DefaultSum();
      SharesOfDefault();
    } else {
      AssignedIsSum(total, scaled, 9);
    }
  }

  lemma {:induction false} DefaultSum()
    ensures Sum(DEFAULTS) == DEFAULT_TOTAL
  {
    var d: seq<int> := DEFAULTS;
    assert d[..9][..8] == d[..8] && d[..8][..7] == d[..7] && d[..7][..6] == d[..6] && d[..6][..5] == d[..5];
    assert d[..5][..4] == d[..4] && d[..4][..3] == d[..3] && d[..3][..2] == d[..2] && d[..2][..1] == d[..1] && d[..1][..0] == [];
    assert Sum(d[..1]) == 10;
    assert Sum(d[..3]) == 25;
    assert Sum(d[..5]) == 35;
    assert Sum(d[..7]) == 43;
    assert Sum(d[..9]) == 51;
  }

  lemma {:induction false} SharesOfDefault()
    ensures 2 * Share(10, DEFAULT_TOTAL) + 5 * Share(5, DEFAULT_TOTAL) + 2 * Share(3, DEFAULT_TOTAL) == 51
  {
  }

  /** The totals whose rounded shares leave nothing for the last category. */
  predicate Overshoots(total: int) {
    total <= 11 || 17 <= total <= 20 || 28 <= total <= 31 || total == 38 || total == 49
  }

  lemma {:induction false} NearestOf54(n: int)
    ensures IsRounding(n, DEFAULT_TOTAL, Round(n, DEFAULT_TOTAL))
  {
    RoundRounds(n, DEFAULT_TOTAL);
  }

  ghost predicate Rounded(t: int, a: int, b: int, c: int) {
    IsRounding(10 * t, 54, a) && IsRounding(5 * t, 54, b) && IsRounding(3 * t, 54, c)
  }

  function Nine(a: int, b: int, c: int): int {
    2 * Max(1, a) + 5 * Max(1, b) + 2 * Max(1, c)
  }

  // From 99 on the nine roundings, half a unit each, fit into the last category's share; below,
  // by the value of the three roundings, range by range.

  lemma {:induction false} Fits12(t: int, a: int, b: int, c: int)
    requires 12 <= t < 20 && Rounded(t, a, b, c)
    ensures Nine(a, b, c) < t <==> !Overshoots(t)
    ensures Nine(a, b, c) <= t + 1
  {
  }

  lemma {:induction false} Fits20(t: int, a: int, b: int, c: int)
    requires 20 <= t < 30 && Rounded(t, a, b, c)
    ensures Nine(a, b, c) < t <==> !Overshoots(t)
    ensures Nine(a, b, c) <= t + 1
  {
  }

  lemma {:induction false} Fits30(t: int, a: int, b: int, c: int)
    requires 30 <= t < 40 && Rounded(t, a, b, c)
    ensures Nine(a, b, c) < t <==> !Overshoots(t)
    ensures Nine(a, b, c) <= t + 1
  {
  }

  lemma {:induction false} Fits40(t: int, a: int, b: int, c: int)
    requires 40 <= t < 46 && Rounded(t, a, b, c)
    ensures Nine(a, b, c) < t <==> !Overshoots(t)
    ensures Nine(a, b, c) <= t + 1
  {
  }

  lemma {:induction false} Fits46(t: int, a: int, b: int, c: int)
    requires 46 <= t < 52 && Rounded(t, a, b, c)
    ensures Nine(a, b, c) < t <==> !Overshoots(t)
    ensures Nine(a, b, c) <= t + 1
  {
  }

  lemma {:induction false} Fits52(t: int, a: int, b: int, c: int)
    requires 52 <= t < 60 && Rounded(t, a, b, c)
    ensures Nine(a, b, c) < t <==> !Overshoots(t)
    ensures Nine(a, b, c) <= t + 1
  {
  }

  lemma {:induction false} Fits60(t: int, a: int, b: int, c: int)
    requires 60 <= t < 70 && Rounded(t, a, b, c)
    ensures Nine(a, b, c) < t <==> !Overshoots(t)
    ensures Nine(a, b, c) <= t + 1
  {
  }

  lemma {:induction false} Fits70(t: int, a: int, b: int, c: int)
    requires 70 <= t < 99 && Rounded(t, a, b, c)
    ensures Nine(a, b, c) < t <==> !Overshoots(t)
    ensures Nine(a, b, c) <= t + 1
  {
  }

  /** Whether the nine shares leave something for the last category. */
  lemma {:induction false} SharesFit(total: int)
    ensures var nine := 2 * Share(10, total) + 5 * Share(5, total) + 2 * Share(3, total);
            (nine < total <==> !Overshoots(total)) && (total >= 12 ==> nine <= total + 1)
  {
    NearestOf54(10 * total);
    NearestOf54(5 * total);
    NearestOf54(3 * total);
    var a, b, c := Round(10 * total, 54), Round(5 * total, 54), Round(3 * total, 54);
    if 12 <= total < 20 {
      Fits12(total, a, b, c);
    } else if 20 <= total < 30 {
      Fits20(total, a, b, c);
    } else if 30 <= total < 40 {
      Fits30(total, a, b, c);
    } else if 40 <= total < 46 {
      Fits40(total, a, b, c);
    } else if 46 <= total < 52 {
      Fits46(total, a, b, c);
    } else if 52 <= total < 60 {
      Fits52(total, a, b, c);
    } else if 60 <= total < 70 {
      Fits60(total, a, b, c);
    } else if 70 <= total < 99 {
      Fits70(total, a, b, c);
    }
  }

  /** Every category gets a question, the sum never falls short, and it is the total asked for
      exactly outside a short list of small totals. */
  lemma {:induction false} ScaledSumExactly(total: int, scaled: seq<int>)
    requires IsScaled(total, scaled)
    ensures Sum(scaled) >= total
    ensures Sum(scaled) == total <==> !Overshoots(total)
    ensures total >= 12 ==> Sum(scaled) <= total + 2
    ensures forall i :: 0 <= i < |scaled| ==> scaled[i] >= 1
  {
    SumIs(total, scaled);
    NineShares(total);
    EveryCategory(total, scaled);
  }

  lemma {:induction false} NineShares(total: int)
    ensures Assigned(total, 9) < total <==> !Overshoots(total)
    ensures total >= 12 ==> Assigned(total, 9) <= total + 1
  {
    AssignedByShare(total);
    SharesFit(total);
  }

  lemma {:induction false} EveryCategory(total: int, scaled: seq<int>)
    requires IsScaled(total, scaled)
    ensures forall i :: 0 <= i < |scaled| ==> scaled[i] >= 1
  {
    assert Max(1, total - Sum(scaled[..|DEFAULTS| - 1])) >= 1;
  }
}
