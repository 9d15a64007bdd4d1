/** The number pattern of `scripts/exactmatch_numeric_audit.py`, and what it makes of printed prices. */
module NumberPattern {
  import opened Wrappers
  import opened Decimal
  import opened NumberFormat

  predicate Boundary(t: Alphabet, s: string, p: nat) {
    (0 < p <= |s| && t.word(s[p - 1])) != (p < |s| && t.word(s[p]))
  }

  /** The length of the run of digits at `p`. */
  function Run(t: Alphabet, s: string, p: nat): nat
    decreases |s| - p
  {
    if p < |s| && t.digit(s[p]) then 1 + Run(t, s, p + 1) else 0
  }

  predicate GroupAt(t: Alphabet, s: string, q: nat) {
    q + 4 <= |s| && s[q] == '.' && t.digit(s[q + 1]) && t.digit(s[q + 2]) && t.digit(s[q + 3])
  }

  /** How many groups of a dot and three digits follow one another from `q`. */
  function Groups(t: Alphabet, s: string, q: nat): nat
    decreases |s| - q
  {
    if GroupAt(t, s, q) then 1 + Groups(t, s, q + 4) else 0
  }

  /** The most groups, up to `m`, after which a word ends; 0 when there is no such number. */
  function Fit(t: Alphabet, s: string, q: nat, m: nat): nat {
    if m == 0 || Boundary(t, s, q + 4 * m) then m else Fit(t, s, q, m - 1)
  }

  /** A slash and the four digits of a year, as in the number of a law. */
  predicate YearAt(t: Alphabet, s: string, q: nat) {
    q < |s| && s[q] == '/' && Run(t, s, q + 1) == 4 && Boundary(t, s, q + 5)
  }

  /** Where the match of the pattern at `p` ends; `p` itself when there is none. */
  function MatchEnd(t: Alphabet, s: string, p: nat): (end: nat)
    ensures end >= p
  {
    var h := Run(t, s, p);
    var q := p + h;
    EndOf(p, h, Fit(t, s, q, Groups(t, s, q)), Boundary(t, s, p), Boundary(t, s, q), YearAt(t, s, q))
  }

  /** The same, from the run of digits, the groups that fit, and what the boundaries are. */
  function EndOf(p: nat, h: nat, m: nat, start: bool, stop: bool, year: bool): (end: nat)
    ensures end >= p
  {
    if !start || h == 0 then p
    else if h <= 3 && m > 0 then p + h + 4 * m
    else if h >= 4 && stop then p + h
    else if h <= 3 && year then p + h + 5
    else p
  }

  lemma {:induction false} RunFits(t: Alphabet, s: string, p: nat)
    requires p <= |s|
    ensures p + Run(t, s, p) <= |s|
    decreases |s| - p
  {
    if p < |s| {
      RunFits(t, s, p + 1);
    }
  }

  lemma {:induction false} GroupsFit(t: Alphabet, s: string, q: nat)
    requires q <= |s|
    ensures q + 4 * Groups(t, s, q) <= |s|
    decreases |s| - q
  {
    if GroupAt(t, s, q) {
      GroupsFit(t, s, q + 4);
    }
  }

  lemma {:induction false} FitAtMost(t: Alphabet, s: string, q: nat, m: nat)
    ensures Fit(t, s, q, m) <= m
  {
    if m > 0 {
      FitAtMost(t, s, q, m - 1);
    }
  }

  lemma {:induction false} MatchFits(t: Alphabet, s: string, p: nat)
    requires p <= |s|
    ensures MatchEnd(t, s, p) <= |s|
  {
    var h := Run(t, s, p);
    RunFits(t, s, p);
    GroupsFit(t, s, p + h);
    FitAtMost(t, s, p + h, Groups(t, s, p + h));
    if p + h < |s| {
      RunFits(t, s, p + h + 1);
    }
  }

  function Ends(t: Alphabet, s: string): nat -> nat {
    p => MatchEnd(t, s, p)
  }

  /** The pieces of `s` from `p` on, left to right, when the one at `q` ends at `ends(q)`. */
  function Scan(ends: nat -> nat, s: string, p: nat): seq<string>
    decreases |s| - p
  {
    if p >= |s| then []
    else if p < ends(p) <= |s| then [s[p..ends(p)]] + Scan(ends, s, ends(p))
    else Scan(ends, s, p + 1)
  }

  /** `_nums`: the matches from `p` on. */
  function Nums(t: Alphabet, s: string, p: nat): seq<string> {
    Scan(Ends(t, s), s, p)
  }

  /** Matches are taken from left to right, each search going on where the last match ended. */
  lemma {:induction false} NumsTakes(t: Alphabet, s: string, p: nat)
    requires p < |s|
    ensures var end := MatchEnd(t, s, p);
            end <= |s| && Nums(t, s, p) == if end > p then [s[p..end]] + Nums(t, s, end) else Nums(t, s, p + 1)
  {
    MatchFits(t, s, p);
  }

  /** What stands at position `i` of a number whose head has `h` digits. */
  predicate FitsAt(c: char, h: nat, i: nat) {
    if i >= h && (i - h) % 4 == 0 then c == '.' else IsDigit(c)
  }

  /** A head of `h` digits and `m` groups. */
  ghost predicate Shaped(s: string, h: nat, m: nat) {
    1 <= h <= 3 && h + 4 * m <= |s| && forall i: nat :: i < h + 4 * m ==> FitsAt(s[i], h, i)
  }

  lemma {:induction false} GroupedShape(n: nat) returns (h: nat, m: nat)
    ensures Shaped(Grouped(n), h, m) && |Grouped(n)| == h + 4 * m
    ensures m == 0 <==> n < 1000
    ensures m <= 1 <==> n < 1000000
    ensures n >= 1000 ==> |Grouped(n / 1000)| == h + 4 * (m - 1)
  {
    if n < 1000 {
      h, m := |Digits(n)|, 0;
      DigitsShort(n);
    } else {
      var k;
      h, k := GroupedShape(n / 1000);
      m := k + 1;
      GroupAdded(Grouped(n / 1000), h, k, Three(n % 1000));
    }
  }

  lemma {:induction false} GroupAdded(g: string, h: nat, k: nat, last: string)
    requires Shaped(g, h, k) && |g| == h + 4 * k && |last| == 3 && AllDigits(last)
    ensures Shaped(g + "." + last, h, k + 1)
  {
    var s := g + "." + last;
    forall i: nat | i < h + 4 * (k + 1) ensures FitsAt(s[i], h, i) {
      if i < |g| {
        assert FitsAt(g[i], h, i);
      } else if i > |g| {
        assert s[i] == last[i - |g| - 1];
      }
    }
  }

  lemma {:induction false} ShapedAt(s: string, h: nat, m: nat, i: nat)
    requires Shaped(s, h, m) && i < h + 4 * m
    ensures FitsAt(s[i], h, i)
  {
  }

  lemma {:induction false} RunOf(t: Alphabet, s: string, p: nat, n: nat)
    requires p + n <= |s| && (forall i :: p <= i < p + n ==> t.digit(s[i]))
    requires p + n == |s| || !t.digit(s[p + n])
    ensures Run(t, s, p) == n
    decreases n
  {
    if n > 0 {
      RunOf(t, s, p + 1, n - 1);
    }
  }

  /** `s` starts with a printed number, followed by its mark or by nothing. */
  ghost predicate Price(s: string, h: nat, m: nat) {
    Shaped(s, h, m) && (|s| == h + 4 * m || s[h + 4 * m] == MARK)
  }

  lemma {:induction false} GroupsOf(t: Alphabet, s: string, h: nat, m: nat, j: nat)
    requires Sound(t) && Price(s, h, m) && j <= m
    ensures Groups(t, s, h + 4 * j) == m - j
    decreases m - j
  {
    GroupOfPrice(t, s, h, m, j);
    if j < m {
      GroupsOf(t, s, h, m, j + 1);
    }
  }

  lemma {:induction false} GroupOfPrice(t: Alphabet, s: string, h: nat, m: nat, j: nat)
    requires Sound(t) && Price(s, h, m) && j <= m
    ensures GroupAt(t, s, h + 4 * j) <==> j < m
  {
    if j < m {
      DotAndDigits(s, h, m, j);
    }
  }

  lemma {:induction false} DotAndDigits(s: string, h: nat, m: nat, j: nat)
    requires Shaped(s, h, m) && j < m
    ensures var q := h + 4 * j; s[q] == '.' && IsDigit(s[q + 1]) && IsDigit(s[q + 2]) && IsDigit(s[q + 3])
  {
    var q := h + 4 * j;
    assert (q - h) % 4 == 0 && (q + 1 - h) % 4 == 1 && (q + 2 - h) % 4 == 2 && (q + 3 - h) % 4 == 3;
    ShapedAt(s, h, m, q);
    ShapedAt(s, h, m, q + 1);
    ShapedAt(s, h, m, q + 2);
    ShapedAt(s, h, m, q + 3);
  }

  /** Every group, and what follows the last, comes after a digit. */
  lemma {:induction false} DigitBefore(s: string, h: nat, m: nat, j: nat)
    requires Shaped(s, h, m) && j <= m
    ensures IsDigit(s[h + 4 * j - 1])
  {
    if j == 0 {
      ShapedAt(s, h, m, h - 1);
    } else {
      DotAndDigits(s, h, m, j - 1);
      assert h + 4 * (j - 1) + 3 == h + 4 * j - 1;
    }
  }

  /** A word ends after every group but, when the mark follows, the last. */
  lemma {:induction false} BoundaryAfter(t: Alphabet, s: string, h: nat, m: nat, j: nat)
    requires Sound(t) && Price(s, h, m) && j <= m
    ensures Boundary(t, s, h + 4 * j) <==> j < m || |s| == h + 4 * m
  {
    DigitBefore(s, h, m, j);
    if j < m {
      DotAndDigits(s, h, m, j);
    }
  }

  /** The match at the start takes every group, or every group but the last when the mark follows. */
  lemma {:induction false} MatchAtStart(t: Alphabet, s: string, h: nat, m: nat)
    requires Sound(t) && Price(s, h, m)
    ensures MatchEnd(t, s, 0) ==
            if |s| == h + 4 * m then if m > 0 then h + 4 * m else 0
            else if m > 1 then h + 4 * (m - 1) else 0
  {
    RunOfPrice(t, s, h, m);
    GroupsOf(t, s, h, m, 0);
    FitOfPrice(t, s, h, m);
    MatchOf(t, s, h, Fit(t, s, h, m));
  }

  lemma {:induction false} RunOfPrice(t: Alphabet, s: string, h: nat, m: nat)
    requires Sound(t) && Price(s, h, m)
    ensures Boundary(t, s, 0) && Run(t, s, 0) == h && (h == |s| || s[h] != '/')
  {
    ShapedAt(s, h, m, 0);
    forall i: nat | i < h ensures t.digit(s[i]) {
      ShapedAt(s, h, m, i);
    }
    if m > 0 {
      ShapedAt(s, h, m, h);
    }
    RunOf(t, s, 0, h);
  }

  lemma {:induction false} FitOfPrice(t: Alphabet, s: string, h: nat, m: nat)
    requires Sound(t) && Price(s, h, m)
    ensures Fit(t, s, h, m) == if m > 0 && |s| > h + 4 * m then m - 1 else m
  {
    BoundaryAfter(t, s, h, m, m);
    if m > 0 {
      BoundaryAfter(t, s, h, m, m - 1);
      FitNext(t, s, h, m);
      if m > 1 {
        FitNext(t, s, h, m - 1);
      }
    }
  }

  lemma {:induction false} FitNext(t: Alphabet, s: string, q: nat, m: nat)
    requires m > 0
    ensures Fit(t, s, q, m) == if Boundary(t, s, q + 4 * m) then m else Fit(t, s, q, m - 1)
  {
  }

  /** The match at the start of a text that starts with a word of up to three digits. */
  lemma {:induction false} MatchOf(t: Alphabet, s: string, h: nat, fit: nat)
    requires Boundary(t, s, 0) && Run(t, s, 0) == h && 1 <= h <= 3 && Fit(t, s, h, Groups(t, s, h)) == fit
    requires h >= |s| || s[h] != '/'
    ensures MatchEnd(t, s, 0) == if fit > 0 then h + 4 * fit else 0
  {
  }

  /** Neither a dot nor a digit after a digit starts a match. */
  lemma {:induction false} NoStart(t: Alphabet, s: string, p: nat)
    requires Sound(t) && 0 < p <= |s|
    requires p == |s| || !t.digit(s[p]) || IsDigit(s[p - 1])
    ensures MatchEnd(t, s, p) == p
  {
  }

  /** Nor do three digits before the mark. */
  lemma {:induction false} NoMatchBeforeMark(t: Alphabet, s: string, p: nat)
    requires Sound(t) && p + 4 <= |s| && s[p + 3] == MARK
    requires IsDigit(s[p]) && IsDigit(s[p + 1]) && IsDigit(s[p + 2])
    ensures MatchEnd(t, s, p) == p
  {
    RunOf(t, s, p, 3);
  }

  /** Nothing matches at a dot, inside a run of digits, in the last group before the mark, or at the mark. */
  lemma {:induction false} NoMatchAt(t: Alphabet, s: string, h: nat, m: nat, p: nat)
    requires Sound(t) && Price(s, h, m) && |s| > h + 4 * m >= p
    requires p > 0 && (m <= 1 || p + 4 >= h + 4 * m)
    ensures MatchEnd(t, s, p) == p
  {
    var last := h + 4 * m;
    if p + 3 == last && m > 0 {
      assert p == h + 4 * (m - 1) + 1;
      ShapedAt(s, h, m, p);
      ShapedAt(s, h, m, p + 1);
      ShapedAt(s, h, m, p + 2);
      NoMatchBeforeMark(t, s, p);
    } else {
      if p < last {
        ShapedAt(s, h, m, p);
        ShapedAt(s, h, m, p - 1);
      }
      NoStart(t, s, p);
    }
  }

  lemma {:induction false} Quiet(ends: nat -> nat, s: string, p: nat, q: nat)
    requires p <= q <= |s| && forall r: nat :: p <= r < q ==> ends(r) == r
    ensures Scan(ends, s, p) == Scan(ends, s, q)
    decreases q - p
  {
    if p < q {
      Quiet(ends, s, p + 1, q);
    }
  }

  /** The pattern finds a printed number that stands alone, and reading it gives it back. */
  lemma {:induction false} FindsUnmarked(t: Alphabet, v: nat)
    requires Sound(t) && v >= 1000
    ensures Nums(t, Unmarked(v), 0) == [Unmarked(v)] && AsInt(Unmarked(v)) == Some(v)
  {
    var s := Unmarked(v);
    var h, m := GroupedShape(v);
    MatchAtStart(t, s, h, m);
    AsIntReadsBack(v);
    WholeMatch(Ends(t, s), s);
  }

  lemma {:induction false} WholeMatch(ends: nat -> nat, s: string)
    requires s != "" && ends(0) == |s|
    ensures Scan(ends, s, 0) == [s]
  {
    assert s[0..|s|] == s;
  }

  /** Plain digits standing alone are found from four on. */
  lemma {:induction false} FindsPlain(t: Alphabet, d: string)
    requires Sound(t) && AllDigits(d)
    ensures Nums(t, d, 0) == if |d| >= 4 then [d] else []
  {
    if d != "" {
      RunOf(t, d, 0, |d|);
      PlainEnds(t, d);
      if |d| >= 4 {
        WholeMatch(Ends(t, d), d);
      } else {
        Quiet(Ends(t, d), d, 0, |d|);
      }
    }
  }

  lemma {:induction false} PlainEnds(t: Alphabet, d: string)
    requires Sound(t) && AllDigits(d) && d != "" && Run(t, d, 0) == |d|
    ensures Ends(t, d)(0) == if |d| >= 4 then |d| else 0
    ensures forall p: nat :: 0 < p < |d| ==> Ends(t, d)(p) == p
  {
    assert Groups(t, d, |d|) == 0 && !YearAt(t, d, |d|);
    forall p: nat | 0 < p < |d| ensures Ends(t, d)(p) == p {
      NoStart(t, d, p);
    }
  }

  /** Up to three digits, a slash and exactly four digits are found as one, as in the number of a law. */
  lemma {:induction false} FindsYear(t: Alphabet, a: string, y: string)
    requires Sound(t) && AllDigits(a) && AllDigits(y) && 1 <= |a| <= 3 && |y| == 4
    ensures Nums(t, a + "/" + y, 0) == [a + "/" + y]
  {
    var s := a + "/" + y;
    YearRuns(t, a, y);
    assert Groups(t, s, |a|) == 0 && YearAt(t, s, |a|);
    assert Ends(t, s)(0) == |s|;
    WholeMatch(Ends(t, s), s);
  }

  lemma {:induction false} YearRuns(t: Alphabet, a: string, y: string)
    requires Sound(t) && AllDigits(a) && AllDigits(y) && a != "" && y != ""
    ensures var s := a + "/" + y;
            && Run(t, s, 0) == |a| && Run(t, s, |a| + 1) == |y| && s[|a|] == '/'
            && Boundary(t, s, 0) && Boundary(t, s, |a| + 1) && Boundary(t, s, |s|)
  {
    var s := a + "/" + y;
    forall i: nat | i < |s| ensures if i == |a| then s[i] == '/' else IsDigit(s[i]) {
      if i < |a| {
        assert s[i] == a[i];
      } else if i > |a| {
        assert s[i] == y[i - |a| - 1];
      }
    }
    RunOf(t, s, 0, |a|);
    RunOf(t, s, |a| + 1, |y|);
  }

  /** Four or more digits end the match themselves: what follows them, be it groups or a year, is left. */
  lemma {:induction false} LongRunStops(t: Alphabet, d: string, c: char, rest: string)
    requires Sound(t) && !t.word(c) && AllDigits(d) && |d| >= 4
    ensures MatchEnd(t, d + [c] + rest, 0) == |d|
  {
    var s, n := d + [c] + rest, |d|;
    assert s[n] == c && s[n - 1] == d[n - 1] && forall i: nat :: i < n ==> s[i] == d[i];
    RunOf(t, s, 0, n);
    assert Boundary(t, s, 0) && Boundary(t, s, n);
  }

  /** A word character after the digits hides them, as the mark does: of plain digits and of a year
      nothing is found at the start. */
  lemma {:induction false} WordAfterHides(t: Alphabet, d: string, a: string, y: string, c: char, rest: string)
    requires Sound(t) && t.word(c) && !t.digit(c)
    requires AllDigits(d) && d != "" && AllDigits(a) && AllDigits(y) && 1 <= |a| <= 3 && |y| == 4
    ensures MatchEnd(t, d + [c] + rest, 0) == 0
    ensures MatchEnd(t, a + "/" + y + [c] + rest, 0) == 0
  {
    DigitsThenWord(t, d, c, rest);
    YearThenWord(t, a, y, c, rest);
  }

  lemma {:induction false} DigitsThenWord(t: Alphabet, d: string, c: char, rest: string)
    requires Sound(t) && t.word(c) && !t.digit(c) && AllDigits(d) && d != ""
    ensures MatchEnd(t, d + [c] + rest, 0) == 0
  {
    var s, n := d + [c] + rest, |d|;
    assert s[n] == c && s[n - 1] == d[n - 1] && forall i: nat :: i < n ==> s[i] == d[i];
    RunOf(t, s, 0, n);
    assert !Boundary(t, s, n) && c != '.' && c != '/';
    assert Groups(t, s, n) == 0 && !YearAt(t, s, n);
  }

  lemma {:induction false} YearThenWord(t: Alphabet, a: string, y: string, c: char, rest: string)
    requires Sound(t) && t.word(c) && !t.digit(c) && AllDigits(a) && AllDigits(y) && 1 <= |a| <= 3 && |y| == 4
    ensures MatchEnd(t, a + "/" + y + [c] + rest, 0) == 0
  {
    var s, n := a + "/" + y + [c] + rest, |a|;
    assert s[n] == '/' && s[n + 5] == c && forall i: nat :: i < n ==> s[i] == a[i];
    assert forall i: nat :: i < 4 ==> s[n + 1 + i] == y[i];
    assert s[n + 4] == y[3];
    RunOf(t, s, 0, n);
    assert Groups(t, s, n) == 0 && !Boundary(t, s, n + 5);
  }

  /** Any other number of digits after the slash is a number of its own, or none. */
  lemma {:induction false} OtherThanYear(t: Alphabet, a: string, y: string)
    requires Sound(t) && AllDigits(a) && AllDigits(y) && 1 <= |a| <= 3 && y != "" && |y| != 4
    ensures Nums(t, a + "/" + y, 0) == if |y| > 4 then [y] else []
  {
    var s := a + "/" + y;
    NothingBefore(t, a, y);
    Quiet(Ends(t, s), s, 0, |a| + 1);
    AfterSlash(t, a, y);
    FindsPlain(t, y);
  }

  lemma {:induction false} AfterSlash(t: Alphabet, a: string, y: string)
    requires Sound(t)
    ensures Nums(t, a + "/" + y, |a| + 1) == Nums(t, y, 0)
  {
    var s := a + "/" + y;
    assert s[|a| + 1..] == y && s[|a|] == '/';
    NumsShift(t, s, |a| + 1, 0);
  }

  lemma {:induction false} NothingBefore(t: Alphabet, a: string, y: string)
    requires Sound(t) && AllDigits(a) && AllDigits(y) && 1 <= |a| <= 3 && y != "" && |y| != 4
    ensures forall p: nat :: p < |a| + 1 ==> Ends(t, a + "/" + y)(p) == p
  {
    var s := a + "/" + y;
    YearRuns(t, a, y);
    assert Groups(t, s, |a|) == 0 && !YearAt(t, s, |a|);
    forall p: nat | p < |a| + 1 ensures Ends(t, s)(p) == p {
      if p == |a| {
        NoStart(t, s, p);
      } else if p > 0 {
        assert s[p - 1] == a[p - 1];
        NoStart(t, s, p);
      }
    }
  }

  lemma {:induction false} ShapedPrefix(g: string, h: nat, m: nat, tail: string)
    requires Shaped(g, h, m)
    ensures Shaped(g + tail, h, m)
  {
    forall i: nat | i < h + 4 * m ensures FitsAt((g + tail)[i], h, i) {
      assert FitsAt(g[i], h, i);
    }
  }

  lemma {:induction false} NumsFrom(t: Alphabet, s: string, end: nat, next: nat)
    requires Ends(t, s)(0) == end <= next <= |s| && s != ""
    requires forall q: nat :: end <= q < next ==> Ends(t, s)(q) == q
    ensures Nums(t, s, 0) == (if end == 0 then [] else [s[..end]]) + Nums(t, s, next)
  {
    FirstThenQuiet(Ends(t, s), s, end, next);
  }

  lemma {:induction false} EndsOfMarked(t: Alphabet, s: string, h: nat, m: nat)
    requires Sound(t) && Price(s, h, m) && |s| > h + 4 * m
    ensures var end := if m <= 1 then 0 else h + 4 * (m - 1);
            Ends(t, s)(0) == end && forall q: nat :: end <= q < h + 4 * m + 1 ==> Ends(t, s)(q) == q
  {
    MatchAtStart(t, s, h, m);
    NothingMore(t, s, h, m, if m <= 1 then 0 else h + 4 * (m - 1));
  }

  lemma {:induction false} NothingMore(t: Alphabet, s: string, h: nat, m: nat, end: nat)
    requires Sound(t) && Price(s, h, m) && |s| > h + 4 * m
    requires end == if m <= 1 then 0 else h + 4 * (m - 1)
    ensures forall q: nat :: end <= q < h + 4 * m + 1 ==> Ends(t, s)(q) == q
  {
    MatchAtStart(t, s, h, m);
    forall q: nat | end <= q < h + 4 * m + 1 ensures Ends(t, s)(q) == q {
      if q > 0 {
        NoMatchAt(t, s, h, m, q);
      }
    }
  }

  lemma {:induction false} FirstThenQuiet(ends: nat -> nat, s: string, end: nat, next: nat)
    requires ends(0) == end <= next <= |s| && s != "" && forall q: nat :: end <= q < next ==> ends(q) == q
    ensures Scan(ends, s, 0) == (if end == 0 then [] else [s[..end]]) + Scan(ends, s, next)
  {
    Quiet(ends, s, end, next);
    assert s[0..end] == s[..end];
  }

  /** The mark printed after the number is a word character, so the audit's pattern loses the
      last group: below a million it finds nothing, from a million on it reads a thousandth. */
  lemma {:induction false} MarkLosesLastGroup(t: Alphabet, v: nat)
    requires Sound(t)
    ensures Nums(t, FormatVnd(v), 0) == if v < 1000000 then [] else [Unmarked(v / 1000)]
    ensures AsInt(Unmarked(v / 1000)) == Some(v / 1000)
  {
    AsIntReadsBack(v / 1000);
    MarkedFirst(t, v, "");
    assert FormatVnd(v) + "" == FormatVnd(v);
    assert Nums(t, FormatVnd(v), |FormatVnd(v)|) == [];
  }

  /** What the pattern finds in a text that starts with a printed price. */
  lemma {:induction false} MarkedFirst(t: Alphabet, v: nat, post: string)
    requires Sound(t)
    ensures Nums(t, FormatVnd(v) + post, 0)
            == (if v < 1000000 then [] else [Unmarked(v / 1000)]) + Nums(t, FormatVnd(v) + post, |FormatVnd(v)|)
  {
    var end, next := PriceEnds(t, v, post);
    NumsFrom(t, FormatVnd(v) + post, end, next);
  }

  /** Where the match in a printed price ends, if there is one, and that nothing matches up to the
      end of the price. */
  lemma {:induction false} PriceEnds(t: Alphabet, v: nat, post: string) returns (end: nat, next: nat)
    requires Sound(t)
    ensures var s := FormatVnd(v) + post;
            && Ends(t, s)(0) == end <= next <= |s| && next == |FormatVnd(v)|
            && (end == 0 <==> v < 1000000) && (v >= 1000000 ==> s[..end] == Unmarked(v / 1000))
    ensures forall q: nat :: end <= q < next ==> Ends(t, FormatVnd(v) + post)(q) == q
  {
    var h, m := GroupedShape(v);
    MarkedPrice(Grouped(v), h, m, post);
    EndsOfMarked(t, FormatVnd(v) + post, h, m);
    end, next := if m <= 1 then 0 else h + 4 * (m - 1), h + 4 * m + 1;
    if v >= 1000000 {
      FrontStays(Grouped(v), [MARK], post, end);
      FrontOfGrouped(v);
    }
  }

  lemma {:induction false} MarkedPrice(g: string, h: nat, m: nat, post: string)
    requires Shaped(g, h, m) && |g| == h + 4 * m
    ensures Price(g + [MARK] + post, h, m)
  {
    Together(g, [MARK], post);
    ShapedPrefix(g, h, m, [MARK] + post);
  }

  lemma {:induction false} Together(a: string, b: string, c: string)
    ensures a + b + c == a + (b + c)
  {
  }

  lemma {:induction false} FrontStays(a: string, b: string, c: string, n: nat)
    requires n <= |a|
    ensures (a + b + c)[..n] == a[..n]
  {
  }

  /** Nor does surrounding text help: after a text that ends in no word character, dot or slash, the
      pattern finds in the price what it finds when the price stands alone. */
  lemma {:induction false} MarkLosesLastGroupInText(t: Alphabet, pre: string, v: nat, post: string)
    requires Sound(t) && Clear(t, pre)
    ensures Nums(t, pre + FormatVnd(v) + post, 0)
            == Nums(t, pre, 0) + Nums(t, FormatVnd(v), 0) + Nums(t, [MARK] + post, 1)
  {
    var alone := Nums(t, FormatVnd(v), 0);
    ClearThen(t, pre, FormatVnd(v), post);
    PriceThen(t, v, post);
    Together3(Nums(t, pre, 0), alone, Nums(t, [MARK] + post, 1));
  }

  lemma {:induction false} Together3(a: seq<string>, b: seq<string>, c: seq<string>)
    ensures a + b + c == a + (b + c)
  {
  }

  lemma {:induction false} PriceThen(t: Alphabet, v: nat, post: string)
    requires Sound(t)
    ensures Nums(t, FormatVnd(v) + post, 0) == Nums(t, FormatVnd(v), 0) + Nums(t, [MARK] + post, 1)
  {
    MarkedFirst(t, v, post);
    AfterMark(t, Unmarked(v), post);
    MarkLosesLastGroup(t, v);
  }

  lemma {:induction false} ClearThen(t: Alphabet, pre: string, f: string, post: string)
    requires Sound(t) && Clear(t, pre)
    ensures Nums(t, pre + f + post, 0) == Nums(t, pre, 0) + Nums(t, f + post, 0)
  {
    var s := pre + f + post;
    assert s == pre + (f + post) && s[|pre|..] == f + post;
    NumsBefore(t, pre, f + post);
    NumsShift(t, s, |pre|, 0);
  }

  lemma {:induction false} AfterMark(t: Alphabet, g: string, post: string)
    ensures Nums(t, g + [MARK] + post, |g + [MARK]|) == Nums(t, [MARK] + post, 1)
  {
    var s := g + [MARK] + post;
    assert s[|g|..] == [MARK] + post;
    NumsShift(t, s, |g|, 1);
  }

  /** No number can run on from the text into what follows it. */
  ghost predicate Clear(t: Alphabet, pre: string) {
    pre != "" ==> var c := pre[|pre| - 1]; !t.word(c) && c != '.' && c != '/'
  }

  // ---- a match depends on what precedes only through the word boundary ----

  lemma {:induction false} RunShift(t: Alphabet, s: string, k: nat, p: nat)
    requires k <= |s|
    ensures Run(t, s, k + p) == Run(t, s[k..], p)
    decreases |s| - p
  {
    if k + p < |s| {
      RunShift(t, s, k, p + 1);
    }
  }

  lemma {:induction false} GroupsShift(t: Alphabet, s: string, k: nat, q: nat)
    requires k <= |s|
    ensures Groups(t, s, k + q) == Groups(t, s[k..], q)
    decreases |s| - q
  {
    if GroupAt(t, s, k + q) {
      GroupsShift(t, s, k, q + 4);
    }
  }

  lemma {:induction false} FitShift(t: Alphabet, s: string, k: nat, q: nat, m: nat)
    requires k <= |s| && q > 0
    ensures Fit(t, s, k + q, m) == Fit(t, s[k..], q, m)
  {
    if m > 0 {
      FitShift(t, s, k, q, m - 1);
      BoundaryShift(t, s, k, q + 4 * m);
      assert k + q + 4 * m == k + (q + 4 * m);
    }
  }

  lemma {:induction false} BoundaryShift(t: Alphabet, s: string, k: nat, p: nat)
    requires k <= |s| && (p > 0 || k == 0 || !t.word(s[k - 1]))
    ensures Boundary(t, s, k + p) == Boundary(t, s[k..], p)
  {
  }

  lemma {:induction false} MatchShift(t: Alphabet, s: string, k: nat, p: nat)
    requires k <= |s| && (p > 0 || k == 0 || !t.word(s[k - 1]))
    ensures MatchEnd(t, s, k + p) == k + MatchEnd(t, s[k..], p)
  {
    var x, h := s[k..], Run(t, s[k..], p);
    RunShift(t, s, k, p);
    BoundaryShift(t, s, k, p);
    if h > 0 {
      GroupsShift(t, s, k, p + h);
      FitShift(t, s, k, p + h, Groups(t, x, p + h));
      BoundaryShift(t, s, k, p + h);
      RunShift(t, s, k, p + h + 1);
      BoundaryShift(t, s, k, p + h + 5);
    }
  }

  lemma {:induction false} NumsShift(t: Alphabet, s: string, k: nat, p: nat)
    requires k + p <= |s| && (p > 0 || k == 0 || !t.word(s[k - 1]))
    ensures Nums(t, s, k + p) == Nums(t, s[k..], p)
  {
    EndsShift(t, s, k, p);
    ScanShift(Ends(t, s), s, k, Ends(t, s[k..]), p);
  }

  lemma {:induction false} EndsShift(t: Alphabet, s: string, k: nat, p: nat)
    requires k + p <= |s| && (p > 0 || k == 0 || !t.word(s[k - 1]))
    ensures forall q: nat :: p <= q ==> Ends(t, s)(k + q) == k + Ends(t, s[k..])(q)
  {
    forall q: nat | p <= q ensures Ends(t, s)(k + q) == k + Ends(t, s[k..])(q) {
      EndShift(t, s, k, q);
    }
  }

  lemma {:induction false} EndShift(t: Alphabet, s: string, k: nat, q: nat)
    requires k <= |s| && (q > 0 || k == 0 || !t.word(s[k - 1]))
    ensures Ends(t, s)(k + q) == k + Ends(t, s[k..])(q)
  {
    MatchShift(t, s, k, q);
  }

  lemma {:induction false} ScanShift(ends: nat -> nat, s: string, k: nat, later: nat -> nat, p: nat)
    requires k + p <= |s| && forall q: nat :: p <= q ==> ends(k + q) == k + later(q)
    ensures Scan(ends, s, k + p) == Scan(later, s[k..], p)
    decreases |s| - p
  {
    var x := s[k..];
    if p < |x| {
      assert ends(k + p) == k + later(p);
      ScanOne(ends, s, k + p);
      ScanOne(later, x, p);
      if p < later(p) <= |x| {
        assert s[k + p..k + later(p)] == x[p..later(p)];
        ScanShift(ends, s, k, later, later(p));
      } else {
        ScanShift(ends, s, k, later, p + 1);
      }
    }
  }

  // ---- and not at all on what follows a clear text ----

  lemma {:induction false} RunBefore(t: Alphabet, pre: string, post: string, p: nat)
    requires Sound(t) && Clear(t, pre) && p < |pre|
    ensures Run(t, pre + post, p) == Run(t, pre, p) && p + Run(t, pre, p) < |pre|
    decreases |pre| - p
  {
    if t.digit(pre[p]) {
      RunBefore(t, pre, post, p + 1);
    }
  }

  lemma {:induction false} GroupBefore(t: Alphabet, pre: string, post: string, q: nat)
    requires Sound(t) && Clear(t, pre) && q < |pre|
    ensures GroupAt(t, pre + post, q) == GroupAt(t, pre, q) && (GroupAt(t, pre, q) ==> q + 4 < |pre|)
  {
    var s, last := pre + post, |pre| - 1;
    assert s[last] == pre[last] && s[q] == pre[q];
    if q + 4 <= |pre| {
      assert s[q + 1] == pre[q + 1] && s[q + 2] == pre[q + 2] && s[q + 3] == pre[q + 3];
    } else {
      assert last == q || last == q + 1 || last == q + 2;
    }
  }

  lemma {:induction false} GroupsBefore(t: Alphabet, pre: string, post: string, q: nat)
    requires Sound(t) && Clear(t, pre) && q < |pre|
    ensures Groups(t, pre + post, q) == Groups(t, pre, q) && q + 4 * Groups(t, pre, q) < |pre|
    decreases |pre| - q
  {
    GroupBefore(t, pre, post, q);
    if GroupAt(t, pre, q) {
      GroupsBefore(t, pre, post, q + 4);
    }
  }

  lemma {:induction false} FitBefore(t: Alphabet, pre: string, post: string, q: nat, m: nat)
    requires q + 4 * m < |pre|
    ensures Fit(t, pre + post, q, m) == Fit(t, pre, q, m)
  {
    if m > 0 {
      FitBefore(t, pre, post, q, m - 1);
      BoundaryBefore(t, pre, post, q + 4 * m);
    }
  }

  lemma {:induction false} BoundaryBefore(t: Alphabet, pre: string, post: string, p: nat)
    requires p < |pre|
    ensures Boundary(t, pre + post, p) == Boundary(t, pre, p)
  {
  }

  lemma {:induction false} MatchBefore(t: Alphabet, pre: string, post: string, p: nat)
    requires Sound(t) && Clear(t, pre) && p < |pre|
    ensures MatchEnd(t, pre + post, p) == MatchEnd(t, pre, p) < |pre|
  {
    var h := Run(t, pre, p);
    RunBefore(t, pre, post, p);
    var m, stop, year := RestBefore(t, pre, post, p + h);
    var start := Boundary(t, pre, p);
    BoundaryBefore(t, pre, post, p);
    MatchEndIs(t, pre, p, h, m, start, stop, year);
    MatchEndIs(t, pre + post, p, h, m, start, stop, year);
    EndInside(p, h, m, start, stop, year, |pre|);
  }

  lemma {:induction false} MatchEndIs(t: Alphabet, s: string, p: nat, h: nat, m: nat, start: bool, stop: bool, year: bool)
    requires h == Run(t, s, p) && m == Fit(t, s, p + h, Groups(t, s, p + h)) && start == Boundary(t, s, p)
    requires stop == Boundary(t, s, p + h) && year == YearAt(t, s, p + h)
    ensures MatchEnd(t, s, p) == EndOf(p, h, m, start, stop, year)
  {
  }

  /** What decides a match after its first run of digits. */
  lemma {:induction false} RestBefore(t: Alphabet, pre: string, post: string, q: nat) returns (m: nat, stop: bool, year: bool)
    requires Sound(t) && Clear(t, pre) && q < |pre|
    ensures m == Fit(t, pre, q, Groups(t, pre, q)) == Fit(t, pre + post, q, Groups(t, pre + post, q))
    ensures stop == Boundary(t, pre, q) == Boundary(t, pre + post, q)
    ensures year == YearAt(t, pre, q) == YearAt(t, pre + post, q)
    ensures q + 4 * m < |pre| && (year ==> q + 5 < |pre|)
  {
    FitsBefore(t, pre, post, q);
    BoundaryBefore(t, pre, post, q);
    YearBefore(t, pre, post, q);
    m, stop, year := Fit(t, pre, q, Groups(t, pre, q)), Boundary(t, pre, q), YearAt(t, pre, q);
  }

  lemma {:induction false} EndInside(p: nat, h: nat, m: nat, start: bool, stop: bool, year: bool, n: nat)
    requires p + h < n && p + h + 4 * m < n && (year ==> p + h + 5 < n)
    ensures EndOf(p, h, m, start, stop, year) < n
  {
  }

  lemma {:induction false} FitsBefore(t: Alphabet, pre: string, post: string, q: nat)
    requires Sound(t) && Clear(t, pre) && q < |pre|
    ensures var m := Fit(t, pre, q, Groups(t, pre, q));
            Fit(t, pre + post, q, Groups(t, pre + post, q)) == m && q + 4 * m < |pre|
  {
    GroupsBefore(t, pre, post, q);
    FitBefore(t, pre, post, q, Groups(t, pre, q));
    FitAtMost(t, pre, q, Groups(t, pre, q));
  }

  lemma {:induction false} YearBefore(t: Alphabet, pre: string, post: string, q: nat)
    requires Sound(t) && Clear(t, pre) && q < |pre|
    ensures YearAt(t, pre + post, q) == YearAt(t, pre, q) && (YearAt(t, pre, q) ==> q + 5 < |pre|)
  {
    if pre[q] == '/' {
      RunBefore(t, pre, post, q + 1);
      if Run(t, pre, q + 1) == 4 {
        BoundaryBefore(t, pre, post, q + 5);
      }
    }
  }

  lemma {:induction false} NumsBefore(t: Alphabet, pre: string, post: string)
    requires Sound(t) && Clear(t, pre)
    ensures Nums(t, pre + post, 0) == Nums(t, pre, 0) + Nums(t, pre + post, |pre|)
  {
    var ends, alone := Ends(t, pre + post), Ends(t, pre);
    forall q: nat | q < |pre| ensures ends(q) == alone(q) < |pre| {
      MatchBefore(t, pre, post, q);
    }
    ScanBefore(ends, pre, post, alone, 0);
  }

  lemma {:induction false} ScanBefore(ends: nat -> nat, pre: string, post: string, alone: nat -> nat, p: nat)
    requires p <= |pre| && forall q: nat :: q < |pre| ==> ends(q) == alone(q) < |pre|
    ensures Scan(ends, pre + post, p) == Scan(alone, pre, p) + Scan(ends, pre + post, |pre|)
    decreases |pre| - p
  {
    if p < |pre| {
      var end := alone(p);
      ScanOne(ends, pre + post, p);
      ScanOne(alone, pre, p);
      if end > p {
        SliceOfFront(pre, post, p, end);
        ScanBefore(ends, pre, post, alone, end);
        Together3([pre[p..end]], Scan(alone, pre, end), Scan(ends, pre + post, |pre|));
      } else {
        ScanBefore(ends, pre, post, alone, p + 1);
      }
    }
  }

  lemma {:induction false} ScanOne(ends: nat -> nat, s: string, p: nat)
    requires p < |s|
    ensures Scan(ends, s, p) ==
            if p < ends(p) <= |s| then [s[p..ends(p)]] + Scan(ends, s, ends(p)) else Scan(ends, s, p + 1)
  {
  }

  lemma {:induction false} SliceOfFront(pre: string, post: string, p: nat, end: nat)
    requires p <= end <= |pre|
    ensures (pre + post)[p..end] == pre[p..end]
  {
  }

  lemma {:induction false} FrontOfGrouped(v: nat)
    requires v >= 1000
    ensures |Grouped(v / 1000)| <= |Grouped(v)| && Grouped(v)[..|Grouped(v / 1000)|] == Grouped(v / 1000)
  {
    assert Grouped(v) == Grouped(v / 1000) + "." + Three(v % 1000);
  }
}
