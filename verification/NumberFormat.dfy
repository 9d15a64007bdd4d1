/** The price printer and the two readers that undo it. */
module NumberFormat {
  import opened Wrappers
  import opened Decimal
  import opened Text

  /** What the regular expressions and `str.lower` know about characters: the class `\d`, the
      class `\w`, and the lower-case form of a character (one or several characters). */
  datatype Alphabet = Alphabet(digit: char -> bool, word: char -> bool, low: char -> string)

  const MARK: char := '\U{0111}'   // the currency mark, d with stroke

  predicate IsSeparator(c: char) {
    c == '.' || c == ',' || IsSpace(c)
  }

  /** The facts about Unicode that the scripts rely on. */
  ghost predicate Sound(t: Alphabet) {
    && (forall c: char :: IsDigit(c) ==> t.digit(c) && t.low(c) == [c])
    && (forall c: char :: IsSeparator(c) ==> !t.digit(c) && t.low(c) == [c])
    && (forall c: char :: t.digit(c) ==> t.word(c))
    && (forall c: char, d: char :: d in t.low(c) ==> t.low(d) == [d])
    && !t.word('.') && !t.word('/')
    && t.word(MARK) && !t.digit(MARK) && t.low(MARK) == [MARK] && t.low('-') == ['-']
  }

  // The printer.

  /** Three digits, zero-padded. */
  function Three(r: nat): (s: string)
    requires r < 1000
    ensures |s| == 3 && AllDigits(s)
  {
    [DigitChar(r / 100), DigitChar(r / 10 % 10), DigitChar(r % 10)]
  }

  /** `n` in groups of three, separated by dots. */
  function Grouped(n: nat): (s: string)
    ensures |s| > 0 && IsDigit(s[0]) && IsDigit(s[|s| - 1])
  {
    if n < 1000 then Digits(n) else Grouped(n / 1000) + "." + Three(n % 1000)
  }

  function Unmarked(v: int): string {
    if v < 0 then "-" + Grouped(-v) else Grouped(v)
  }

  function FormatVnd(v: int): string {
    Unmarked(v) + [MARK]
  }

  lemma {:induction false} LastThree(n: nat)
    ensures n / 10 / 10 == n / 100 && n / 100 / 10 == n / 1000
    ensures n % 1000 / 100 == n / 100 % 10 && n % 1000 / 10 % 10 == n / 10 % 10 && n % 1000 % 10 == n % 10
  {
  }

  lemma {:induction false} DigitsByThousand(n: nat)
    requires n >= 1000
    ensures Digits(n) == Digits(n / 1000) + Three(n % 1000)
  {
    LastThree(n);
    var hundreds, tens := n / 100, n / 10;
    assert Digits(hundreds) == Digits(n / 1000) + [DigitChar(hundreds % 10)];
    assert Digits(tens) == Digits(hundreds) + [DigitChar(tens % 10)];
    assert Digits(n) == Digits(tens) + [DigitChar(n % 10)];
  }

  /** `g` is `d` cut into groups: a head of digits, then dots with three digits each. */
  ghost predicate Cut(g: string, d: string) {
    if |g| > 4 && g[|g| - 4] == '.' then
      && |d| > 3 && g[|g| - 3..] == d[|d| - 3..] && AllDigits(g[|g| - 3..])
      && IsDigit(g[|g| - 5]) && Cut(g[..|g| - 4], d[..|d| - 3])
    else g == d && AllDigits(g) && g != ""
  }

  lemma {:induction false} CutSplit(g: string, d: string) returns (head: string, lead: string, last: string)
    requires Cut(g, d) && |g| > 4 && g[|g| - 4] == '.'
    ensures g == head + ("." + last) && d == lead + last && Cut(head, lead) && |last| == 3 && AllDigits(last)
    ensures |head| > 0 && IsDigit(head[|head| - 1])
  {
    head, lead, last := g[..|g| - 4], d[..|d| - 3], g[|g| - 3..];
  }

  lemma {:induction false} CutMore(g: string, d: string, last: string)
    requires Cut(g, d) && g != "" && IsDigit(g[|g| - 1]) && d != "" && |last| == 3 && AllDigits(last)
    ensures Cut(g + "." + last, d + last)
  {
    var h, e := g + "." + last, d + last;
    assert h[..|h| - 4] == g && e[..|e| - 3] == d;
    assert h[|h| - 3..] == last == e[|e| - 3..];
  }

  lemma {:induction false} GroupedIsCut(n: nat)
    ensures Cut(Grouped(n), Digits(n))
  {
    if n < 1000 {
      DigitsShort(n);
    } else {
      GroupedIsCut(n / 1000);
      DigitsByThousand(n);
      CutMore(Grouped(n / 1000), Digits(n / 1000), Three(n % 1000));
    }
  }

  lemma {:induction false} DigitsShort(n: nat)
    requires n < 1000
    ensures 1 <= |Digits(n)| <= 3
  {
    if n >= 10 {
      assert Digits(n) == Digits(n / 10) + [DigitChar(n % 10)];
      if n >= 100 {
        assert Digits(n / 10) == Digits(n / 100) + [DigitChar(n / 10 % 10)];
      }
    }
  }

  // The context-sensitive stripper.

  function Lower(t: Alphabet, s: string): string {
    if |s| == 0 then "" else Lower(t, s[..|s| - 1]) + t.low(s[|s| - 1])
  }

  /** A separator with a digit on either side. */
  predicate Removed(t: Alphabet, s: string, i: nat) {
    0 < i < |s| - 1 && IsSeparator(s[i]) && t.digit(s[i - 1]) && t.digit(s[i + 1])
  }

  /** What is left of the first `n` characters. */
  function Kept(t: Alphabet, s: string, n: nat): string
    requires n <= |s|
  {
    if n == 0 then "" else Kept(t, s, n - 1) + if Removed(t, s, n - 1) then "" else [s[n - 1]]
  }

  function NormNum(t: Alphabet, s: string): string {
    var l := Lower(t, s);
    Kept(t, l, |l|)
  }

  lemma {:induction false} LowerConcat(t: Alphabet, a: string, b: string)
    ensures Lower(t, a + b) == Lower(t, a) + Lower(t, b)
    decreases |b|
  {
    if |b| > 0 {
      LowerConcat(t, a, b[..|b| - 1]);
      assert (a + b)[..|a + b| - 1] == a + b[..|b| - 1];
    } else {
      assert a + b == a;
    }
  }

  ghost predicate Caseless(t: Alphabet, s: string) {
    forall i :: 0 <= i < |s| ==> t.low(s[i]) == [s[i]]
  }

  lemma {:induction false} LowerFixes(t: Alphabet, s: string)
    requires Caseless(t, s)
    ensures Lower(t, s) == s
  {
    if |s| > 0 {
      var front := s[..|s| - 1];
      assert Caseless(t, front);
      LowerFixes(t, front);
      assert s == front + [s[|s| - 1]];
    }
  }

  lemma {:induction false} LowerStable(t: Alphabet, s: string)
    requires Sound(t)
    ensures forall c :: c in Lower(t, s) ==> t.low(c) == [c]
  {
    if |s| > 0 {
      LowerStable(t, s[..|s| - 1]);
    }
  }

  lemma {:induction false} KeptFrom(t: Alphabet, s: string, n: nat)
    requires n <= |s|
    ensures forall c :: c in Kept(t, s, n) ==> c in s
  {
    if n > 0 {
      KeptFrom(t, s, n - 1);
    }
  }

  lemma {:induction false} KeptPrefix(t: Alphabet, s: string, m: nat, n: nat)
    requires m <= n <= |s|
    ensures Kept(t, s, m) <= Kept(t, s, n)
  {
    if m < n {
      KeptPrefix(t, s, m, n - 1);
    }
  }

  /** After stripping, no separator stands between digits: a kept separator keeps its neighbours. */
  lemma {:induction false} NothingLeft(t: Alphabet, s: string, n: nat)
    requires Sound(t) && n <= |s|
    ensures forall i :: 0 <= i < |Kept(t, s, n)| ==> !Removed(t, Kept(t, s, n), i)
  {
    if n > 0 {
      NothingLeft(t, s, n - 1);
      var k, next := Kept(t, s, n - 1), Kept(t, s, n);
      forall i | 0 <= i < |next| ensures !Removed(t, next, i) {
        if i + 1 < |k| {
          assert !Removed(t, k, i);
        } else if i + 1 == |k| && |k| < |next| && i > 0 {
          LastTwo(t, s, n - 1);
        }
      }
    }
  }

  /** How what is kept ends: with a digit, or with the last characters of the text unchanged. */
  lemma {:induction false} LastTwo(t: Alphabet, s: string, n: nat)
    requires Sound(t) && n <= |s| && |Kept(t, s, n)| >= 2
    ensures n >= 2
    ensures var k := Kept(t, s, n);
            !IsSeparator(k[|k| - 1]) || (k[|k| - 1] == s[n - 1] && k[|k| - 2] == s[n - 2])
  {
    assert Kept(t, s, 0) == "";
    if n >= 2 {
      assert Kept(t, s, n - 1) == Kept(t, s, n - 2) + if Removed(t, s, n - 2) then "" else [s[n - 2]];
    }
  }

  lemma {:induction false} NothingToRemove(t: Alphabet, s: string, n: nat)
    requires n <= |s| && forall i :: 0 <= i < |s| ==> !Removed(t, s, i)
    ensures Kept(t, s, n) == s[..n]
  {
    if n > 0 {
      NothingToRemove(t, s, n - 1);
    }
  }

  lemma {:induction false} NormNumIdempotent(t: Alphabet, s: string)
    requires Sound(t)
    ensures NormNum(t, NormNum(t, s)) == NormNum(t, s)
  {
    var l := Lower(t, s);
    var k := Kept(t, l, |l|);
    LowerStable(t, s);
    KeptFrom(t, l, |l|);
    LowerFixes(t, k);
    NothingLeft(t, l, |l|);
    NothingToRemove(t, k, |k|);
    assert k[..|k|] == k;
  }

  /** One more group: its dot goes and its digits stay. */
  lemma {:induction false} StripsGroup(t: Alphabet, s: string, p: nat, dot: nat, d: string, last: string)
    requires Sound(t) && 0 < dot && p <= dot && dot + 4 <= |s| && |last| == 3 && AllDigits(last)
    requires IsDigit(s[dot - 1]) && s[dot] == '.' && s[dot + 1..dot + 4] == last
    requires Kept(t, s, dot) == Kept(t, s, p) + d
    ensures Kept(t, s, dot + 4) == Kept(t, s, p) + (d + last)
  {
    assert s[dot + 1] == s[dot + 1..dot + 4][0] == last[0];
    assert Removed(t, s, dot);
    assert Kept(t, s, dot + 1) == Kept(t, s, dot);
    KeepsDigits(t, s, dot + 1, last);
  }

  lemma {:induction false} SlicePart(s: string, p: nat, g: string, i: nat, j: nat)
    requires p + |g| <= |s| && s[p..p + |g|] == g && i <= j <= |g|
    ensures s[p + i..p + j] == g[i..j]
  {
    forall k | i <= k < j ensures s[p + k] == g[k] {
      SliceAt(s, p, g, k);
    }
  }

  lemma {:induction false} SliceAt(s: string, p: nat, g: string, i: nat)
    requires p + |g| <= |s| && s[p..p + |g|] == g && i < |g|
    ensures s[p + i] == g[i]
  {
    assert s[p..p + |g|][i] == s[p + i];
  }

  /** Inside any text, a number in groups is stripped to its digits. */
  lemma {:induction false} StripsCut(t: Alphabet, s: string, p: nat, g: string, d: string)
    requires Sound(t) && Cut(g, d) && p + |g| <= |s| && s[p..p + |g|] == g
    ensures Kept(t, s, p + |g|) == Kept(t, s, p) + d
    decreases |g|
  {
    if |g| > 4 && g[|g| - 4] == '.' {
      var head, lead, last := CutSplit(g, d);
      HeadPlace(s, p, g, head, "." + last);
      StripsCut(t, s, p, head, lead);
      StripsWhole(t, s, p, g, d, head, lead, last);
    } else {
      KeepsDigits(t, s, p, g);
    }
  }

  lemma {:induction false} StripsWhole(t: Alphabet, s: string, p: nat, g: string, d: string, head: string, lead: string, last: string)
    requires g == head + ("." + last) && d == lead + last
    requires Sound(t) && head != "" && IsDigit(head[|head| - 1]) && |last| == 3 && AllDigits(last)
    requires p + |g| <= |s| && s[p..p + |g|] == g
    requires Kept(t, s, p + |head|) == Kept(t, s, p) + lead
    ensures Kept(t, s, p + |g|) == Kept(t, s, p) + d
  {
    StripsLast(t, s, p, head, lead, last);
  }

  lemma {:induction false} HeadPlace(s: string, p: nat, g: string, head: string, rest: string)
    requires g == head + rest && p + |g| <= |s| && s[p..p + |g|] == g
    ensures s[p..p + |head|] == head
  {
    SlicePart(s, p, g, 0, |head|);
  }

  lemma {:induction false} StripsLast(t: Alphabet, s: string, p: nat, head: string, lead: string, last: string)
    requires Sound(t) && head != "" && IsDigit(head[|head| - 1]) && |last| == 3 && AllDigits(last)
    requires p + |head| + 4 <= |s| && s[p..p + |head| + 4] == head + ("." + last)
    requires Kept(t, s, p + |head|) == Kept(t, s, p) + lead
    ensures Kept(t, s, p + |head| + 4) == Kept(t, s, p) + (lead + last)
  {
    CutPlaces(s, p, head, last);
    StripsGroup(t, s, p, p + |head|, lead, last);
  }

  /** Where head, dot and last group of a number in groups stand in the text. */
  lemma {:induction false} CutPlaces(s: string, p: nat, head: string, last: string)
    requires var g := head + ("." + last); p + |g| <= |s| && s[p..p + |g|] == g && head != "" && |last| == 3
    ensures var dot := p + |head|;
            s[p..dot] == head && s[dot - 1] == head[|head| - 1] && s[dot] == '.' && s[dot + 1..dot + 4] == last
  {
    var g := head + ("." + last);
    GroupParts(head, last);
    SlicePart(s, p, g, 0, |head|);
    SlicePart(s, p, g, |head| + 1, |g|);
    SliceAt(s, p, g, |head| - 1);
    SliceAt(s, p, g, |head|);
  }

  lemma {:induction false} GroupParts(head: string, last: string)
    requires head != ""
    ensures var g := head + ("." + last);
            g[0..|head|] == head && g[|head| - 1] == head[|head| - 1] && g[|head|] == '.' && g[|head| + 1..|g|] == last
  {
  }

  lemma {:induction false} KeepsDigits(t: Alphabet, s: string, p: nat, d: string)
    requires Sound(t) && p + |d| <= |s| && AllDigits(d) && s[p..p + |d|] == d
    ensures Kept(t, s, p + |d|) == Kept(t, s, p) + d
    decreases |d|
  {
    if |d| > 0 {
      var e := d[..|d| - 1];
      assert s[p..p + |e|] == s[p..p + |d|][..|e|] == e;
      assert s[p + |d| - 1] == s[p..p + |d|][|d| - 1] == d[|d| - 1];
      KeepsDigits(t, s, p, e);
      assert d == e + [d[|d| - 1]];
    }
  }

  lemma {:induction false} ContainsAfter(hay: string, p: string, needle: string)
    requires p + needle <= hay
    ensures Contains(hay, needle)
  {
    assert hay[|p|..|p| + |needle|] == (p + needle)[|p|..] == needle;
    assert HeldAt(hay, needle, |p|);
  }

  lemma {:induction false} ContainsHead(hay: string, head: string, rest: string)
    requires Contains(hay, head + rest)
    ensures Contains(hay, head)
  {
    var i :| 0 <= i <= |hay| && HeldAt(hay, head + rest, i);
    assert hay[i..i + |head|] == hay[i..i + |head + rest|][..|head|] == head;
    assert HeldAt(hay, head, i);
  }

  lemma {:induction false} LowerKeepsCut(t: Alphabet, g: string, d: string)
    requires Sound(t) && Cut(g, d)
    ensures Lower(t, g) == g
  {
    CutCharacters(g, d);
    forall i | 0 <= i < |g| ensures t.low(g[i]) == [g[i]] {
      assert IsDigit(g[i]) || IsSeparator(g[i]);
    }
    LowerFixes(t, g);
  }

  lemma {:induction false} CutCharacters(g: string, d: string)
    requires Cut(g, d)
    ensures forall i :: 0 <= i < |g| ==> IsDigit(g[i]) || g[i] == '.'
    decreases |g|
  {
    if |g| > 4 && g[|g| - 4] == '.' {
      var head, lead, last := CutSplit(g, d);
      CutCharacters(head, lead);
      forall i | 0 <= i < |g| ensures IsDigit(g[i]) || g[i] == '.' {
        assert g[i] == if i < |head| then head[i] else if i == |head| then '.' else last[i - |head| - 1];
      }
    }
  }

  lemma {:induction false} KeptHolds(t: Alphabet, a: string, g: string, d: string, b: string)
    requires Sound(t) && Cut(g, d)
    ensures Contains(Kept(t, a + g + b, |a + g + b|), d)
  {
    var s := a + g + b;
    assert s[|a|..|a| + |g|] == g;
    StripsCut(t, s, |a|, g, d);
    KeptPrefix(t, s, |a| + |g|, |s|);
    ContainsAfter(Kept(t, s, |s|), Kept(t, s, |a|), d);
  }

  /** Whatever stands around it, a number in groups normalises to text holding its plain digits. */
  lemma {:induction false} NormalisedHoldsDigits(t: Alphabet, pre: string, g: string, d: string, post: string)
    requires Sound(t) && Cut(g, d)
    ensures Contains(NormNum(t, pre + g + post), d)
  {
    LowerKeepsCut(t, g, d);
    LowerConcat(t, pre + g, post);
    LowerConcat(t, pre, g);
    KeptHolds(t, Lower(t, pre), g, d, Lower(t, post));
  }

  function Abs(v: int): nat {
    if v < 0 then -v else v
  }

  lemma {:induction false} AroundTheNumber(pre: string, v: int, post: string) returns (before: string, after: string)
    ensures pre + FormatVnd(v) + post == before + Grouped(Abs(v)) + after
  {
    var g := Grouped(Abs(v));
    var sign := if v < 0 then "-" else "";
    before, after := pre + sign, [MARK] + post;
    assert pre + (sign + g + [MARK]) + post == (pre + sign) + g + ([MARK] + post);
    assert Unmarked(v) == sign + g;
  }

  /** Whatever stands around it, a printed price normalises to text holding its plain digits. */
  lemma {:induction false} QuotedPriceNormalises(t: Alphabet, pre: string, v: int, post: string)
    requires Sound(t)
    ensures Contains(NormNum(t, pre + FormatVnd(v) + post), Digits(Abs(v)))
  {
    var before, after := AroundTheNumber(pre, v, post);
    GroupedIsCut(Abs(v));
    NormalisedHoldsDigits(t, before, Grouped(Abs(v)), Digits(Abs(v)), after);
  }

  lemma {:induction false} PlainDigitsNormal(t: Alphabet, n: nat)
    requires Sound(t)
    ensures NormNum(t, Digits(n)) == Digits(n)
  {
    LowerFixes(t, Digits(n));
    NothingToRemove(t, Digits(n), |Digits(n)|);
    assert Digits(n)[..|Digits(n)|] == Digits(n);
  }

  // The scorers.

  datatype Verdict = PassRefuse | HalluBreach | Pass | RefuseGap | Wrong | Answered | Refuse

  predicate Hit(t: Alphabet, wanted: string, hay: string) {
    Contains(Lower(t, hay), Lower(t, wanted)) || Contains(NormNum(t, hay), NormNum(t, wanted))
  }

  /** `_score_one`: `refused` stands for the refusal phrases and the blocked answer type. */
  function ScoreOne(t: Alphabet, trap: bool, refused: bool, wanted: Option<string>, answer: string): Verdict {
    if trap then
      if refused then PassRefuse else HalluBreach
    else if wanted.Some? && wanted.value != "" then
      if Hit(t, wanted.value, answer) then Pass else if refused then RefuseGap else Wrong
    else
      if answer != "" && !refused then Answered else Refuse
  }

  /** `_contains` of the end-to-end evaluation. */
  predicate ContainsEither(t: Alphabet, wanted: string, hay: string) {
    wanted != "" && hay != "" && Hit(t, wanted, hay)
  }

  /** Which verdict means what. */
  lemma {:induction false} VerdictsExactly(t: Alphabet, trap: bool, refused: bool, wanted: Option<string>, answer: string)
    ensures var verdict := ScoreOne(t, trap, refused, wanted, answer);
            var expects := wanted.Some? && wanted.value != "";
            var hit := expects && Hit(t, wanted.value, answer);
            && (verdict == PassRefuse <==> trap && refused) && (verdict == HalluBreach <==> trap && !refused)
            && (verdict == Pass <==> !trap && hit)
            && (verdict == RefuseGap <==> !trap && expects && !hit && refused)
            && (verdict == Wrong <==> !trap && expects && !hit && !refused)
            && (verdict == Answered <==> !trap && !expects && answer != "" && !refused)
            && (verdict == Refuse <==> !trap && !expects && (answer == "" || refused))
  {
  }

  /** An answer that quotes the expected text in any case passes, even where stripping would join the
      quote to a number beside it; nothing is expected of an empty text, nor found in one. */
  lemma {:induction false} QuotedTextPasses(t: Alphabet, refused: bool, pre: string, quote: string, post: string, wanted: string)
    requires Lower(t, quote) == Lower(t, wanted)
    ensures wanted != "" ==> ScoreOne(t, false, refused, Some(wanted), pre + quote + post) == Pass
    ensures ContainsEither(t, wanted, pre + quote + post) <==> wanted != "" && pre + quote + post != ""
  {
    QuoteHeld(t, pre, quote, post);
    HeldPasses(t, refused, wanted, pre + quote + post);
  }

  lemma {:induction false} QuoteHeld(t: Alphabet, pre: string, quote: string, post: string)
    ensures Contains(Lower(t, pre + quote + post), Lower(t, quote))
  {
    LowerConcat(t, pre + quote, post);
    LowerConcat(t, pre, quote);
    InTheMiddle(Lower(t, pre), Lower(t, quote), Lower(t, post));
  }

  lemma {:induction false} InTheMiddle(pre: string, needle: string, post: string)
    ensures Contains(pre + needle + post, needle)
  {
    assert HeldAt(pre + needle + post, needle, |pre|);
  }

  lemma {:induction false} HeldPasses(t: Alphabet, refused: bool, wanted: string, hay: string)
    requires Contains(Lower(t, hay), Lower(t, wanted))
    ensures wanted != "" ==> ScoreOne(t, false, refused, Some(wanted), hay) == Pass
    ensures ContainsEither(t, wanted, hay) <==> wanted != "" && hay != ""
  {
  }

  /** Between two digits a dot, a comma or white space goes, and any other character stays. */
  lemma {:induction false} BetweenDigits(t: Alphabet, c: char, d: char, e: char)
    requires Sound(t) && IsDigit(d) && IsDigit(e) && t.low(c) == [c]
    ensures NormNum(t, [d, c, e]) == if c == '.' || c == ',' || IsSpace(c) then [d, e] else [d, c, e]
  {
    var s := [d, c, e];
    LowerFixes(t, s);
    KeptThree(t, s);
  }

  lemma {:induction false} KeptThree(t: Alphabet, s: string)
    requires |s| == 3
    ensures Kept(t, s, 3) == [s[0]] + (if Removed(t, s, 1) then "" else [s[1]]) + [s[2]]
  {
    assert Kept(t, s, 1) == Kept(t, s, 0) + [s[0]];
    assert Kept(t, s, 2) == Kept(t, s, 1) + if Removed(t, s, 1) then "" else [s[1]];
  }

  /** The currency mark, U+0111. */
  lemma {:induction false} MarkEndsPrices(v: int)
    ensures |FormatVnd(v)| > 0 && FormatVnd(v)[|FormatVnd(v)| - 1] == '\U{111}'
  {
  }

  /** The facts about characters that the results rely on can be had: of the ASCII letters and digits
      and the mark they are true. */
  lemma {:induction false} SoundAlphabet() returns (t: Alphabet)
    ensures Sound(t)
  {
    t := Alphabet(c => IsDigit(c), c => IsDigit(c) || 'a' <= c <= 'z' || c == MARK, c => [c]);
  }

  /** An answer quoting the printed price passes whatever else it says, refusal phrases included. */
  lemma {:induction false} QuotedPricePasses(t: Alphabet, refused: bool, pre: string, v: nat, post: string)
    requires Sound(t)
    ensures ScoreOne(t, false, refused, Some(Digits(v)), pre + FormatVnd(v) + post) == Pass
    ensures ContainsEither(t, Digits(v), pre + FormatVnd(v) + post)
  {
    QuotedPriceNormalises(t, pre, v, post);
    PlainDigitsNormal(t, v);
  }

  /** The match is by substring: quoting any price whose digits hold those of v passes. */
  lemma {:induction false} HoldingPricePasses(t: Alphabet, refused: bool, pre: string, v: nat, w: nat, post: string)
    requires Sound(t) && Contains(Digits(w), Digits(v))
    ensures ScoreOne(t, false, refused, Some(Digits(v)), pre + FormatVnd(w) + post) == Pass
    ensures ContainsEither(t, Digits(v), pre + FormatVnd(w) + post)
  {
    QuotedPriceNormalises(t, pre, w, post);
    PlainDigitsNormal(t, v);
    ContainsThrough(NormNum(t, pre + FormatVnd(w) + post), Digits(w), Digits(v));
  }

  /** Such as any price a thousandfold larger. */
  lemma {:induction false} LongerPriceAlsoPasses(t: Alphabet, refused: bool, pre: string, v: nat, r: nat, post: string)
    requires Sound(t) && v > 0 && r < 1000
    ensures ScoreOne(t, false, refused, Some(Digits(v)), pre + FormatVnd(1000 * v + r) + post) == Pass
    ensures ContainsEither(t, Digits(v), pre + FormatVnd(1000 * v + r) + post)
  {
    LongerHolds(v, r);
    HoldingPricePasses(t, refused, pre, v, 1000 * v + r, post);
  }

  lemma {:induction false} LongerHolds(v: nat, r: nat)
    requires v > 0 && r < 1000
    ensures Contains(Digits(1000 * v + r), Digits(v))
  {
    var w := 1000 * v + r;
    assert w / 1000 == v;
    DigitsByThousand(w);
    assert HeldAt(Digits(w), Digits(w), 0);
    ContainsHead(Digits(w), Digits(v), Three(w % 1000));
  }

  /** No digit in the text, as the scorers see it. */
  ghost predicate DigitFree(t: Alphabet, s: string) {
    forall c :: c in Lower(t, s) ==> !t.digit(c)
  }

  /** An answer whose only number is a printed price passes exactly when its digits hold those
      expected. */
  lemma {:induction false} PrintedPricePassesExactly(t: Alphabet, refused: bool, pre: string, v: nat, w: nat, post: string)
    requires Sound(t) && DigitFree(t, pre) && DigitFree(t, post)
    ensures var answer := pre + FormatVnd(w) + post;
            && (ScoreOne(t, false, refused, Some(Digits(v)), answer) == Pass <==> Contains(Digits(w), Digits(v)))
            && (ContainsEither(t, Digits(v), answer) <==> Contains(Digits(w), Digits(v)))
  {
    if Contains(Digits(w), Digits(v)) {
      HoldingPricePasses(t, refused, pre, v, w, post);
    } else {
      HitOnlyHolding(t, pre, v, w, post);
    }
  }

  lemma {:induction false} HitOnlyHolding(t: Alphabet, pre: string, v: nat, w: nat, post: string)
    requires Sound(t) && DigitFree(t, pre) && DigitFree(t, post) && !Contains(Digits(w), Digits(v))
    ensures !Hit(t, Digits(v), pre + FormatVnd(w) + post)
  {
    var g, d, x := Grouped(w), Digits(w), Digits(v);
    var a, b := Lower(t, pre), [MARK] + Lower(t, post);
    PlainDigitsNormal(t, v);
    LowerFixes(t, x);
    GroupedIsCut(w);
    LowerOfQuote(t, pre, g, d, post);
    NotInLower(a, g, d, b, x, w);
    NotInKept(t, a, g, d, b, x);
  }

  lemma {:induction false} LowerOfQuote(t: Alphabet, pre: string, g: string, d: string, post: string)
    requires Sound(t) && Cut(g, d)
    ensures Lower(t, pre + (g + [MARK]) + post) == Lower(t, pre) + g + ([MARK] + Lower(t, post))
  {
    LowerConcat(t, pre + (g + [MARK]), post);
    LowerConcat(t, pre, g + [MARK]);
    MarkedLower(t, g, d);
    Regrouped(Lower(t, pre), g, [MARK], Lower(t, post));
  }

  /** A printed price in lower case. */
  lemma {:induction false} MarkedLower(t: Alphabet, g: string, d: string)
    requires Sound(t) && Cut(g, d)
    ensures Lower(t, g + [MARK]) == g + [MARK]
  {
    LowerKeepsCut(t, g, d);
    LowerConcat(t, g, [MARK]);
    LowerFixes(t, [MARK]);
  }

  lemma {:induction false} Regrouped(a: string, b: string, c: string, d: string)
    ensures a + (b + c) + d == a + b + (c + d)
  {
  }

  ghost predicate NoDigits(s: string) {
    forall c :: c in s ==> !IsDigit(c)
  }

  lemma {:induction false} NotInLower(a: string, g: string, d: string, b: string, x: string, w: nat)
    requires NoDigits(a) && NoDigits(b) && g == Grouped(w) && d == Digits(w)
    requires x != "" && AllDigits(x) && !Contains(d, x)
    ensures !Contains(a + g + b, x)
  {
    if Contains(a + g + b, x) {
      InMiddle(a, g, b, x);
      WithoutHolds(g, x);
      WithoutGrouped(w);
    }
  }

  lemma {:induction false} NotInKept(t: Alphabet, a: string, g: string, d: string, b: string, x: string)
    requires Sound(t) && Cut(g, d) && NoDigits(a) && NoDigits(b) && x != "" && AllDigits(x) && !Contains(d, x)
    ensures !Contains(Kept(t, a + g + b, |a + g + b|), x)
  {
    var s := a + g + b;
    var before, after := KeptAround(t, a, g, d, b);
    if Contains(Kept(t, s, |s|), x) {
      InMiddle(before, d, after, x);
    }
  }

  /** What is kept of a text around a number in groups. */
  lemma {:induction false} KeptAround(t: Alphabet, a: string, g: string, d: string, b: string) returns (before: string, after: string)
    requires Sound(t) && Cut(g, d) && NoDigits(a) && NoDigits(b)
    ensures Kept(t, a + g + b, |a + g + b|) == before + d + after && NoDigits(before) && NoDigits(after)
  {
    Slices(a, g, b);
    before, after := KeptAt(t, a + g + b, |a|, g, d);
  }

  lemma {:induction false} KeptAt(t: Alphabet, s: string, p: nat, g: string, d: string) returns (before: string, after: string)
    requires Sound(t) && Cut(g, d) && p + |g| <= |s| && s[p..p + |g|] == g
    requires NoDigits(s[0..p]) && NoDigits(s[p + |g|..|s|])
    ensures Kept(t, s, |s|) == before + d + after && NoDigits(before) && NoDigits(after)
  {
    StripsCut(t, s, p, g, d);
    before := KeptNoDigits(t, s, 0, p);
    after := KeptNoDigits(t, s, p + |g|, |s|);
    Glued(Kept(t, s, 0), before, d, after);
  }

  lemma {:induction false} Glued(nothing: string, a: string, b: string, c: string)
    requires nothing == ""
    ensures nothing + a + b + c == a + b + c
  {
    assert nothing + a == a;
  }

  lemma {:induction false} KeptNoDigits(t: Alphabet, s: string, m: nat, n: nat) returns (part: string)
    requires m <= n <= |s| && NoDigits(s[m..n])
    ensures Kept(t, s, n) == Kept(t, s, m) + part && NoDigits(part)
  {
    part := KeptPart(t, s, m, n);
  }

  lemma {:induction false} Slices(a: string, g: string, b: string)
    ensures var s := a + g + b; s[0..|a|] == a && s[|a|..|a| + |g|] == g && s[|a| + |g|..|s|] == b
  {
  }

  /** What is kept of a part of the text. */
  lemma {:induction false} KeptPart(t: Alphabet, s: string, m: nat, n: nat) returns (part: string)
    requires m <= n <= |s|
    ensures Kept(t, s, n) == Kept(t, s, m) + part
    ensures forall c :: c in part ==> c in s[m..n]
    decreases n
  {
    if m == n {
      part := "";
    } else {
      var front := KeptPart(t, s, m, n - 1);
      part := front + if Removed(t, s, n - 1) then "" else [s[n - 1]];
      assert s[m..n] == s[m..n - 1] + [s[n - 1]];
    }
  }

  /** Digits found in a text are found in the part that has all its digits. */
  lemma {:induction false} InMiddle(a: string, middle: string, b: string, x: string)
    requires NoDigits(a) && NoDigits(b) && x != "" && AllDigits(x) && Contains(a + middle + b, x)
    ensures Contains(middle, x)
  {
    var hay := a + middle + b;
    var i :| 0 <= i <= |hay| && HeldAt(hay, x, i);
    SliceAt(hay, i, x, 0);
    SliceAt(hay, i, x, |x| - 1);
    InsideMiddle(a, middle, b, i);
    InsideMiddle(a, middle, b, i + |x| - 1);
    var k := i - |a|;
    assert middle[k..k + |x|] == hay[i..i + |x|];
    assert HeldAt(middle, x, k);
  }

  lemma {:induction false} InsideMiddle(a: string, middle: string, b: string, i: nat)
    requires NoDigits(a) && NoDigits(b) && i < |a + middle + b| && IsDigit((a + middle + b)[i])
    ensures |a| <= i < |a| + |middle|
  {
    if i < |a| || i >= |a| + |middle| {
      NoDigitAt(a, middle, b, i);
    }
  }

  lemma {:induction false} NoDigitAt(a: string, middle: string, b: string, i: nat)
    requires NoDigits(a) && NoDigits(b) && (i < |a| || |a| + |middle| <= i < |a + middle + b|)
    ensures !IsDigit((a + middle + b)[i])
  {
    if i < |a| {
      assert a[i] in a;
    } else {
      assert b[i - |a| - |middle|] in b;
    }
  }

  lemma {:induction false} ContainsThrough(hay: string, middle: string, needle: string)
    requires Contains(hay, middle) && Contains(middle, needle)
    ensures Contains(hay, needle)
  {
    var i :| 0 <= i <= |hay| && HeldAt(hay, middle, i);
    var j :| 0 <= j <= |middle| && HeldAt(middle, needle, j);
    SlicePart(hay, i, middle, j, j + |needle|);
    assert HeldAt(hay, needle, i + j);
  }

  /** Digits found in a number with its dots are found without them. */
  lemma {:induction false} WithoutHolds(s: string, digits: string)
    requires AllDigits(digits) && Contains(s, digits)
    ensures Contains(Without(s), digits)
  {
    var i :| 0 <= i <= |s| && HeldAt(s, digits, i);
    var a, b := s[..i], s[i + |digits|..];
    assert s == a + digits + b;
    WithoutConcat(a + digits, b);
    WithoutConcat(a, digits);
    WithoutDigits(digits);
    ContainsAfter(Without(s), Without(a), digits);
  }

  // The integer reader.

  function Without(s: string): string {
    if |s| == 0 then "" else
    Without(s[..|s| - 1]) + if s[|s| - 1] == '.' || IsSpace(s[|s| - 1]) then "" else [s[|s| - 1]]
  }

  function AsInt(tok: string): Option<nat> {
    var d := Without(tok);
    if d != "" && AllDigits(d) then Some(Value(d)) else None
  }

  /** A token without digits is no number. */
  lemma {:induction false} NoNumber(tok: string)
    requires forall i :: 0 <= i < |tok| ==> tok[i] == '.' || IsSpace(tok[i])
    ensures AsInt(tok) == None
  {
    NothingWithout(tok);
  }

  lemma {:induction false} NothingWithout(tok: string)
    requires forall i :: 0 <= i < |tok| ==> tok[i] == '.' || IsSpace(tok[i])
    ensures Without(tok) == ""
  {
    if |tok| > 0 {
      NothingWithout(tok[..|tok| - 1]);
    }
  }

  lemma {:induction false} WithoutConcat(a: string, b: string)
    ensures Without(a + b) == Without(a) + Without(b)
    decreases |b|
  {
    if |b| > 0 {
      WithoutConcat(a, b[..|b| - 1]);
      assert (a + b)[..|a + b| - 1] == a + b[..|b| - 1];
    } else {
      assert a + b == a;
    }
  }

  lemma {:induction false} WithoutDigits(s: string)
    requires AllDigits(s)
    ensures Without(s) == s
  {
    if |s| > 0 {
      WithoutDigits(s[..|s| - 1]);
    }
  }

  lemma {:induction false} WithoutGroup(head: string, dot: string, last: string)
    requires dot == "." && AllDigits(last)
    ensures Without(head + (dot + last)) == Without(head) + last
  {
    WithoutConcat(head, dot + last);
    WithoutConcat(dot, last);
    WithoutDigits(last);
  }

  lemma {:induction false} WithoutCut(g: string, d: string)
    requires Cut(g, d)
    ensures Without(g) == d
    decreases |g|
  {
    if |g| > 4 && g[|g| - 4] == '.' {
      var head, lead, last := CutSplit(g, d);
      WithoutCut(head, lead);
      WithoutGroup(head, ".", last);
    } else {
      WithoutDigits(g);
    }
  }

  lemma {:induction false} WithoutGrouped(n: nat)
    ensures Without(Grouped(n)) == Digits(n)
  {
    GroupedIsCut(n);
    WithoutCut(Grouped(n), Digits(n));
  }

  /** Reading the printed number without its currency mark gives it back; a negative one is refused. */
  lemma {:induction false} AsIntReadsBack(v: int)
    ensures AsInt(Unmarked(v)) == if v < 0 then None else Some(v)
  {
    if v < 0 {
      WithoutConcat("-", Grouped(-v));
      assert Without("-") == "-" by { assert "-"[..0] == ""; }
      assert Without(Unmarked(v))[0] == '-';
    } else {
      WithoutGrouped(v);
      ReadsBack(v);
    }
  }

  lemma {:induction false} GroupedInjective(v: nat, w: nat)
    requires Grouped(v) == Grouped(w)
    ensures v == w
  {
    WithoutGrouped(v);
    WithoutGrouped(w);
    ReadsBack(v);
    ReadsBack(w);
  }

  lemma {:induction false} FormatInjective(v: int, w: int)
    requires FormatVnd(v) == FormatVnd(w)
    ensures v == w
  {
    SameBody(Unmarked(v), Unmarked(w), MARK);
    AsIntReadsBack(v);
    AsIntReadsBack(w);
    if v < 0 && w < 0 {
      SameTail('-', Grouped(-v), Grouped(-w));
      GroupedInjective(-v, -w);
    }
  }

  lemma {:induction false} SameBody(a: string, b: string, last: char)
    requires a + [last] == b + [last]
    ensures a == b
  {
    assert a == (a + [last])[..|a + [last]| - 1] == (b + [last])[..|b + [last]| - 1] == b;
  }

  lemma {:induction false} SameTail(first: char, a: string, b: string)
    requires [first] + a == [first] + b
    ensures a == b
  {
    assert a == ([first] + a)[1..] == ([first] + b)[1..] == b;
  }
}
