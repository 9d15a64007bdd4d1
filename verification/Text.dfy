/** What the scripts ask of Python strings: white space, stripping, and their order. */
module Text {
  import opened Sorting

  /** White space, for `str.strip` and the `\s` of regular expressions. */
  predicate IsSpace(c: char) {
    '\t' <= c <= '\r' || '\U{1C}' <= c <= ' ' || c == '\U{85}' || c == '\U{A0}' || c == '\U{1680}'
    || '\U{2000}' <= c <= '\U{200A}' || c == '\U{2028}' || c == '\U{2029}' || c == '\U{202F}'
    || c == '\U{205F}' || c == '\U{3000}'
  }

  /** Tab, line feed, vertical tab, form feed, carriage return, the four separators, space, and the
      spaces of the higher planes. */
  lemma {:induction false} SpacesAre(c: char)
    ensures IsSpace(c) <==>
              c in {'\t', '\n', '\U{B}', '\U{C}', '\r', '\U{1C}', '\U{1D}', '\U{1E}', '\U{1F}', ' ', '\U{85}', '\U{A0}',
                    '\U{1680}', '\U{2000}', '\U{2001}', '\U{2002}', '\U{2003}', '\U{2004}', '\U{2005}', '\U{2006}',
                    '\U{2007}', '\U{2008}', '\U{2009}', '\U{200A}', '\U{2028}', '\U{2029}', '\U{202F}', '\U{205F}', '\U{3000}'}
  {
  }

  /** `str.strip` */
  function Strip(s: string): (r: string)
    ensures |r| > 0 ==> !IsSpace(r[0]) && !IsSpace(r[|r| - 1])
    decreases |s|
  {
    if |s| > 0 && IsSpace(s[0]) then Strip(s[1..])
    else if |s| > 0 && IsSpace(s[|s| - 1]) then Strip(s[..|s| - 1])
    else s
  }

  ghost predicate Blank(s: string) {
    forall i :: 0 <= i < |s| ==> IsSpace(s[i])
  }

  /** Stripping takes white space from both ends and nothing else. */
  lemma {:induction false} StripIs(s: string) returns (pre: string, post: string)
    ensures s == pre + Strip(s) + post && Blank(pre) && Blank(post)
    ensures Strip(s) == "" <==> Blank(s)
    decreases |s|
  {
    if |s| > 0 && IsSpace(s[0]) {
      pre, post := StripIs(s[1..]);
      BlankParts([s[0]], s[1..]);
      BlankParts([s[0]], pre);
      MoreBefore([s[0]], pre, Strip(s), post);
      assert s == [s[0]] + s[1..];
      pre := [s[0]] + pre;
    } else if |s| > 0 && IsSpace(s[|s| - 1]) {
      pre, post := StripIs(s[..|s| - 1]);
      BlankParts(s[..|s| - 1], [s[|s| - 1]]);
      BlankParts(post, [s[|s| - 1]]);
      MoreAfter(pre, Strip(s), post, [s[|s| - 1]]);
      assert s == s[..|s| - 1] + [s[|s| - 1]];
      post := post + [s[|s| - 1]];
    } else {
      pre, post := "", "";
    }
  }

  lemma {:induction false} MoreBefore(more: string, a: string, b: string, c: string)
    ensures more + (a + b + c) == more + a + b + c
  {
  }

  lemma {:induction false} MoreAfter(a: string, b: string, c: string, more: string)
    ensures a + b + c + more == a + b + (c + more)
  {
  }

  lemma {:induction false} BlankParts(a: string, b: string)
    ensures Blank(a + b) <==> Blank(a) && Blank(b)
  {
    if Blank(a + b) {
      forall i | 0 <= i < |a| ensures IsSpace(a[i]) {
        assert (a + b)[i] == a[i];
      }
      forall i | 0 <= i < |b| ensures IsSpace(b[i]) {
        assert (a + b)[|a| + i] == b[i];
      }
    }
  }

  predicate HeldAt(hay: string, needle: string, i: nat) {
    i + |needle| <= |hay| && hay[i..i + |needle|] == needle
  }

  /** `needle in hay` */
  predicate Contains(hay: string, needle: string) {
    exists i | 0 <= i <= |hay| :: HeldAt(hay, needle, i)
  }

  /** Python's order on strings. */
  predicate StringLe(a: string, b: string) {
    a == [] || (b != [] && (a[0] < b[0] || (a[0] == b[0] && StringLe(a[1..], b[1..]))))
  }

  /** It is decided by the first difference, and a prefix comes first. */
  lemma {:induction false} FirstDifference(common: string, c: char, rest: string, d: char, other: string)
    requires c != d
    ensures StringLe(common + [c] + rest, common + [d] + other) <==> c < d
    ensures StringLe(common, common + [c] + rest) && !StringLe(common + [c] + rest, common)
  {
    if common != "" {
      FirstDifference(common[1..], c, rest, d, other);
      assert (common + [c] + rest)[1..] == common[1..] + [c] + rest;
      assert (common + [d] + other)[1..] == common[1..] + [d] + other;
    }
  }

  lemma {:induction false} StringLeTotal(a: string, b: string)
    ensures StringLe(a, b) || StringLe(b, a)
    ensures StringLe(a, b) && StringLe(b, a) ==> a == b
  {
    if a != [] && b != [] && a[0] == b[0] {
      StringLeTotal(a[1..], b[1..]);
      assert a == [a[0]] + a[1..] && b == [b[0]] + b[1..];
    }
  }

  lemma {:induction false} StringLeTransitive(a: string, b: string, c: string)
    requires StringLe(a, b) && StringLe(b, c)
    ensures StringLe(a, c)
  {
    if a != [] && a[0] == b[0] && b[0] == c[0] {
      StringLeTransitive(a[1..], b[1..], c[1..]);
    }
  }

  lemma {:induction false} StringOrder()
    ensures TotalOrder(StringLe) && Antisymmetric(StringLe)
  {
    forall a, b ensures StringLe(a, b) || StringLe(b, a) {
      StringLeTotal(a, b);
    }
    forall a, b | StringLe(a, b) && StringLe(b, a) ensures a == b {
      StringLeTotal(a, b);
    }
    forall a, b, c | StringLe(a, b) && StringLe(b, c) ensures StringLe(a, c) {
      StringLeTransitive(a, b, c);
    }
  }
}
