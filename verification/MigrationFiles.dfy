/** Alembic migration files as `scripts/alembic_dedup_renumber.py` and
    `scripts/alembic_linearize_chain.py` read and rewrite them, and the order the latter sorts
    revisions by. */
module MigrationFiles {
  import opened Wrappers
  import opened Decimal
  import opened Text

  /** A line that assigns a quoted revision, a quoted down revision, or neither.  Reading strips
      indentation, rewriting only sees lines that start in the first column. */
  datatype Line = Rev(indented: bool, id: string) | Down(indented: bool, id: string) | Other(text: string)

  datatype File = File(name: string, lines: seq<Line>)

  // ---- reading: the last match wins ----

  function RevOf(lines: seq<Line>): Option<string> {
    if lines == [] then None
    else if lines[|lines| - 1].Rev? then Some(lines[|lines| - 1].id)
    else RevOf(lines[..|lines| - 1])
  }

  function DownOf(lines: seq<Line>): Option<string> {
    if lines == [] then None
    else if lines[|lines| - 1].Down? then Some(lines[|lines| - 1].id)
    else DownOf(lines[..|lines| - 1])
  }

  /** `parse_rev` */
  method ParseRev(lines: seq<Line>) returns (rev: Option<string>, down: Option<string>)
    ensures rev == RevOf(lines) && down == DownOf(lines)
  {
    rev, down := None, None;
    for i := 0 to |lines|
      invariant rev == RevOf(lines[..i]) && down == DownOf(lines[..i])
    {
      assert lines[..i + 1][..i] == lines[..i];
      if lines[i].Rev? {
        rev := Some(lines[i].id);
      }
      if lines[i].Down? {
        down := Some(lines[i].id);
      }
    }
    assert lines[..|lines|] == lines;
  }

  // ---- rewriting: the first match in column one ----

  /** Position of the first unindented down-revision line, or the length. */
  function FirstDown(lines: seq<Line>): nat {
    if lines == [] then 0
    else if lines[0].Down? && !lines[0].indented then 0
    else 1 + FirstDown(lines[1..])
  }

  /** Position of the first unindented line that assigns revision `id`, or the length. */
  function FirstRev(lines: seq<Line>, id: string): nat {
    if lines == [] then 0
    else if lines[0] == Rev(false, id) then 0
    else 1 + FirstRev(lines[1..], id)
  }

  /** `set_down_revision` */
  function SetDown(lines: seq<Line>, id: string): seq<Line> {
    var k := FirstDown(lines);
    if k < |lines| then lines[k := Down(false, id)] else lines
  }

  function SetRev(lines: seq<Line>, was: string, id: string): seq<Line> {
    var k := FirstRev(lines, was);
    if k < |lines| then lines[k := Rev(false, id)] else lines
  }

  lemma {:induction false} FirstDownIs(lines: seq<Line>)
    ensures var k := FirstDown(lines);
            && k <= |lines| && (k < |lines| ==> lines[k].Down? && !lines[k].indented)
            && forall i :: 0 <= i < k ==> !(lines[i].Down? && !lines[i].indented)
  {
    if lines != [] {
      FirstDownIs(lines[1..]);
    }
  }

  lemma {:induction false} FirstRevIs(lines: seq<Line>, id: string)
    ensures var k := FirstRev(lines, id);
            && k <= |lines| && (k < |lines| ==> lines[k] == Rev(false, id))
            && forall i :: 0 <= i < k ==> lines[i] != Rev(false, id)
  {
    if lines != [] {
      FirstRevIs(lines[1..], id);
    }
  }

  /** The line that reading goes by is the line that rewriting changes. */
  predicate DownEditable(lines: seq<Line>) {
    FirstDown(lines) < |lines| && forall i :: FirstDown(lines) < i < |lines| ==> !lines[i].Down?
  }

  lemma {:induction false} DownIsLast(lines: seq<Line>, k: nat)
    requires k < |lines| && lines[k].Down? && forall i :: k < i < |lines| ==> !lines[i].Down?
    ensures DownOf(lines) == Some(lines[k].id)
  {
    if k < |lines| - 1 {
      DownIsLast(lines[..|lines| - 1], k);
    }
  }

  lemma {:induction false} DownAfter(lines: seq<Line>, k: nat, j: nat, line: Line)
    requires k < j < |lines| && lines[j].Down?
    ensures DownOf(lines[k := line]) == DownOf(lines)
  {
    var n := |lines| - 1;
    if !lines[n].Down? {
      assert lines[k := line][..n] == lines[..n][k := line];
      DownAfter(lines[..n], k, j, line);
    }
  }

  lemma {:induction false} RevUnmoved(lines: seq<Line>, k: nat, id: string)
    requires k < |lines| && lines[k].Down?
    ensures RevOf(lines[k := Down(false, id)]) == RevOf(lines)
  {
    var n := |lines| - 1;
    if k < n && !lines[n].Rev? {
      assert lines[k := Down(false, id)][..n] == lines[..n][k := Down(false, id)];
      RevUnmoved(lines[..n], k, id);
    } else if k == n {
      assert lines[k := Down(false, id)][..n] == lines[..n];
    }
  }

  /** Exactly when a rewritten file reads back with the new down revision; its revision stays. */
  lemma {:induction false} SetDownReadsBack(lines: seq<Line>, id: string)
    ensures DownOf(SetDown(lines, id)) == Some(id) <==> DownEditable(lines) || DownOf(lines) == Some(id)
    ensures RevOf(SetDown(lines, id)) == RevOf(lines)
  {
    FirstDownIs(lines);
    var k := FirstDown(lines);
    if k < |lines| {
      RevUnmoved(lines, k, id);
      if DownEditable(lines) {
        DownIsLast(lines[k := Down(false, id)], k);
      } else {
        var j :| k < j < |lines| && lines[j].Down?;
        DownAfter(lines, k, j, Down(false, id));
      }
    }
  }

  /** The line the revision is read from is the one rewriting finds: the first in column one that
      assigns this revision, with no revision line after it. */
  predicate RevEditable(lines: seq<Line>) {
    RevOf(lines).Some? && var k := FirstRev(lines, RevOf(lines).value);
    k < |lines| && forall i :: k < i < |lines| ==> !lines[i].Rev?
  }

  lemma {:induction false} RevIsLast(lines: seq<Line>, k: nat)
    requires k < |lines| && lines[k].Rev? && forall i :: k < i < |lines| ==> !lines[i].Rev?
    ensures RevOf(lines) == Some(lines[k].id)
  {
    if k < |lines| - 1 {
      RevIsLast(lines[..|lines| - 1], k);
    }
  }

  lemma {:induction false} DownUnmoved(lines: seq<Line>, k: nat, id: string)
    requires k < |lines| && lines[k].Rev?
    ensures DownOf(lines[k := Rev(false, id)]) == DownOf(lines)
    ensures FirstDown(lines[k := Rev(false, id)]) == FirstDown(lines)
  {
    DownOfUnmoved(lines, k, id);
    FirstDownUnmoved(lines, k, id);
  }

  lemma {:induction false} DownOfUnmoved(lines: seq<Line>, k: nat, id: string)
    requires k < |lines| && lines[k].Rev?
    ensures DownOf(lines[k := Rev(false, id)]) == DownOf(lines)
  {
    var n := |lines| - 1;
    if k < n && !lines[n].Down? {
      assert lines[k := Rev(false, id)][..n] == lines[..n][k := Rev(false, id)];
      DownOfUnmoved(lines[..n], k, id);
    } else if k == n {
      assert lines[k := Rev(false, id)][..n] == lines[..n];
    }
  }

  lemma {:induction false} FirstDownUnmoved(lines: seq<Line>, k: nat, id: string)
    requires k < |lines| && lines[k].Rev?
    ensures FirstDown(lines[k := Rev(false, id)]) == FirstDown(lines)
  {
    if k > 0 {
      assert lines[k := Rev(false, id)][1..] == lines[1..][k - 1 := Rev(false, id)];
      FirstDownUnmoved(lines[1..], k - 1, id);
    } else {
      assert lines[k := Rev(false, id)][1..] == lines[1..];
    }
  }

  lemma {:induction false} RevAfterwards(lines: seq<Line>, k: nat, j: nat, line: Line)
    requires k < j < |lines| && lines[j].Rev?
    ensures RevOf(lines[k := line]) == RevOf(lines)
  {
    var n := |lines| - 1;
    if !lines[n].Rev? {
      assert lines[k := line][..n] == lines[..n][k := line];
      RevAfterwards(lines[..n], k, j, line);
    }
  }

  /** Exactly when a rewritten file reads back with the new revision; otherwise it still reads back
      with the one it had.  Its down revision stays, and stays as easy to rewrite. */
  lemma {:induction false} SetRevReadsBack(lines: seq<Line>, was: string, id: string)
    requires RevOf(lines) == Some(was)
    ensures RevOf(SetRev(lines, was, id)) == Some(if RevEditable(lines) then id else was)
    ensures DownOf(SetRev(lines, was, id)) == DownOf(lines)
    ensures DownEditable(SetRev(lines, was, id)) <==> DownEditable(lines)
  {
    FirstRevIs(lines, was);
    var k, after := FirstRev(lines, was), SetRev(lines, was, id);
    if k < |lines| {
      assert after == lines[k := Rev(false, id)];
      DownUnmoved(lines, k, id);
      assert forall i :: 0 <= i < |lines| ==> (after[i].Down? <==> lines[i].Down?);
      if RevEditable(lines) {
        RevIsLast(after, k);
      } else {
        var j :| k < j < |lines| && lines[j].Rev?;
        RevAfterwards(lines, k, j, Rev(false, id));
      }
    }
  }

  // ---- the sort order ----

  function DigitPrefix(s: string): nat {
    if s == [] || !IsDigit(s[0]) then 0 else 1 + DigitPrefix(s[1..])
  }

  lemma {:induction false} DigitPrefixIs(s: string)
    ensures DigitPrefix(s) <= |s|
    ensures forall i :: 0 <= i < DigitPrefix(s) ==> IsDigit(s[i])
    ensures DigitPrefix(s) < |s| ==> !IsDigit(s[DigitPrefix(s)])
  {
    if s != [] && IsDigit(s[0]) {
      DigitPrefixIs(s[1..]);
    }
  }

  datatype Key = Key(number: nat, suffix: string)

  /** `rev_sort_key` */
  function RevSortKey(rev: string): Key {
    DigitPrefixIs(rev);
    var d := DigitPrefix(rev);
    if d == 0 then Key(999999, rev)
    else Key(Value(rev[..d]), if d < |rev| && 'a' <= rev[d] <= 'z' then [rev[d]] else "")
  }

  predicate KeyLe(a: Key, b: Key) {
    a.number < b.number || (a.number == b.number && StringLe(a.suffix, b.suffix))
  }

  /** The order the documentation promises: 0078 < 0078a < 0078b < 0079. */
  lemma {:induction false} SuffixedBetween(digits: string, c: char, c': char, next: string)
    requires digits != "" && AllDigits(digits) && 'a' <= c < c' <= 'z'
    requires next != "" && AllDigits(next) && Value(digits) < Value(next)
    ensures var keys := [RevSortKey(digits), RevSortKey(digits + [c]), RevSortKey(digits + [c']), RevSortKey(next)];
            forall i, j :: 0 <= i < j < 4 ==> KeyLe(keys[i], keys[j]) && !KeyLe(keys[j], keys[i])
  {
    assert digits + "" == digits && next + "" == next;
    KeyOfDigits(digits, "");
    KeyOfDigits(next, "");
    KeyOfDigits(digits, [c]);
    KeyOfDigits(digits, [c']);
    KeysRise(Value(digits), Value(next), c, c');
  }

  lemma {:induction false} KeysRise(m: nat, n: nat, c: char, c': char)
    requires m < n && c < c'
    ensures var keys := [Key(m, ""), Key(m, [c]), Key(m, [c']), Key(n, "")];
            forall i, j :: 0 <= i < j < 4 ==> KeyLe(keys[i], keys[j]) && !KeyLe(keys[j], keys[i])
  {
  }

  /** What a revision sorts by: its number and one letter after it, if there is one. */
  lemma {:induction false} KeyOfDigits(digits: string, rest: string)
    requires digits != "" && AllDigits(digits) && (rest == "" || !IsDigit(rest[0]))
    ensures RevSortKey(digits + rest) ==
            Key(Value(digits), if rest != "" && 'a' <= rest[0] <= 'z' then [rest[0]] else "")
  {
    PrefixOfDigits(digits, rest);
    assert (digits + rest)[..|digits|] == digits;
  }

  /** A revision without a number sorts as number 999999 does, by its name: after those numbered
      below and before those above. */
  lemma {:induction false} NamedLast(name: string, other: string, digits: string, rest: string)
    requires (name == "" || !IsDigit(name[0])) && (other == "" || !IsDigit(other[0]))
    requires digits != "" && AllDigits(digits) && Value(digits) != 999999 && (rest == "" || !IsDigit(rest[0]))
    ensures KeyLe(RevSortKey(digits + rest), RevSortKey(name)) <==> Value(digits) < 999999
    ensures KeyLe(RevSortKey(name), RevSortKey(digits + rest)) <==> Value(digits) > 999999
    ensures KeyLe(RevSortKey(name), RevSortKey(other)) <==> StringLe(name, other)
  {
    KeyOfDigits(digits, rest);
  }

  lemma {:induction false} PrefixOfDigits(digits: string, rest: string)
    requires AllDigits(digits) && (rest == "" || !IsDigit(rest[0]))
    ensures DigitPrefix(digits + rest) == |digits|
  {
    if digits == "" {
      assert digits + rest == rest;
    } else {
      assert (digits + rest)[1..] == digits[1..] + rest;
      PrefixOfDigits(digits[1..], rest);
    }
  }
}
