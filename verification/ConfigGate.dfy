/** The baseline file and the gate of `scripts/check_config_completeness.py`. */
module ConfigGate {
  import opened Sorting
  import opened Text
  import opened Wrappers

  // ---- the keys ----

  /** What the pattern of a contract key admits; `word` is the character class `\w`. */
  predicate KeyShape(word: char -> bool, k: string) {
    && k != "" && ('a' <= k[0] <= 'z' || 'A' <= k[0] <= 'Z' || k[0] == '_')
    && forall i :: 0 < i < |k| ==> word(k[i]) || k[i] == '.'
  }

  /** Letter by letter: a letter or an underscore, then word characters and dots. */
  lemma {:induction false} KeyShapeIs(word: char -> bool, k: string, c: char)
    ensures KeyShape(word, [c]) <==> c == '_' || 'a' <= c <= 'z' || 'A' <= c <= 'Z'
    ensures k != "" ==> (KeyShape(word, k + [c]) <==> KeyShape(word, k) && (word(c) || c == '.'))
    ensures !KeyShape(word, "")
  {
    if k != "" {
      var m := k + [c];
      assert m[0] == k[0] && m[|k|] == c && forall i :: 0 <= i < |k| ==> m[i] == k[i];
    }
  }

  /** No word character is white space. */
  ghost predicate Sound(word: char -> bool) {
    forall c: char :: word(c) ==> !IsSpace(c)
  }

  // ---- lines ----

  /** Where `str.splitlines` breaks.  The two characters of a carriage return and line feed count
      as two breaks here; the empty line in between is one the reader skips. */
  predicate IsBreak(c: char) {
    '\n' <= c <= '\r' || '\U{1C}' <= c <= '\U{1E}' || c == '\U{85}' || c == '\U{2028}' || c == '\U{2029}'
  }

  /** Line feed, vertical tab, form feed, carriage return, the three separators, the next-line
      character, and the line and paragraph separators. */
  lemma {:induction false} BreaksAre(c: char)
    ensures IsBreak(c) <==> c in {'\n', '\U{B}', '\U{C}', '\r', '\U{1C}', '\U{1D}', '\U{1E}', '\U{85}', '\U{2028}', '\U{2029}'}
  {
  }

  function FirstBreak(s: string): (i: nat)
    ensures i <= |s|
  {
    if s == "" || IsBreak(s[0]) then 0 else 1 + FirstBreak(s[1..])
  }

  function Lines(s: string): seq<string>
    decreases |s|
  {
    var i := FirstBreak(s);
    if i == |s| then if s == "" then [] else [s]
    else [s[..i]] + Lines(s[i + 1..])
  }

  predicate OneLine(s: string) {
    forall i :: 0 <= i < |s| ==> !IsBreak(s[i])
  }

  lemma {:induction false} BreakAfter(line: string, rest: string)
    requires OneLine(line)
    ensures FirstBreak(line + "\n" + rest) == |line|
  {
    var s := line + "\n" + rest;
    if line != "" {
      BreakAfter(line[1..], rest);
      assert s[1..] == line[1..] + "\n" + rest;
    }
  }

  lemma {:induction false} LineFirst(line: string, rest: string)
    requires OneLine(line)
    ensures Lines(line + "\n" + rest) == [line] + Lines(rest)
  {
    BreakAfter(line, rest);
    var s := line + "\n" + rest;
    assert s[..|line|] == line && s[|line| + 1..] == rest;
  }

  /** A last line needs no break; an empty text has no line. */
  lemma {:induction false} LastLine(s: string)
    requires OneLine(s)
    ensures Lines(s) == if s == "" then [] else [s]
  {
    NoBreak(s);
  }

  lemma {:induction false} NoBreak(s: string)
    requires OneLine(s)
    ensures FirstBreak(s) == |s|
  {
    if s != "" {
      NoBreak(s[1..]);
    }
  }

  /** The lines, each with its line feed. */
  function Ended(lines: seq<string>): string {
    if lines == [] then "" else lines[0] + "\n" + Ended(lines[1..])
  }

  lemma {:induction false} LinesOfEnded(lines: seq<string>, rest: string)
    requires forall i :: 0 <= i < |lines| ==> OneLine(lines[i])
    ensures Lines(Ended(lines) + rest) == lines + Lines(rest)
  {
    if lines == [] {
      assert Ended(lines) + rest == rest;
    } else {
      LinesOfEnded(lines[1..], rest);
      LineFirst(lines[0], Ended(lines[1..]) + rest);
      assert Ended(lines) + rest == lines[0] + "\n" + (Ended(lines[1..]) + rest);
      assert lines == [lines[0]] + lines[1..];
    }
  }

  // ---- the baseline ----

  /** The header of the file, whatever it says: comment lines. */
  ghost predicate Comments(header: seq<string>) {
    forall i :: 0 <= i < |header| ==> OneLine(header[i]) && header[i] != "" && header[i][0] == '#'
  }

  function Join(keys: seq<string>): string {
    if keys == [] then "" else if |keys| == 1 then keys[0] else keys[0] + "\n" + Join(keys[1..])
  }

  function BaselineText(header: seq<string>, keys: seq<string>): string {
    Ended(header) + Join(keys) + "\n"
  }

  /** `keys` is `sorted(missing)`. */
  ghost predicate SortedKeys(keys: seq<string>, missing: set<string>) {
    && SortedBy(keys, StringLe)
    && (forall i, j :: 0 <= i < j < |keys| ==> keys[i] != keys[j])
    && (forall k :: k in missing <==> k in keys)
  }

  ghost predicate IsBaseline(header: seq<string>, text: string, missing: set<string>) {
    exists keys :: SortedKeys(keys, missing) && text == BaselineText(header, keys)
  }

  method WriteBaseline(header: seq<string>, missing: set<string>) returns (text: string)
    ensures IsBaseline(header, text, missing)
  {
    var left, keys := missing, [];
    while left != {}
      invariant left <= missing
      invariant forall k :: k in missing <==> k in left || k in keys
      invariant forall k :: k in keys ==> k !in left
      invariant forall i, j :: 0 <= i < j < |keys| ==> keys[i] != keys[j]
      decreases |left|
    {
      var k :| k in left;
      left := left - {k};
      keys := keys + [k];
    }
    SortListed(keys, missing);
    text := BaselineText(header, Sort(keys, StringLe));
  }

  lemma {:induction false} SortListed(keys: seq<string>, missing: set<string>)
    requires forall i, j :: 0 <= i < j < |keys| ==> keys[i] != keys[j]
    requires forall k :: k in missing <==> k in keys
    ensures SortedKeys(Sort(keys, StringLe), missing)
  {
    StringOrder();
    SortSorts(keys, StringLe);
    var sorted, self := Sort(keys, StringLe), (k: string) => k;
    DistinctPermutes(keys, sorted, self);
    forall i, j | 0 <= i < j < |sorted| ensures sorted[i] != sorted[j] {
      assert self(sorted[i]) != self(sorted[j]);
    }
    forall k ensures k in keys <==> k in sorted {
      assert k in keys <==> k in multiset(keys);
    }
  }

  function LStrip(s: string): string {
    if s != "" && IsSpace(s[0]) then LStrip(s[1..]) else s
  }

  /** Neither blank nor a comment. */
  predicate Counts(line: string) {
    Strip(line) != "" && !(LStrip(line) != "" && LStrip(line)[0] == '#')
  }

  function Entries(lines: seq<string>): set<string> {
    set line | line in lines && Counts(line) :: Strip(line)
  }

  /** `_load_baseline`: no file, no entries. */
  function LoadBaseline(file: Option<string>): set<string> {
    if file.None? then {} else Entries(Lines(file.value))
  }

  lemma {:induction false} HeaderSkipped(header: seq<string>)
    requires Comments(header)
    ensures forall line :: line in header ==> !Counts(line)
  {
    forall line | line in header ensures !Counts(line) {
    }
  }

  lemma {:induction false} JoinIsEnded(keys: seq<string>)
    requires keys != []
    ensures Join(keys) + "\n" == Ended(keys)
  {
    if |keys| == 1 {
      assert Ended(keys[1..]) == "";
    } else {
      JoinIsEnded(keys[1..]);
      assert Join(keys) + "\n" == keys[0] + "\n" + (Join(keys[1..]) + "\n");
    }
  }

  lemma {:induction false} LinesOfBaseline(header: seq<string>, keys: seq<string>)
    requires Comments(header) && forall i :: 0 <= i < |keys| ==> OneLine(keys[i])
    ensures Lines(BaselineText(header, keys)) == header + if keys == [] then [""] else keys
  {
    LinesOfEnded(header, Join(keys) + "\n");
    assert BaselineText(header, keys) == Ended(header) + (Join(keys) + "\n");
    LinesOfKeys(keys);
  }

  lemma {:induction false} LinesOfKeys(keys: seq<string>)
    requires forall i :: 0 <= i < |keys| ==> OneLine(keys[i])
    ensures Lines(Join(keys) + "\n") == if keys == [] then [""] else keys
  {
    if keys == [] {
      LineFirst("", "");
      assert Join(keys) + "\n" == "" + "\n" + "";
    } else {
      JoinIsEnded(keys);
      LinesOfEnded(keys, "");
      assert Ended(keys) + "" == Ended(keys);
    }
  }

  /** A key that a line of the file can hold. */
  predicate Writable(k: string) {
    k != "" && OneLine(k) && !IsSpace(k[0]) && !IsSpace(k[|k| - 1]) && k[0] != '#'
  }

  /** Exactly when reading back a written baseline gives the keys written: when each of them fits on
      a line, starts and ends with no white space, and is not a comment. */
  lemma {:induction false} BaselineRoundTripExactly(header: seq<string>, text: string, missing: set<string>)
    requires Comments(header) && IsBaseline(header, text, missing)
    ensures LoadBaseline(Some(text)) == missing <==> forall k :: k in missing ==> Writable(k)
  {
    if forall k :: k in missing ==> Writable(k) {
      var keys :| SortedKeys(keys, missing) && text == BaselineText(header, keys);
      forall i | 0 <= i < |keys| ensures OneLine(keys[i]) && Counts(keys[i]) && Strip(keys[i]) == keys[i] {
        assert keys[i] in keys;
        WritableLine(keys[i]);
      }
      LinesOfBaseline(header, keys);
      HeaderSkipped(header);
      EntriesOfLines(header, keys, Lines(text));
    } else {
      EntriesWritable(text);
    }
  }

  /** Reading back a written baseline gives the keys written, if they have the contract's shape. */
  lemma {:induction false} BaselineRoundTrip(word: char -> bool, header: seq<string>, text: string, missing: set<string>)
    requires Sound(word) && Comments(header) && IsBaseline(header, text, missing) && forall k :: k in missing ==> KeyShape(word, k)
    ensures LoadBaseline(Some(text)) == missing
  {
    forall k | k in missing ensures Writable(k) {
      ShapedWritable(word, k);
    }
    BaselineRoundTripExactly(header, text, missing);
  }

  lemma {:induction false} ShapedWritable(word: char -> bool, k: string)
    requires Sound(word) && KeyShape(word, k)
    ensures Writable(k)
  {
    forall i | 0 <= i < |k| ensures !IsSpace(k[i]) {
    }
  }

  lemma {:induction false} WritableLine(k: string)
    requires Writable(k)
    ensures OneLine(k) && Counts(k) && Strip(k) == k
  {
  }

  /** Whatever the text, what is read from it could have been written. */
  lemma {:induction false} EntriesWritable(text: string)
    ensures forall k :: k in LoadBaseline(Some(text)) ==> Writable(k)
  {
    LinesAreLines(text);
    forall k | k in Entries(Lines(text)) ensures Writable(k) {
      var line :| line in Lines(text) && Counts(line) && Strip(line) == k;
      EntryWritable(line);
    }
  }

  lemma {:induction false} EntryWritable(line: string)
    requires OneLine(line) && Counts(line)
    ensures Writable(Strip(line))
  {
    var pre, post := StripIs(line);
    var k := Strip(line);
    PartOfLine(pre, k, post);
    assert line == pre + (k + post);
    LStripIs(pre, k + post);
  }

  lemma {:induction false} LinesAreLines(s: string)
    ensures forall line :: line in Lines(s) ==> OneLine(line)
    decreases |s|
  {
    FirstBreakIs(s);
    var i := FirstBreak(s);
    if i < |s| {
      LinesAreLines(s[i + 1..]);
    }
  }

  lemma {:induction false} FirstBreakIs(s: string)
    ensures forall j :: 0 <= j < FirstBreak(s) ==> !IsBreak(s[j])
  {
    if s != "" && !IsBreak(s[0]) {
      FirstBreakIs(s[1..]);
    }
  }

  lemma {:induction false} PartOfLine(pre: string, k: string, post: string)
    requires OneLine(pre + k + post)
    ensures OneLine(k)
  {
    forall i | 0 <= i < |k| ensures !IsBreak(k[i]) {
      assert (pre + k + post)[|pre| + i] == k[i];
    }
  }

  lemma {:induction false} LStripIs(pre: string, rest: string)
    requires Blank(pre) && rest != "" && !IsSpace(rest[0])
    ensures LStrip(pre + rest) == rest
  {
    if pre == "" {
      assert pre + rest == rest;
    } else {
      assert (pre + rest)[1..] == pre[1..] + rest && IsSpace(pre[0]);
      LStripIs(pre[1..], rest);
    }
  }

  /** What counts of the lines of a baseline: the keys. */
  lemma {:induction false} EntriesOfLines(header: seq<string>, keys: seq<string>, lines: seq<string>)
    requires lines == header + if keys == [] then [""] else keys
    requires forall line :: line in header ==> !Counts(line)
    requires forall i :: 0 <= i < |keys| ==> Counts(keys[i]) && Strip(keys[i]) == keys[i]
    ensures Entries(lines) == set k | k in keys
  {
    forall k ensures k in Entries(lines) <==> k in keys {
      if k in keys {
        assert k in lines;
      }
      if line :| line in lines && Counts(line) && Strip(line) == k {
        assert line !in header;
        assert line in keys;
      }
    }
  }

  /** The text is determined by the set of keys. */
  lemma {:induction false} BaselineUnique(header: seq<string>, text: string, other: string, missing: set<string>)
    requires IsBaseline(header, text, missing) && IsBaseline(header, other, missing)
    ensures text == other
  {
    var keys :| SortedKeys(keys, missing) && text == BaselineText(header, keys);
    var keys' :| SortedKeys(keys', missing) && other == BaselineText(header, keys');
    StringOrder();
    SameElements(keys, keys');
    SortedUnique(keys, keys', StringLe);
  }

  // ---- the gate ----

  /** The exit code: 1 for unseeded contract keys outside the baseline, which `--strict` ignores. */
  function Gate(contract: set<string>, seeded: set<string>, file: Option<string>, strict: bool): int {
    var missing := contract - seeded;
    var baseline := if strict then {} else LoadBaseline(file);
    if missing - baseline != {} then 1 else 0
  }

  /** Once a baseline is written, the gate is green exactly while nothing is unseeded that was not
      unseeded then: in particular right after. */
  lemma {:induction false} GateIsRatchet(header: seq<string>, contract: set<string>, seeded: set<string>,
                      text: string, contract': set<string>, seeded': set<string>)
    requires Comments(header) && forall k :: k in contract - seeded ==> Writable(k)
    requires IsBaseline(header, text, contract - seeded)
    ensures Gate(contract', seeded', Some(text), false) == 0 <==> contract' - seeded' <= contract - seeded
    ensures Gate(contract, seeded, Some(text), false) == 0
  {
    BaselineRoundTripExactly(header, text, contract - seeded);
    EmptyDifference(contract' - seeded', contract - seeded);
    EmptyDifference(contract - seeded, contract - seeded);
  }

  lemma {:induction false} ExitCode(contract: set<string>, seeded: set<string>, file: Option<string>, strict: bool)
    ensures Gate(contract, seeded, file, strict) in {0, 1}
  {
  }

  lemma {:induction false} EmptyDifference<T>(a: set<T>, b: set<T>)
    ensures a - b == {} <==> a <= b
  {
    if a - b == {} {
      forall x | x in a ensures x in b {
        assert x !in a - b;
      }
    }
  }

  /** With --strict the gate is green exactly when the whole contract is seeded. */
  lemma {:induction false} StrictGateExactly(contract: set<string>, seeded: set<string>, file: Option<string>)
    ensures Gate(contract, seeded, file, true) == 0 <==> contract <= seeded
  {
    EmptyDifference(contract, seeded);
    assert contract - seeded - {} == contract - seeded;
  }

  /** Seeding more keys, or dropping keys from the contract, never turns the gate red. */
  lemma {:induction false} SeedingKeepsGreen(contract: set<string>, seeded: set<string>, contract': set<string>, seeded': set<string>,
                          file: Option<string>, strict: bool)
    requires contract' <= contract && seeded <= seeded' && Gate(contract, seeded, file, strict) == 0
    ensures Gate(contract', seeded', file, strict) == 0
  {
    var baseline := if strict then {} else LoadBaseline(file);
    EmptyDifference(contract - seeded, baseline);
    EmptyDifference(contract' - seeded', baseline);
  }
}
