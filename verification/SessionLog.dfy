/** Prices, events and the tier of a session, as `scripts/cost_audit.py` reads them from the logs. */
module SessionLog {
  import opened Sets
  import opened Text
  import opened Wrappers

  // ---- prices ----

  datatype Usage = Usage(input: nat, output: nat, cacheRead: nat, cacheWrite: nat)

  /** Dollars per million tokens. */
  datatype Price = Price(input: real, output: real, cacheRead: real, cacheWrite: real)

  const OPUS := Price(15.0, 75.0, 1.875, 18.75)
  const SONNET := Price(3.0, 15.0, 0.30, 3.75)
  const HAIKU := Price(1.0, 5.0, 0.10, 1.25)
  const SONNET_MODEL_FOR_REPLAY := "claude-sonnet-4-6"

  function ResolvePrice(model: string): Price {
    if model == "" then OPUS
    else if Contains(model, "claude-opus-4-7") then OPUS
    else if Contains(model, "claude-opus-4-6") then OPUS
    else if Contains(model, "claude-sonnet-4-6") then SONNET
    else if Contains(model, "claude-sonnet-4-5") then SONNET
    else if Contains(model, "claude-haiku-4-5") then HAIKU
    else OPUS
  }

  function Priced(u: Usage, p: Price): real {
    (u.input as real * p.input + u.output as real * p.output
     + u.cacheRead as real * p.cacheRead + u.cacheWrite as real * p.cacheWrite) / 1000000.0
  }

  function CostOf(u: Usage, model: string): real {
    Priced(u, ResolvePrice(model))
  }

  lemma {:induction false} ReplayPrice()
    ensures ResolvePrice(SONNET_MODEL_FOR_REPLAY) == SONNET
  {
    var m := SONNET_MODEL_FOR_REPLAY;
    assert m[7] == 's';
    assert HeldAt(m, "claude-sonnet-4-6", 0);
    forall i | 0 <= i <= |m| ensures !HeldAt(m, "claude-opus-4-7", i) && !HeldAt(m, "claude-opus-4-6", i) {
    }
  }

  lemma {:induction false} HaikuPrice()
    ensures ResolvePrice("claude-haiku-4-5") == HAIKU
  {
    var m := "claude-haiku-4-5";
    assert HeldAt(m, m, 0);
    forall i | 0 <= i <= |m|
      ensures !HeldAt(m, "claude-opus-4-7", i) && !HeldAt(m, "claude-opus-4-6", i)
      ensures !HeldAt(m, "claude-sonnet-4-6", i) && !HeldAt(m, "claude-sonnet-4-5", i)
    {
      if i + 15 <= |m| {
        assert m[i..i + 15][0] == m[i] && m[i..i + 15][7] == m[i + 7];
        assert i == 0 || i == 1;
      }
    }
  }

  /** The price list, in dollars per million tokens; a model without a name is priced as Opus. */
  lemma {:induction false} PriceList()
    ensures forall m :: m in {"claude-opus-4-7", "claude-opus-4-6", ""} ==> ResolvePrice(m) == Price(15.0, 75.0, 1.875, 18.75)
    ensures forall m :: m in {"claude-sonnet-4-6", "claude-sonnet-4-5"} ==> ResolvePrice(m) == Price(3.0, 15.0, 0.3, 3.75)
    ensures ResolvePrice("claude-haiku-4-5") == Price(1.0, 5.0, 0.1, 1.25)
  {
    assert HeldAt("claude-opus-4-7", "claude-opus-4-7", 0);
    assert HeldAt("claude-opus-4-6", "claude-opus-4-6", 0);
    ReplayPrice();
    OlderSonnetPrice();
    HaikuPrice();
  }

  lemma {:induction false} OlderSonnetPrice()
    ensures ResolvePrice("claude-sonnet-4-5") == SONNET
  {
    var m := "claude-sonnet-4-5";
    assert m[7] == 's';
    assert HeldAt(m, m, 0);
    forall i | 0 <= i <= |m| ensures !HeldAt(m, "claude-opus-4-7", i) && !HeldAt(m, "claude-opus-4-6", i) {
    }
  }

  /** The first name of the list that a model's holds decides; a model that holds none is priced as
      Opus. */
  lemma {:induction false} PriceByName(model: string)
    ensures Contains(model, "claude-opus-4-7") || Contains(model, "claude-opus-4-6") ==>
              ResolvePrice(model) == Price(15.0, 75.0, 1.875, 18.75)
    ensures !Contains(model, "claude-opus-4-7") && !Contains(model, "claude-opus-4-6") && model != "" ==>
              ResolvePrice(model) ==
              if Contains(model, "claude-sonnet-4-6") || Contains(model, "claude-sonnet-4-5") then Price(3.0, 15.0, 0.3, 3.75)
              else if Contains(model, "claude-haiku-4-5") then Price(1.0, 5.0, 0.1, 1.25)
              else Price(15.0, 75.0, 1.875, 18.75)
  {
  }

  /** A million tokens of one kind cost their price; usages add up. */
  lemma {:induction false} PricedIs(p: Price, a: Usage, b: Usage)
    ensures Priced(Usage(1000000, 0, 0, 0), p) == p.input && Priced(Usage(0, 1000000, 0, 0), p) == p.output
    ensures Priced(Usage(0, 0, 1000000, 0), p) == p.cacheRead && Priced(Usage(0, 0, 0, 1000000), p) == p.cacheWrite
    ensures Priced(Usage(a.input + b.input, a.output + b.output, a.cacheRead + b.cacheRead, a.cacheWrite + b.cacheWrite), p)
            == Priced(a, p) + Priced(b, p)
  {
    Distributes(a.input, b.input, p.input);
    Distributes(a.output, b.output, p.output);
    Distributes(a.cacheRead, b.cacheRead, p.cacheRead);
    Distributes(a.cacheWrite, b.cacheWrite, p.cacheWrite);
  }

  lemma {:induction false} Distributes(m: nat, n: nat, rate: real)
    ensures (m + n) as real * rate == m as real * rate + n as real * rate
  {
  }

  /** Replaying at Sonnet's rates is never dearer exactly for the models not priced as Haiku. */
  lemma {:induction false} SonnetNoDearerExactly(model: string)
    ensures (forall u :: CostOf(u, SONNET_MODEL_FOR_REPLAY) <= CostOf(u, model)) <==> ResolvePrice(model) != HAIKU
  {
    ReplayPrice();
    if ResolvePrice(model) == HAIKU {
      var u := Usage(1, 0, 0, 0);
      assert CostOf(u, SONNET_MODEL_FOR_REPLAY) > CostOf(u, model);
    } else {
      forall u ensures CostOf(u, SONNET_MODEL_FOR_REPLAY) <= CostOf(u, model) {
      }
    }
  }

  // ---- events ----

  /** A tool use; `upper` is its command in upper case. */
  datatype ToolUse = ToolUse(name: string, filePath: string, command: string, upper: string)

  /** An assistant line of the logs; `day` is the date of its time stamp, if that can be read. */
  datatype Event = Event(session: string, msgId: string, model: string, usage: Usage, day: Option<string>,
                         toolUses: seq<ToolUse>)

  function EventKey(e: Event): (string, string) {
    (e.session, e.msgId)
  }

  /** The first line of every session and message id. */
  function Deduped(lines: seq<Event>): seq<Event> {
    if lines == [] then []
    else
      var front, last := lines[..|lines| - 1], lines[|lines| - 1];
      if Seen(front, last) then Deduped(front) else Deduped(front) + [last]
  }

  predicate Seen(lines: seq<Event>, e: Event) {
    exists i | 0 <= i < |lines| :: EventKey(lines[i]) == EventKey(e)
  }

  /** `iter_events`, past the reading of the files. */
  method IterEvents(lines: seq<Event>) returns (events: seq<Event>)
    ensures events == Deduped(lines)
  {
    var seen: set<(string, string)> := {};
    events := [];
    for i := 0 to |lines|
      invariant events == Deduped(lines[..i])
      invariant forall k :: k in seen <==> exists j :: 0 <= j < i && EventKey(lines[j]) == k
    {
      var front := lines[..i];
      assert lines[..i + 1][..i] == front;
      var key := EventKey(lines[i]);
      assert key in seen <==> Seen(front, lines[i]) by {
        if key in seen {
          var j :| 0 <= j < i && EventKey(lines[j]) == key;
          assert EventKey(front[j]) == key;
        }
      }
      if key !in seen {
        seen := seen + {key};
        events := events + [lines[i]];
      }
    }
    assert lines[..|lines|] == lines;
  }

  lemma {:induction false} SeenDeduped(lines: seq<Event>, e: Event)
    ensures Seen(Deduped(lines), e) <==> Seen(lines, e)
  {
    if lines != [] {
      var front, last := lines[..|lines| - 1], lines[|lines| - 1];
      SeenDeduped(front, e);
      SeenDeduped(front, last);
      SeenOne(front, last, e);
      SeenOne(Deduped(front), last, e);
      assert lines == front + [last];
    } else {
      assert Deduped(lines) == lines;
    }
  }

  lemma {:induction false} SeenOne(lines: seq<Event>, last: Event, e: Event)
    ensures Seen(lines + [last], e) <==> Seen(lines, e) || EventKey(last) == EventKey(e)
  {
    var more := lines + [last];
    if Seen(lines, e) {
      var i :| 0 <= i < |lines| && EventKey(lines[i]) == EventKey(e);
      assert more[i] == lines[i];
    }
    assert more[|lines|] == last;
  }

  /** What is left has no two lines alike, so filtering again changes nothing. */
  lemma {:induction false} DedupedDistinct(lines: seq<Event>)
    ensures forall i, j :: 0 <= i < j < |Deduped(lines)| ==> EventKey(Deduped(lines)[i]) != EventKey(Deduped(lines)[j])
  {
    if lines != [] {
      var front, last := lines[..|lines| - 1], lines[|lines| - 1];
      DedupedDistinct(front);
      SeenDeduped(front, last);
    }
  }

  lemma {:induction false} SeenPutIn(before: seq<Event>, line: Event, after: seq<Event>, e: Event)
    ensures Seen(before + [line] + after, e) <==> Seen(before + after, e) || EventKey(line) == EventKey(e)
    decreases |after|
  {
    if after == [] {
      assert before + [line] + after == before + [line] && before + after == before;
      SeenOne(before, line, e);
    } else {
      var front, last := after[..|after| - 1], after[|after| - 1];
      assert before + [line] + after == before + [line] + front + [last] && before + after == before + front + [last];
      SeenPutIn(before, line, front, e);
      SeenOne(before + [line] + front, last, e);
      SeenOne(before + front, last, e);
    }
  }

  lemma {:induction false} DistinctUnchanged(lines: seq<Event>)
    requires forall i, j :: 0 <= i < j < |lines| ==> EventKey(lines[i]) != EventKey(lines[j])
    ensures Deduped(lines) == lines
  {
    if lines != [] {
      DistinctUnchanged(lines[..|lines| - 1]);
    }
  }

  lemma {:induction false} DedupedIdempotent(lines: seq<Event>)
    ensures Deduped(Deduped(lines)) == Deduped(lines)
  {
    DedupedDistinct(lines);
    DistinctUnchanged(Deduped(lines));
  }

  /** A line seen before can be repeated anywhere after without a trace. */
  lemma {:induction false} RepeatedLineIgnored(before: seq<Event>, again: Event, after: seq<Event>)
    requires Seen(before, again)
    ensures Deduped(before + [again] + after) == Deduped(before + after)
    decreases |after|
  {
    var with, without := before + [again] + after, before + after;
    if after == [] {
      assert with[..|before|] == before && without == before;
    } else {
      var front, last := after[..|after| - 1], after[|after| - 1];
      RepeatedLineIgnored(before, again, front);
      assert with[..|with| - 1] == before + [again] + front;
      assert without[..|without| - 1] == before + front;
      SeenDeduped(before + [again] + front, last);
      SeenDeduped(before + front, last);
    }
  }

  /** What a line put into the log leaves of the events: if its key was seen before, all of them;
      otherwise itself, and those with another key. */
  lemma {:induction false} NewLineEvents(before: seq<Event>, line: Event, after: seq<Event>, e: Event)
    ensures e in Deduped(before + [line] + after) <==>
              if Seen(before, line) then e in Deduped(before + after)
              else e == line || (e in Deduped(before + after) && EventKey(e) != EventKey(line))
    decreases |after|
  {
    if Seen(before, line) {
      RepeatedLineIgnored(before, line, after);
    } else if after == [] {
      assert before + [line] + after == before + [line] && before + after == before;
      assert (before + [line])[..|before|] == before;
      DedupedFrom(before, e);
      SameKeySeen(before, e, line);
    } else {
      var front, last := after[..|after| - 1], after[|after| - 1];
      NewLineEvents(before, line, front, e);
      SeenPutIn(before, line, front, last);
      assert before + [line] + after == before + [line] + front + [last] && before + after == before + front + [last];
      DedupedOne(before + [line] + front, last);
      DedupedOne(before + front, last);
    }
  }

  lemma {:induction false} DedupedOne(lines: seq<Event>, last: Event)
    ensures Deduped(lines + [last]) == if Seen(lines, last) then Deduped(lines) else Deduped(lines) + [last]
  {
    assert (lines + [last])[..|lines|] == lines;
  }

  lemma {:induction false} DedupedFrom(lines: seq<Event>, e: Event)
    ensures e in Deduped(lines) ==> Seen(lines, e)
  {
    if lines != [] {
      var front, last := lines[..|lines| - 1], lines[|lines| - 1];
      DedupedFrom(front, e);
      SeenOne(front, last, e);
      assert lines == front + [last];
    }
  }

  lemma {:induction false} SameKeySeen(lines: seq<Event>, a: Event, b: Event)
    requires EventKey(a) == EventKey(b) || !Seen(lines, b)
    ensures EventKey(a) == EventKey(b) ==> (Seen(lines, a) <==> Seen(lines, b))
  {
  }

  /** A line put in loses no event, unless it shares its key with a later line. */
  lemma {:induction false} NewLineKeepsEvents(before: seq<Event>, line: Event, after: seq<Event>)
    requires !Seen(after, line)
    ensures forall e :: e in Deduped(before + after) ==> e in Deduped(before + [line] + after)
  {
    forall e | e in Deduped(before + after) ensures e in Deduped(before + [line] + after) {
      NewLineEvents(before, line, after, e);
      DedupedFrom(before + after, e);
      if !Seen(before, line) {
        SeenEither(before, after, line);
        SameKeySeen(before + after, e, line);
      }
    }
  }

  lemma {:induction false} SeenEither(a: seq<Event>, b: seq<Event>, e: Event)
    ensures Seen(a + b, e) <==> Seen(a, e) || Seen(b, e)
  {
    if Seen(a, e) {
      var i :| 0 <= i < |a| && EventKey(a[i]) == EventKey(e);
      assert (a + b)[i] == a[i];
    }
    if Seen(b, e) {
      var i :| 0 <= i < |b| && EventKey(b[i]) == EventKey(e);
      assert (a + b)[|a| + i] == b[i];
    }
  }

  /** The events that do not share the key of `line`. */
  function Without(events: seq<Event>, line: Event): seq<Event> {
    if events == [] then []
    else
      var front, last := events[..|events| - 1], events[|events| - 1];
      Without(front, line) + if EventKey(last) == EventKey(line) then [] else [last]
  }

  lemma {:induction false} WithoutIs(events: seq<Event>, line: Event, e: Event)
    ensures e in Without(events, line) <==> e in events && EventKey(e) != EventKey(line)
  {
    if events != [] {
      var front, last := events[..|events| - 1], events[|events| - 1];
      WithoutIs(front, line, e);
      assert events == front + [last];
    }
  }

  // ---- tiers ----

  lemma {:induction false} ToolNames()
    ensures !IsWrite("Read") && !IsWrite("Bash") && "Read" != "Bash"
  {
    assert "Read"[0] != "Edit"[0] && "Bash"[0] != "Edit"[0] && "Read"[0] != "Bash"[0];
  }

  predicate IsWrite(name: string) {
    name == "Edit" || name == "Write" || name == "NotebookEdit"
  }

  /** The file name of a path. */
  function Base(path: string): string {
    if path == "" || path[|path| - 1] == '/' then "" else Base(path[..|path| - 1]) + [path[|path| - 1]]
  }

  predicate IsHotPath(path: string) {
    && path != ""
    && (|| Contains(path, "src/ragbot/") || Contains(path, "alembic/versions/") || Contains(path, "docs/master/")
        || Contains(path, "RAGBOT_MASTER.md") || Contains(path, "RAGBOT_24STEP_PIPELINE")
        || Base(path) == "CLAUDE.md")
  }

  predicate IsHotCommand(tu: ToolUse) {
    || Contains(tu.command, "git commit") || Contains(tu.command, "git push") || Contains(tu.command, "gh pr create")
    || Contains(tu.command, "gh pr edit") || Contains(tu.command, "gh pr merge")
    || Contains(tu.command, "alembic upgrade") || Contains(tu.command, "alembic downgrade")
    || Contains(tu.command, "alembic revision")
    || Contains(tu.upper, "INSERT INTO") || Contains(tu.upper, "UPDATE ") || Contains(tu.upper, "DELETE FROM")
    || Contains(tu.upper, "TRUNCATE") || Contains(tu.upper, "DROP TABLE") || Contains(tu.upper, "ALTER TABLE")
  }

  predicate HotWrite(tu: ToolUse) {
    IsWrite(tu.name) && IsHotPath(tu.filePath)
  }

  predicate HotRead(tu: ToolUse) {
    tu.name == "Read" && IsHotPath(tu.filePath)
  }

  predicate HotBash(tu: ToolUse) {
    tu.name == "Bash" && IsHotCommand(tu)
  }

  /** What follows the last slash of a path. */
  lemma {:induction false} BaseIs(path: string) returns (dir: string)
    ensures path == dir + Base(path) && '/' !in Base(path)
    ensures dir == "" || dir[|dir| - 1] == '/'
  {
    dir := path;
    if path != "" && path[|path| - 1] != '/' {
      var front, last := path[..|path| - 1], path[|path| - 1];
      dir := BaseIs(front);
      assert path == front + [last];
    }
  }

  lemma {:induction false} WritesAre(name: string)
    ensures IsWrite(name) <==> name in {"Edit", "Write", "NotebookEdit"}
  {
  }

  const HOT_PATHS := ["src/ragbot/", "alembic/versions/", "docs/master/", "RAGBOT_MASTER.md", "RAGBOT_24STEP_PIPELINE"]
  const HOT_COMMANDS := ["git commit", "git push", "gh pr create", "gh pr edit", "gh pr merge",
                         "alembic upgrade", "alembic downgrade", "alembic revision"]
  const HOT_STATEMENTS := ["INSERT INTO", "UPDATE ", "DELETE FROM", "TRUNCATE", "DROP TABLE", "ALTER TABLE"]

  ghost predicate HoldsOne(text: string, parts: seq<string>) {
    exists i :: 0 <= i < |parts| && Contains(text, parts[i])
  }

  lemma {:induction false} HoldsAt(text: string, parts: seq<string>, i: nat)
    requires i < |parts| && Contains(text, parts[i])
    ensures HoldsOne(text, parts)
  {
  }

  /** The commands that make a session mandatory Opus: what they hold, statements in upper case. */
  lemma {:induction false} HotCommandsAre(tu: ToolUse)
    ensures IsHotCommand(tu) <==> HoldsOne(tu.command, HOT_COMMANDS) || HoldsOne(tu.upper, HOT_STATEMENTS)
  {
    forall i: nat | i < 8 && Contains(tu.command, HOT_COMMANDS[i]) ensures HoldsOne(tu.command, HOT_COMMANDS) {
      HoldsAt(tu.command, HOT_COMMANDS, i);
    }
    forall i: nat | i < 6 && Contains(tu.upper, HOT_STATEMENTS[i]) ensures HoldsOne(tu.upper, HOT_STATEMENTS) {
      HoldsAt(tu.upper, HOT_STATEMENTS, i);
    }
    var c, u := HOT_COMMANDS, HOT_STATEMENTS;
    assert c[0] == "git commit" && c[1] == "git push" && c[2] == "gh pr create" && c[3] == "gh pr edit";
    assert c[4] == "gh pr merge" && c[5] == "alembic upgrade" && c[6] == "alembic downgrade" && c[7] == "alembic revision";
    assert u[0] == "INSERT INTO" && u[1] == "UPDATE " && u[2] == "DELETE FROM" && u[3] == "TRUNCATE";
    assert u[4] == "DROP TABLE" && u[5] == "ALTER TABLE";
  }

  /** The paths: those that hold one of these, and the file CLAUDE.md anywhere. */
  lemma {:induction false} HotPathsAre(path: string)
    ensures IsHotPath(path) <==> path != "" && (HoldsOne(path, HOT_PATHS) || Base(path) == "CLAUDE.md")
  {
    forall i: nat | i < 5 && Contains(path, HOT_PATHS[i]) ensures HoldsOne(path, HOT_PATHS) {
      HoldsAt(path, HOT_PATHS, i);
    }
    var p := HOT_PATHS;
    assert p[0] == "src/ragbot/" && p[1] == "alembic/versions/" && p[2] == "docs/master/";
    assert p[3] == "RAGBOT_MASTER.md" && p[4] == "RAGBOT_24STEP_PIPELINE";
  }

  ghost predicate Among(toolUses: seq<ToolUse>, hot: ToolUse -> bool) {
    exists i :: 0 <= i < |toolUses| && hot(toolUses[i])
  }

  /** Some event has a tool use that is `hot`. */
  ghost predicate Uses(events: seq<Event>, hot: ToolUse -> bool) {
    exists i :: 0 <= i < |events| && Among(events[i].toolUses, hot)
  }

  ghost function HotReads(events: seq<Event>): set<string> {
    set e, tu | e in events && tu in e.toolUses && HotRead(tu) :: tu.filePath
  }

  datatype Tier = A1 | A2

  /** A session is mandatory Opus for a hot write, a hot command, or enough different hot reads. */
  ghost function TierOf(events: seq<Event>, deepdive: int): Tier {
    if Uses(events, HotWrite) || Uses(events, HotBash) || |HotReads(events)| >= deepdive then A1 else A2
  }

  /** More events never release a session from mandatory Opus. */
  lemma {:induction false} MoreEventsKeepA1(events: seq<Event>, more: seq<Event>, deepdive: int)
    requires forall e :: e in events ==> e in more
    requires TierOf(events, deepdive) == A1
    ensures TierOf(more, deepdive) == A1
  {
    assert HotReads(events) <= HotReads(more);
    SubsetSize(HotReads(events), HotReads(more));
    UsesAmongMore(events, more, HotWrite);
    UsesAmongMore(events, more, HotBash);
  }

  lemma {:induction false} SameEventsSameTier(a: seq<Event>, b: seq<Event>, deepdive: int)
    requires forall e :: e in a <==> e in b
    ensures TierOf(a, deepdive) == TierOf(b, deepdive)
  {
    if TierOf(a, deepdive) == A1 {
      MoreEventsKeepA1(a, b, deepdive);
    }
    if TierOf(b, deepdive) == A1 {
      MoreEventsKeepA1(b, a, deepdive);
    }
  }

  /** A line put before the only hot one, under the same session and message id, does release it. */
  lemma {:induction false} EarlierLineHidesWrite(hot: Event, plain: Event, deepdive: int)
    requires EventKey(plain) == EventKey(hot) && Uses([hot], HotWrite) && plain.toolUses == [] && deepdive > 0
    ensures TierOf(Deduped([hot]), deepdive) == A1 && TierOf(Deduped([plain] + [hot]), deepdive) == A2
  {
    OneLine(hot);
    SecondDropped(plain, hot);
    NoToolUses(plain, deepdive);
  }

  lemma {:induction false} SecondDropped(a: Event, b: Event)
    requires EventKey(a) == EventKey(b)
    ensures Deduped([a] + [b]) == [a]
  {
    OneLine(a);
    assert ([a] + [b])[..1] == [a] && EventKey([a][0]) == EventKey(b);
  }

  lemma {:induction false} NoToolUses(e: Event, deepdive: int)
    requires e.toolUses == [] && deepdive > 0
    ensures TierOf([e], deepdive) == A2
  {
    assert HotReads([e]) == {};
  }

  lemma {:induction false} OneLine(e: Event)
    ensures Deduped([e]) == [e]
  {
    assert [e][..0] == [];
    assert Deduped([e][..0]) == [];
  }

  lemma {:induction false} UsesAmongMore(events: seq<Event>, more: seq<Event>, hot: ToolUse -> bool)
    requires forall e :: e in events ==> e in more
    ensures Uses(events, hot) ==> Uses(more, hot)
  {
    if Uses(events, hot) {
      var i :| 0 <= i < |events| && Among(events[i].toolUses, hot);
      assert events[i] in more;
    }
  }

  /** The first model named. */
  function FirstModel(events: seq<Event>): string {
    if events == [] then ""
    else
      var found := FirstModel(events[..|events| - 1]);
      if found != "" then found else events[|events| - 1].model
  }
}
