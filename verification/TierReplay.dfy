/** `cmd_tier_replay` of `scripts/cost_audit.py`: sessions by tier, and what they would have cost. */
module TierReplay {
  import opened Buckets
  import opened SessionLog
  import opened TierTotals
  import opened Wrappers

  // ---- pass 1: what is known of each session ----

  /** The events counted: those with a readable time stamp, of the target day if there is one. */
  function Selected(events: seq<Event>, target: Option<string>): seq<Event> {
    if events == [] then []
    else
      var front, last := events[..|events| - 1], events[|events| - 1];
      if last.day.Some? && (target.None? || last.day == target) then Selected(front, target) + [last]
      else Selected(front, target)
  }

  function ActualCost(e: Event): real {
    CostOf(e.usage, e.model)
  }

  function CostAs(model: string): Event -> real {
    (e: Event) => CostOf(e.usage, model)
  }

  datatype Session = Session(calls: nat, actual: real, model: string, hotWrites: seq<string>, hotBash: seq<string>,
                             hotReads: set<string>, events: seq<Event>)

  const NEW_SESSION := Session(0, 0.0, "", [], [], {}, [])

  /** `s` is what pass 1 knows of a session with these events. */
  ghost predicate Describes(s: Session, events: seq<Event>) {
    && s.calls == |events| && s.events == events
    && s.actual == Sum(DOLLARS, events, ActualCost)
    && s.model == FirstModel(events)
    && (s.hotWrites != [] <==> Uses(events, HotWrite))
    && (s.hotBash != [] <==> Uses(events, HotBash))
    && s.hotReads == HotReads(events)
  }

  lemma {:induction false} AmongOne(toolUses: seq<ToolUse>, tu: ToolUse, hot: ToolUse -> bool)
    ensures Among(toolUses + [tu], hot) <==> Among(toolUses, hot) || hot(tu)
  {
    var more := toolUses + [tu];
    if Among(toolUses, hot) {
      var i :| 0 <= i < |toolUses| && hot(toolUses[i]);
      assert more[i] == toolUses[i];
    }
    assert more[|toolUses|] == tu;
  }

  lemma {:induction false} UsesOne(events: seq<Event>, e: Event, hot: ToolUse -> bool)
    ensures Uses(events + [e], hot) <==> Uses(events, hot) || Among(e.toolUses, hot)
  {
    var more := events + [e];
    if Uses(events, hot) {
      var i :| 0 <= i < |events| && Among(events[i].toolUses, hot);
      assert more[i] == events[i];
    }
    assert more[|events|] == e;
  }

  lemma {:induction false} HotReadsOne(events: seq<Event>, e: Event)
    ensures HotReads(events + [e]) == HotReads(events) + set tu | tu in e.toolUses && HotRead(tu) :: tu.filePath
  {
    assert forall d :: d in events + [e] <==> d in events || d == e;
  }

  /** The tool uses of one event. */
  method AddToolUses(s: Session, toolUses: seq<ToolUse>) returns (s': Session)
    ensures Noted(s, s', toolUses)
  {
    s' := s;
    for i := 0 to |toolUses|
      invariant Noted(s, s', toolUses[..i])
    {
      ghost var before := s';
      s' := AddToolUse(s', toolUses[i]);
      NotedOne(s, before, toolUses[..i], toolUses[i], s');
      assert toolUses[..i + 1] == toolUses[..i] + [toolUses[i]];
    }
    assert toolUses[..|toolUses|] == toolUses;
  }

  /** `s'` is `s` with the hot effects of these tool uses noted. */
  ghost predicate Noted(s: Session, s': Session, toolUses: seq<ToolUse>) {
    && s' == s.(hotWrites := s'.hotWrites, hotBash := s'.hotBash, hotReads := s'.hotReads)
    && (s'.hotWrites != [] <==> s.hotWrites != [] || Among(toolUses, HotWrite))
    && (s'.hotBash != [] <==> s.hotBash != [] || Among(toolUses, HotBash))
    && s'.hotReads == s.hotReads + set tu | tu in toolUses && HotRead(tu) :: tu.filePath
  }

  lemma {:induction false} NotedOne(s: Session, before: Session, toolUses: seq<ToolUse>, tu: ToolUse, s': Session)
    requires Noted(s, before, toolUses)
    requires s' == before.(hotWrites := before.hotWrites + if HotWrite(tu) then [tu.filePath] else [],
                           hotBash := before.hotBash + if HotBash(tu) then [tu.command] else [],
                           hotReads := before.hotReads + if HotRead(tu) then {tu.filePath} else {})
    ensures Noted(s, s', toolUses + [tu])
  {
    AmongOne(toolUses, tu, HotWrite);
    AmongOne(toolUses, tu, HotBash);
    PathsOne(toolUses, tu);
  }

  lemma {:induction false} PathsOne(toolUses: seq<ToolUse>, tu: ToolUse)
    ensures (set u | u in toolUses + [tu] && HotRead(u) :: u.filePath)
            == (set u | u in toolUses && HotRead(u) :: u.filePath) + if HotRead(tu) then {tu.filePath} else {}
  {
    assert forall u :: u in toolUses + [tu] <==> u in toolUses || u == tu;
  }

  method AddToolUse(s: Session, tu: ToolUse) returns (s': Session)
    ensures s' == s.(hotWrites := s.hotWrites + if HotWrite(tu) then [tu.filePath] else [],
                     hotBash := s.hotBash + if HotBash(tu) then [tu.command] else [],
                     hotReads := s.hotReads + if HotRead(tu) then {tu.filePath} else {})
  {
    s' := s;
    ToolNames();
    if IsWrite(tu.name) {
      if IsHotPath(tu.filePath) {
        s' := s'.(hotWrites := s'.hotWrites + [tu.filePath]);
      }
    } else if tu.name == "Read" && IsHotPath(tu.filePath) {
      s' := s'.(hotReads := s'.hotReads + {tu.filePath});
    } else if tu.name == "Bash" {
      if IsHotCommand(tu) {
        s' := s'.(hotBash := s'.hotBash + [tu.command]);
      }
    }
  }

  method AddEvent(s: Session, e: Event, ghost events: seq<Event>) returns (s': Session)
    requires Describes(s, events)
    ensures Describes(s', events + [e])
  {
    s' := s.(calls := s.calls + 1, actual := s.actual + CostOf(e.usage, e.model));
    if s'.model == "" && e.model != "" {
      s' := s'.(model := e.model);
    }
    s' := s'.(events := s'.events + [e]);
    SumOne(DOLLARS, events, e, ActualCost);
    FirstModelOne(events, e);
    UsesOne(events, e, HotWrite);
    UsesOne(events, e, HotBash);
    HotReadsOne(events, e);
    s' := AddToolUses(s', e.toolUses);
  }

  lemma {:induction false} FirstModelOne(events: seq<Event>, e: Event)
    ensures FirstModel(events + [e]) == if FirstModel(events) != "" then FirstModel(events) else e.model
  {
    assert (events + [e])[..|events|] == events;
  }

  function At(data: map<string, Session>, id: string): Session {
    if id in data then data[id] else NEW_SESSION
  }

  ghost predicate Collected(events: seq<Event>, order: seq<string>, data: map<string, Session>) {
    && Keys(events, SessionOf, order)
    && (forall id :: id in data <==> id in order)
    && (forall id :: Describes(At(data, id), OfSession(events, id)))
  }

  lemma {:induction false} NothingYet(events: seq<Event>)
    requires events == []
    ensures Describes(NEW_SESSION, events)
  {
    assert HotReads(events) == {};
  }

  lemma {:induction false} CollectNone(events: seq<Event>)
    requires events == []
    ensures Collected(events, [], map[])
  {
    NothingYet(events);
  }

  lemma {:induction false} CollectOne(events: seq<Event>, e: Event, order: seq<string>, data: map<string, Session>, s: Session)
    requires Collected(events, order, data) && Describes(s, OfSession(events, e.session) + [e])
    ensures Collected(events + [e], if e.session in order then order else order + [e.session], data[e.session := s])
  {
    KeysOneMore(events, e, SessionOf, order);
    forall id ensures Describes(At(data[e.session := s], id), OfSession(events + [e], id)) {
      DescribedNext(events, e, data, s, id);
    }
  }

  lemma {:induction false} DescribedNext(events: seq<Event>, e: Event, data: map<string, Session>, s: Session, id: string)
    requires Describes(At(data, id), OfSession(events, id)) && Describes(s, OfSession(events, e.session) + [e])
    ensures Describes(At(data[e.session := s], id), OfSession(events + [e], id))
  {
    assert At(data[e.session := s], id) == if id == e.session then s else At(data, id);
  }

  lemma {:induction false} SelectedNext(events: seq<Event>, target: Option<string>, i: nat)
    requires i < |events|
    ensures Selected(events[..i + 1], target) ==
            if events[i].day.Some? && (target.None? || events[i].day == target)
            then Selected(events[..i], target) + [events[i]] else Selected(events[..i], target)
  {
    assert events[..i + 1][..i] == events[..i];
  }

  method Collect(events: seq<Event>, target: Option<string>) returns (order: seq<string>, data: map<string, Session>)
    ensures Collected(Selected(events, target), order, data)
  {
    order, data := [], map[];
    CollectNone(Selected(events[..0], target));
    for i := 0 to |events|
      invariant Collected(Selected(events[..i], target), order, data)
    {
      var e := events[i];
      SelectedNext(events, target, i);
      if e.day.Some? && (target.None? || e.day == target) {
        var s := At(data, e.session);
        s := AddEvent(s, e, OfSession(Selected(events[..i], target), e.session));
        CollectOne(Selected(events[..i], target), e, order, data, s);
        if e.session !in data {
          order := order + [e.session];
        }
        data := data[e.session := s];
      }
    }
    assert events[..|events|] == events;
  }

  // ---- pass 2: tiers and replay costs ----

  /** The model a session is replayed with: its own when Opus is mandatory, else Sonnet. */
  ghost function ReplayModel(events: seq<Event>, deepdive: int): string {
    if TierOf(events, deepdive) == A1 then FirstModel(events) else SONNET_MODEL_FOR_REPLAY
  }

  ghost function TierOfSession(all: seq<Event>, deepdive: int): string -> Tier {
    (id: string) => TierOf(OfSession(all, id), deepdive)
  }

  ghost function ReplayedCost(all: seq<Event>, deepdive: int): Event -> real {
    (e: Event) => CostOf(e.usage, ReplayModel(OfSession(all, e.session), deepdive))
  }

  ghost function ViewOf(all: seq<Event>, deepdive: int): View {
    View(TierOfSession(all, deepdive), ActualCost, ReplayedCost(all, deepdive))
  }

  /** The report of the events `all`: what was paid, what the replay costs, and both by tier. */
  ghost predicate IsReplay(all: seq<Event>, deepdive: int, r: Report) {
    Totals(ViewOf(all, deepdive), all, r)
  }

  method ReplayCost(events: seq<Event>, model: string) returns (cost: real)
    ensures cost == Sum(DOLLARS, events, CostAs(model))
  {
    cost := 0.0;
    for i := 0 to |events|
      invariant cost == Sum(DOLLARS, events[..i], CostAs(model))
    {
      assert events[..i + 1] == events[..i] + [events[i]];
      SumOne(DOLLARS, events[..i], events[i], CostAs(model));
      cost := cost + CostOf(events[i].usage, model);
    }
    assert events[..|events|] == events;
  }

  /** One session's tier and replay cost. */
  method Classify(s: Session, deepdive: int, ghost events: seq<Event>) returns (tier: Tier, replayCost: real)
    requires Describes(s, events)
    ensures tier == TierOf(events, deepdive)
    ensures replayCost == Sum(DOLLARS, events, CostAs(ReplayModel(events, deepdive)))
  {
    if s.hotWrites != [] {
      tier := A1;
    } else if s.hotBash != [] {
      tier := A1;
    } else if |s.hotReads| >= deepdive {
      tier := A1;
    } else {
      tier := A2;
    }
    var model := if tier == A1 then s.model else SONNET_MODEL_FOR_REPLAY;
    replayCost := ReplayCost(s.events, model);
  }

  /** One session's tier, and its share of the totals. */
  method Spent(s: Session, deepdive: int, ghost all: seq<Event>, ghost id: string) returns (tier: Tier, spend: Spend)
    requires Describes(s, OfSession(all, id))
    ensures tier == ViewOf(all, deepdive).tier(id) && spend == SessionSpend(ViewOf(all, deepdive), all)(id)
  {
    ghost var events := OfSession(all, id);
    var replayCost;
    tier, replayCost := Classify(s, deepdive, events);
    OfSessionAll(all, id);
    SumAgrees(DOLLARS, events, events, ReplayedCost(all, deepdive), CostAs(ReplayModel(events, deepdive)));
    spend := Spend(s.calls, s.actual, replayCost);
  }

  /** `cmd_tier_replay` up to the printing. */
  method TierReplay(lines: seq<Event>, target: Option<string>, deepdive: int) returns (r: Report)
    ensures IsReplay(Selected(Deduped(lines), target), deepdive, r)
  {
    var events := IterEvents(lines);
    var order, data := Collect(events, target);
    CollectedAt(Selected(events, target), order, data);
    r := AddSessions(order, data, deepdive, Selected(events, target));
    ReportIsTotals(ViewOf(Selected(events, target), deepdive), Selected(events, target), order);
  }

  lemma {:induction false} CollectedAt(all: seq<Event>, order: seq<string>, data: map<string, Session>)
    requires Collected(all, order, data)
    ensures forall i :: 0 <= i < |order| ==> order[i] in data && Describes(data[order[i]], OfSession(all, order[i]))
  {
    forall i | 0 <= i < |order| ensures order[i] in data && Describes(data[order[i]], OfSession(all, order[i])) {
      assert order[i] in order;
      assert Describes(At(data, order[i]), OfSession(all, order[i]));
    }
  }

  /** The second loop. */
  method AddSessions(order: seq<string>, data: map<string, Session>, deepdive: int, ghost all: seq<Event>)
    returns (r: Report)
    requires forall i :: 0 <= i < |order| ==> order[i] in data && Describes(data[order[i]], OfSession(all, order[i]))
    ensures r == ReportOf(TierOfSession(all, deepdive), SessionSpend(ViewOf(all, deepdive), all), order)
  {
    r := Report(0.0, 0.0, map[]);
    for i := 0 to |order|
      invariant r == ReportOf(TierOfSession(all, deepdive), SessionSpend(ViewOf(all, deepdive), all), order[..i])
    {
      ReportNext(TierOfSession(all, deepdive), SessionSpend(ViewOf(all, deepdive), all), order, i);
      var tier, spend := Spent(data[order[i]], deepdive, all, order[i]);
      r := WithSession(r, tier, spend);
    }
    assert order[..|order|] == order;
  }

  // ---- what the replay guarantees ----

  /** The two tiers share out all calls and costs, actual and replayed. */
  lemma {:induction false} TiersPartition(all: seq<Event>, deepdive: int, r: Report)
    requires IsReplay(all, deepdive, r)
    ensures PlusSpend(TierAt(r, A1).spend, TierAt(r, A2).spend) == Spend(|all|, r.actual, r.replay)
    ensures r.actual == Sum(DOLLARS, all, ActualCost)
  {
    SplitByTier(ViewOf(all, deepdive), all);
  }

  /** The line is counted for session `id`. */
  predicate CountsFor(line: Event, target: Option<string>, id: string) {
    line.day.Some? && (target.None? || line.day == target) && line.session == id
  }

  /** The events of a session when `line` takes the place of those that share its key. */
  function Replaced(events: seq<Event>, line: Event, target: Option<string>, id: string): seq<Event> {
    Without(events, line) + if CountsFor(line, target, id) then [line] else []
  }

  /** The events counted for session `id`. */
  function CountedFor(lines: seq<Event>, target: Option<string>, id: string): seq<Event> {
    OfSession(Selected(Deduped(lines), target), id)
  }

  /** What a line put anywhere into the raw log does to a session's tier: nothing if its key was
      seen before it; otherwise it takes the place of the later line with its key, if there is one. */
  lemma {:induction false} NewLineTier(before: seq<Event>, line: Event, after: seq<Event>, target: Option<string>,
                                   deepdive: int, id: string)
    ensures TierOf(CountedFor(before + [line] + after, target, id), deepdive) ==
            TierOf(if Seen(before, line) then CountedFor(before + after, target, id)
                   else Replaced(CountedFor(before + after, target, id), line, target, id), deepdive)
  {
    if Seen(before, line) {
      RepeatedLineIgnored(before, line, after);
    } else {
      var few, many := CountedFor(before + after, target, id), CountedFor(before + [line] + after, target, id);
      forall e ensures e in many <==> e in Replaced(few, line, target, id) {
        CountedIs(before + [line] + after, target, id, e);
        CountedIs(before + after, target, id, e);
        NewLineEvents(before, line, after, e);
        WithoutIs(few, line, e);
      }
      SameEventsSameTier(many, Replaced(few, line, target, id), deepdive);
    }
  }

  lemma {:induction false} CountedIs(lines: seq<Event>, target: Option<string>, id: string, e: Event)
    ensures e in CountedFor(lines, target, id) <==> e in Deduped(lines) && CountsFor(e, target, id)
  {
    InSelected(Deduped(lines), target, e);
    InSession(Selected(Deduped(lines), target), id, e);
  }

  /** Exactly when a line put into the raw log leaves a session in T-A1: when its key was seen before
      it, or the session's other events, and the line if it counts, are still T-A1 without those
      that share the line's key. */
  lemma {:induction false} NewLineKeepsA1Exactly(before: seq<Event>, line: Event, after: seq<Event>, target: Option<string>,
                                   deepdive: int, id: string)
    requires TierOf(CountedFor(before + after, target, id), deepdive) == A1
    ensures TierOf(CountedFor(before + [line] + after, target, id), deepdive) == A1 <==>
              Seen(before, line) || TierOf(Replaced(CountedFor(before + after, target, id), line, target, id), deepdive) == A1
  {
    NewLineTier(before, line, after, target, deepdive, id);
  }

  /** In particular when no later line has its session and message id. */
  lemma {:induction false} NewLineKeepsA1(before: seq<Event>, line: Event, after: seq<Event>, target: Option<string>,
                                   deepdive: int, id: string)
    requires !Seen(after, line)
    requires TierOfSession(Selected(Deduped(before + after), target), deepdive)(id) == A1
    ensures TierOfSession(Selected(Deduped(before + [line] + after), target), deepdive)(id) == A1
  {
    NewLineKeepsA1Exactly(before, line, after, target, deepdive, id);
    if !Seen(before, line) {
      var few := CountedFor(before + after, target, id);
      forall e | e in few ensures e in Replaced(few, line, target, id) {
        CountedIs(before + after, target, id, e);
        NewLineKeepsEvents(before, line, after);
        NewLineEvents(before, line, after, e);
        WithoutIs(few, line, e);
        CountedIs(before + [line] + after, target, id, e);
      }
      MoreEventsKeepA1(few, Replaced(few, line, target, id), deepdive);
    }
  }

  lemma {:induction false} InSelected(events: seq<Event>, target: Option<string>, e: Event)
    ensures e in Selected(events, target) <==> e in events && e.day.Some? && (target.None? || e.day == target)
  {
    if events != [] {
      var front, last := events[..|events| - 1], events[|events| - 1];
      InSelected(front, target, e);
      assert events == front + [last];
    }
  }

  lemma {:induction false} InSession(events: seq<Event>, id: string, e: Event)
    ensures e in OfSession(events, id) <==> e in events && e.session == id
  {
    if events != [] {
      var front, last := events[..|events| - 1], events[|events| - 1];
      InSession(front, id, e);
      assert events == front + [last];
    }
  }

  /** Repeating log lines already seen leaves the report as it was. */
  lemma {:induction false} RepeatedLinesChangeNothing(before: seq<Event>, again: Event, after: seq<Event>, target: Option<string>,
                                   deepdive: int, r: Report, r': Report)
    requires Seen(before, again)
    requires IsReplay(Selected(Deduped(before + after), target), deepdive, r)
    requires IsReplay(Selected(Deduped(before + [again] + after), target), deepdive, r')
    ensures r.actual == r'.actual && r.replay == r'.replay && TierAt(r, A1) == TierAt(r', A1) && TierAt(r, A2) == TierAt(r', A2)
  {
    RepeatedLineIgnored(before, again, after);
  }
}
