/** When a tier replay costs no more than was paid, whatever was used: a question of prices alone. */
module ReplayPrices {
  import opened Buckets
  import opened SessionLog
  import opened Text
  import opened TierTotals
  import opened TierReplay
  import opened Wrappers

  // ---- what the usage does not decide ----

  /** The same events with other usages. */
  function WithUsage(all: seq<Event>, us: seq<Usage>): (r: seq<Event>)
    requires |us| == |all|
    ensures SameButUsage(all, r)
  {
    seq(|all|, i requires 0 <= i < |all| => all[i].(usage := us[i]))
  }

  predicate SameButUsage(a: seq<Event>, b: seq<Event>) {
    |a| == |b| && forall i :: 0 <= i < |a| ==> b[i] == a[i].(usage := b[i].usage)
  }

  lemma {:induction false} SameSession(a: seq<Event>, b: seq<Event>, id: string)
    requires SameButUsage(a, b)
    ensures SameButUsage(OfSession(a, id), OfSession(b, id))
  {
    if a != [] {
      SameSession(a[..|a| - 1], b[..|b| - 1], id);
    }
  }

  lemma {:induction false} SameFirstModel(a: seq<Event>, b: seq<Event>)
    requires SameButUsage(a, b)
    ensures FirstModel(a) == FirstModel(b)
  {
    if a != [] {
      SameFirstModel(a[..|a| - 1], b[..|b| - 1]);
    }
  }

  lemma {:induction false} SameUses(a: seq<Event>, b: seq<Event>, hot: ToolUse -> bool)
    requires SameButUsage(a, b)
    ensures Uses(a, hot) ==> Uses(b, hot)
  {
    if Uses(a, hot) {
      var i :| 0 <= i < |a| && Among(a[i].toolUses, hot);
      assert b[i].toolUses == a[i].toolUses;
    }
  }

  lemma {:induction false} SameHotReads(a: seq<Event>, b: seq<Event>)
    requires SameButUsage(a, b)
    ensures HotReads(a) <= HotReads(b)
  {
    forall path | path in HotReads(a) ensures path in HotReads(b) {
      var e, tu :| e in a && tu in e.toolUses && HotRead(tu) && tu.filePath == path;
      var i :| 0 <= i < |a| && a[i] == e;
      assert b[i] in b && tu in b[i].toolUses;
    }
  }

  /** Neither the tier nor the first model depends on what was used. */
  lemma {:induction false} SameReplayModel(a: seq<Event>, b: seq<Event>, deepdive: int)
    requires SameButUsage(a, b)
    ensures TierOf(a, deepdive) == TierOf(b, deepdive) && ReplayModel(a, deepdive) == ReplayModel(b, deepdive)
  {
    SameFirstModel(a, b);
    SameTier(a, b, deepdive);
  }

  lemma {:induction false} SameTier(a: seq<Event>, b: seq<Event>, deepdive: int)
    requires SameButUsage(a, b)
    ensures TierOf(a, deepdive) == TierOf(b, deepdive)
  {
    SameUses(a, b, HotWrite);
    SameUses(b, a, HotWrite);
    SameUses(a, b, HotBash);
    SameUses(b, a, HotBash);
    SameHotReads(a, b);
    SameHotReads(b, a);
    assert HotReads(a) == HotReads(b);
  }

  // ---- rows of the price table ----

  /** No rate of `a` is above that of `b`. */
  predicate RowNoDearer(a: Price, b: Price) {
    a.input <= b.input && a.output <= b.output && a.cacheRead <= b.cacheRead && a.cacheWrite <= b.cacheWrite
  }

  /** The price event `i` is replayed at. */
  ghost function ReplayRow(all: seq<Event>, deepdive: int, i: nat): Price
    requires i < |all|
  {
    ResolvePrice(ReplayModel(OfSession(all, all[i].session), deepdive))
  }

  /** What event `i` is replayed at is no dearer, rate by rate, than what it was paid at. */
  ghost predicate EventNoDearer(all: seq<Event>, deepdive: int, i: nat)
    requires i < |all|
  {
    RowNoDearer(ReplayRow(all, deepdive, i), ResolvePrice(all[i].model))
  }

  lemma {:induction false} Times(n: nat, a: real, b: real)
    requires a <= b
    ensures n as real * a <= n as real * b
  {
    assert n as real * (b - a) >= 0.0;
  }

  lemma {:induction false} PricedNoDearer(u: Usage, a: Price, b: Price)
    requires RowNoDearer(a, b)
    ensures Priced(u, a) <= Priced(u, b)
  {
    Times(u.input, a.input, b.input);
    Times(u.output, a.output, b.output);
    Times(u.cacheRead, a.cacheRead, b.cacheRead);
    Times(u.cacheWrite, a.cacheWrite, b.cacheWrite);
  }

  const NO_USAGE := Usage(0, 0, 0, 0)

  /** One token of a kind that is dearer tells the rows apart. */
  lemma {:induction false} DearerToken(a: Price, b: Price) returns (u: Usage)
    requires !RowNoDearer(a, b)
    ensures Priced(u, a) > Priced(u, b)
  {
    u := if a.input > b.input then Usage(1, 0, 0, 0)
         else if a.output > b.output then Usage(0, 1, 0, 0)
         else if a.cacheRead > b.cacheRead then Usage(0, 0, 1, 0)
         else Usage(0, 0, 0, 1);
    PricedTokens(a);
    PricedTokens(b);
  }

  lemma {:induction false} PricedTokens(p: Price)
    ensures Priced(NO_USAGE, p) == 0.0
    ensures Priced(Usage(1, 0, 0, 0), p) == p.input / 1000000.0 && Priced(Usage(0, 1, 0, 0), p) == p.output / 1000000.0
    ensures Priced(Usage(0, 0, 1, 0), p) == p.cacheRead / 1000000.0 && Priced(Usage(0, 0, 0, 1), p) == p.cacheWrite / 1000000.0
  {
  }

  // ---- the replay ----

  /** What an event costs replayed and cost, with whatever it used. */
  lemma {:induction false} CostsOf(all: seq<Event>, us: seq<Usage>, deepdive: int, i: nat)
    requires i < |all| == |us|
    ensures var (v, e) := (ViewOf(WithUsage(all, us), deepdive), WithUsage(all, us)[i]);
            v.replay(e) == Priced(us[i], ReplayRow(all, deepdive, i)) && v.actual(e) == Priced(us[i], ResolvePrice(all[i].model))
  {
    var used := WithUsage(all, us);
    SameSession(all, used, all[i].session);
    SameReplayModel(OfSession(all, all[i].session), OfSession(used, all[i].session), deepdive);
  }

  ghost predicate NeverDearer(all: seq<Event>, deepdive: int) {
    forall us, r :: |us| == |all| && IsReplay(WithUsage(all, us), deepdive, r) ==> r.replay <= r.actual
  }

  /** Exactly when the replay never costs more than was paid, whatever the sessions used: when every
      event is replayed at a row of prices no dearer than the one it was paid at. */
  lemma {:induction false} ReplayNoDearerExactly(all: seq<Event>, deepdive: int)
    ensures NeverDearer(all, deepdive) <==> forall i :: 0 <= i < |all| ==> EventNoDearer(all, deepdive, i)
  {
    if forall i :: 0 <= i < |all| ==> EventNoDearer(all, deepdive, i) {
      forall us, r | |us| == |all| && IsReplay(WithUsage(all, us), deepdive, r) ensures r.replay <= r.actual {
        UsedNoDearer(all, us, deepdive, r);
      }
    } else {
      var k :| 0 <= k < |all| && !EventNoDearer(all, deepdive, k);
      var us, r := DearerUsage(all, deepdive, k);
    }
  }

  lemma {:induction false} UsedNoDearer(all: seq<Event>, us: seq<Usage>, deepdive: int, r: Report)
    requires |us| == |all| && IsReplay(WithUsage(all, us), deepdive, r)
    requires forall i :: 0 <= i < |all| ==> EventNoDearer(all, deepdive, i)
    ensures r.replay <= r.actual
    ensures TierAt(r, A1).spend.replay <= TierAt(r, A1).spend.actual
    ensures TierAt(r, A2).spend.replay <= TierAt(r, A2).spend.actual
  {
    var used := WithUsage(all, us);
    var v := ViewOf(used, deepdive);
    forall i | 0 <= i < |used| ensures v.replay(used[i]) <= v.actual(used[i]) {
      CostsOf(all, us, deepdive, i);
      assert EventNoDearer(all, deepdive, i);
      PricedNoDearer(us[i], ReplayRow(all, deepdive, i), ResolvePrice(all[i].model));
    }
    NoDearer(v, used);
    PartNoDearer(v, used, A1);
    PartNoDearer(v, used, A2);
  }

  /** An event replayed at a dearer row, when it alone used anything. */
  lemma {:induction false} DearerUsage(all: seq<Event>, deepdive: int, k: nat) returns (us: seq<Usage>, r: Report)
    requires k < |all| && !EventNoDearer(all, deepdive, k)
    ensures |us| == |all| && IsReplay(WithUsage(all, us), deepdive, r) && r.replay > r.actual
  {
    var u := DearerToken(ReplayRow(all, deepdive, k), ResolvePrice(all[k].model));
    us := seq(|all|, i => if i == k then u else NO_USAGE);
    var used := WithUsage(all, us);
    var v := ViewOf(used, deepdive);
    forall i | 0 <= i < |used| && i != k ensures v.actual(used[i]) == 0.0 == v.replay(used[i]) {
      CostsOf(all, us, deepdive, i);
      PricedTokens(ReplayRow(all, deepdive, i));
      PricedTokens(ResolvePrice(all[i].model));
    }
    CostsOf(all, us, deepdive, k);
    OnlyOneCosts(v, used, k);
    r := SomeReport(v, used);
  }

  /** Under that condition neither the whole nor a tier costs more replayed than was paid; where each
      mandatory Opus session keeps the price of its first model, that tier costs just that. */
  lemma {:induction false} ReplayNoDearer(all: seq<Event>, deepdive: int, r: Report)
    requires IsReplay(all, deepdive, r) && forall i :: 0 <= i < |all| ==> EventNoDearer(all, deepdive, i)
    ensures r.replay <= r.actual
    ensures TierAt(r, A1).spend.replay <= TierAt(r, A1).spend.actual
    ensures TierAt(r, A2).spend.replay <= TierAt(r, A2).spend.actual
    ensures KeepsPrice(all, deepdive) ==> TierAt(r, A1).spend.replay == TierAt(r, A1).spend.actual
  {
    var us := seq(|all|, i requires 0 <= i < |all| => all[i].usage);
    assert WithUsage(all, us) == all;
    UsedNoDearer(all, us, deepdive, r);
    if KeepsPrice(all, deepdive) {
      PartSame(ViewOf(all, deepdive), all, A1);
    }
  }

  /** Each event of a mandatory Opus session has the price of the session's first model. */
  ghost predicate KeepsPrice(all: seq<Event>, deepdive: int) {
    forall i :: 0 <= i < |all| && TierOf(OfSession(all, all[i].session), deepdive) == A1 ==>
      ResolvePrice(all[i].model) == ResolvePrice(FirstModel(OfSession(all, all[i].session)))
  }

  /** In the prices of the table: a session to be replayed with Sonnet has no event priced as Haiku,
      and a mandatory Opus session none cheaper than its first model. */
  lemma {:induction false} NoDearerIs(all: seq<Event>, deepdive: int, i: nat)
    requires i < |all|
    ensures var (events, paid) := (OfSession(all, all[i].session), ResolvePrice(all[i].model));
            EventNoDearer(all, deepdive, i) <==>
              if TierOf(events, deepdive) == A2 then paid != HAIKU
              else
                var first := ResolvePrice(FirstModel(events));
                first == HAIKU || paid == OPUS || first == paid
  {
    ReplayPrice();
    ThreeRows(all[i].model);
    ThreeRows(FirstModel(OfSession(all, all[i].session)));
  }

  lemma {:induction false} ThreeRows(model: string)
    ensures ResolvePrice(model) == OPUS || ResolvePrice(model) == SONNET || ResolvePrice(model) == HAIKU
  {
  }

  /** Without the condition the replay can be dearer: a Haiku session replayed with Sonnet. */
  lemma {:induction false} HaikuReplayDearer(e: Event, deepdive: int, r: Report)
    requires e.model == "claude-haiku-4-5" && e.usage == Usage(1, 0, 0, 0) && e.toolUses == [] && deepdive > 0
    requires IsReplay([e], deepdive, r)
    ensures r.replay > r.actual
  {
    var all, v := [e], ViewOf([e], deepdive);
    HaikuSession(e, deepdive);
    HaikuCosts(e.usage);
    SumOne(SPENDING, [], e, SpendOf(v));
    assert [] + [e] == all;
  }

  lemma {:induction false} HaikuSession(e: Event, deepdive: int)
    requires e.toolUses == [] && deepdive > 0
    ensures OfSession([e], e.session) == [e] && TierOf([e], deepdive) == A2
  {
    assert [e][..0] == [];
    NoToolUses(e, deepdive);
  }

  lemma {:induction false} HaikuCosts(u: Usage)
    requires u == Usage(1, 0, 0, 0)
    ensures CostOf(u, SONNET_MODEL_FOR_REPLAY) > CostOf(u, "claude-haiku-4-5")
  {
    ReplayPrice();
    HaikuPrice();
  }

  /** Nor are Haiku and T-A2 needed for that: a mandatory Opus session whose first model is Opus and
      whose only usage is Sonnet's is replayed at five times the price. */
  lemma {:induction false} MixedSessionReplayDearer(deepdive: int, r: Report)
    requires IsReplay(MIXED_SESSION, deepdive, r)
    ensures TierOf(OfSession(MIXED_SESSION, "s"), deepdive) == A1
    ensures r.actual == 3.0 / 1000000.0 && r.replay == 15.0 / 1000000.0
  {
    var all, v := MIXED_SESSION, ViewOf(MIXED_SESSION, deepdive);
    MixedModels();
    MixedTier(deepdive);
    PricedTokens(OPUS);
    PricedTokens(SONNET);
    assert v.actual(all[0]) == 0.0 == v.replay(all[0]);
    OnlyOneCosts(v, all, 1);
  }

  const HOT_EDIT := ToolUse("Edit", "src/ragbot/", "", "")

  const MIXED_SESSION := [Event("s", "1", "claude-opus-4-7", NO_USAGE, Some("2026-01-01"), [HOT_EDIT]),
                          Event("s", "2", "claude-sonnet-4-6", Usage(1, 0, 0, 0), Some("2026-01-01"), [])]

  lemma {:induction false} MixedModels()
    ensures ResolvePrice("claude-opus-4-7") == OPUS && ResolvePrice("claude-sonnet-4-6") == SONNET
  {
    assert HeldAt("claude-opus-4-7", "claude-opus-4-7", 0);
    ReplayPrice();
  }

  lemma {:induction false} PairSession(a: Event, b: Event)
    requires a.session == b.session && a.model != ""
    ensures OfSession([a, b], a.session) == [a, b] && FirstModel([a, b]) == a.model
  {
    assert [a, b][..1] == [a] && [a][..0] == [];
    assert OfSession([a], a.session) == [a] && FirstModel([a]) == a.model;
  }

  lemma {:induction false} MixedTier(deepdive: int)
    ensures OfSession(MIXED_SESSION, "s") == MIXED_SESSION && TierOf(MIXED_SESSION, deepdive) == A1
    ensures FirstModel(MIXED_SESSION) == "claude-opus-4-7"
  {
    var all := MIXED_SESSION;
    PairSession(all[0], all[1]);
    assert all == [all[0], all[1]];
    assert HeldAt(HOT_EDIT.filePath, "src/ragbot/", 0);
    assert HotWrite(all[0].toolUses[0]);
    assert Among(all[0].toolUses, HotWrite);
  }
}
