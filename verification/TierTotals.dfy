/** The totals of a tier replay, for any way of assigning tiers and costs: event by event, and
    session by session as the second loop of `cmd_tier_replay` adds them up. */
module TierTotals {
  import opened Buckets
  import opened SessionLog

  function SessionOf(e: Event): string {
    e.session
  }

  function OfSession(events: seq<Event>, id: string): seq<Event> {
    if events == [] then []
    else
      var front, last := events[..|events| - 1], events[|events| - 1];
      if last.session == id then OfSession(front, id) + [last] else OfSession(front, id)
  }

  lemma {:induction false} OfSessionAll(events: seq<Event>, id: string)
    ensures forall i :: 0 <= i < |OfSession(events, id)| ==> OfSession(events, id)[i].session == id
  {
    if events != [] {
      OfSessionAll(events[..|events| - 1], id);
    }
  }

  function Add(a: real, b: real): real {
    a + b
  }

  const DOLLARS := Adding(0.0, Add)

  datatype Spend = Spend(calls: int, actual: real, replay: real)

  function PlusSpend(a: Spend, b: Spend): Spend {
    Spend(a.calls + b.calls, a.actual + b.actual, a.replay + b.replay)
  }

  const NO_SPEND := Spend(0, 0.0, 0.0)
  const SPENDING := Adding(NO_SPEND, PlusSpend)

  datatype TierTotals = TierTotals(sessions: nat, spend: Spend)

  datatype Report = Report(actual: real, replay: real, byTier: map<Tier, TierTotals>)

  function TierAt(r: Report, t: Tier): TierTotals {
    if t in r.byTier then r.byTier[t] else TierTotals(0, NO_SPEND)
  }

  /** The tier of each session, and what each event cost and costs replayed. */
  datatype View = View(tier: string -> Tier, actual: Event -> real, replay: Event -> real)

  function SpendOf(v: View): Event -> Spend {
    (e: Event) => Spend(1, v.actual(e), v.replay(e))
  }

  /** The same, for the sessions of one tier. */
  function SpendIn(v: View, t: Tier): Event -> Spend {
    (e: Event) => if v.tier(e.session) == t then SpendOf(v)(e) else NO_SPEND
  }

  function SessionsIn(v: View, all: seq<Event>, t: Tier): set<string> {
    set e | e in all && v.tier(e.session) == t :: e.session
  }

  /** Totals event by event, whole and by the tier of the event's session. */
  ghost predicate Totals(v: View, all: seq<Event>, r: Report) {
    && r.actual == Sum(SPENDING, all, SpendOf(v)).actual
    && r.replay == Sum(SPENDING, all, SpendOf(v)).replay
    && TierTotal(v, all, r, A1) && TierTotal(v, all, r, A2)
  }

  ghost predicate TierTotal(v: View, all: seq<Event>, r: Report, t: Tier) {
    TierAt(r, t) == TierTotals(|SessionsIn(v, all, t)|, Sum(SPENDING, all, SpendIn(v, t)))
  }

  // ---- session by session ----

  function SessionSpend(v: View, all: seq<Event>): string -> Spend {
    (id: string) =>
      Spend(|OfSession(all, id)|, Sum(DOLLARS, OfSession(all, id), v.actual), Sum(DOLLARS, OfSession(all, id), v.replay))
  }

  /** `spend`, for the sessions of one tier. */
  function TierSpend(tier: string -> Tier, spend: string -> Spend, t: Tier): string -> Spend {
    (id: string) => if tier(id) == t then spend(id) else NO_SPEND
  }

  /** The sessions of one tier among `order`. */
  function TierSessions(tier: string -> Tier, order: seq<string>, t: Tier): set<string> {
    set id | id in order && tier(id) == t
  }

  lemma {:induction false} SessionAddsUp(v: View, part: seq<Event>, id: string)
    ensures SumAt(SPENDING, part, SessionOf, id, SpendOf(v)) == SessionSpend(v, part)(id)
    decreases |part|
  {
    if part != [] {
      var front, last := part[..|part| - 1], part[|part| - 1];
      assert part == front + [last];
      SessionAddsUp(v, front, id);
      OneMoreSpend(front, last, id, SpendOf(v));
    }
  }

  lemma {:induction false} OneMoreSpend(rows: seq<Event>, e: Event, id: string, f: Event -> Spend)
    ensures SumAt(SPENDING, rows + [e], SessionOf, id, f) ==
            if e.session == id then PlusSpend(SumAt(SPENDING, rows, SessionOf, id, f), f(e))
            else SumAt(SPENDING, rows, SessionOf, id, f)
  {
    BucketOneMore(SPENDING, rows, e, SessionOf, id, f);
  }

  lemma {:induction false} TierSessionAddsUp(v: View, t: Tier, part: seq<Event>, id: string)
    ensures SumAt(SPENDING, part, SessionOf, id, SpendIn(v, t)) ==
            if v.tier(id) == t then SumAt(SPENDING, part, SessionOf, id, SpendOf(v)) else NO_SPEND
    decreases |part|
  {
    if part != [] {
      var front, last := part[..|part| - 1], part[|part| - 1];
      assert part == front + [last];
      TierSessionAddsUp(v, t, front, id);
      OneMoreSpend(front, last, id, SpendOf(v));
      OneMoreSpend(front, last, id, SpendIn(v, t));
    }
  }

  /** Added up session by session or event by event, the totals are the same. */
  lemma {:induction false} SessionsAddUp(v: View, all: seq<Event>, order: seq<string>)
    requires Keys(all, SessionOf, order)
    ensures Sum(SPENDING, order, SessionSpend(v, all)) == Sum(SPENDING, all, SpendOf(v))
  {
    SpendOverSessions(all, order, SpendOf(v));
    forall i | 0 <= i < |order|
      ensures SessionSpend(v, all)(order[i]) == Bucket(SPENDING, all, SessionOf, SpendOf(v))(order[i])
    {
      SessionAddsUp(v, all, order[i]);
    }
    SumAgrees(SPENDING, order, order, SessionSpend(v, all), Bucket(SPENDING, all, SessionOf, SpendOf(v)));
  }

  lemma {:induction false} SpendOverSessions(all: seq<Event>, order: seq<string>, f: Event -> Spend)
    requires Keys(all, SessionOf, order) && forall i :: 0 <= i < |all| ==> SessionOf(all[i]) in order
    ensures SumOver(SPENDING, order, all, SessionOf, f) == Sum(SPENDING, all, f)
  {
    BucketsAddUp(SPENDING, order, all, SessionOf, f);
  }

  lemma {:induction false} TierSessionsAddUp(v: View, t: Tier, all: seq<Event>, order: seq<string>)
    requires Keys(all, SessionOf, order)
    ensures Sum(SPENDING, order, TierSpend(v.tier, SessionSpend(v, all), t)) == Sum(SPENDING, all, SpendIn(v, t))
  {
    SpendOverSessions(all, order, SpendIn(v, t));
    forall i | 0 <= i < |order|
      ensures TierSpend(v.tier, SessionSpend(v, all), t)(order[i]) == Bucket(SPENDING, all, SessionOf, SpendIn(v, t))(order[i])
    {
      SessionAddsUp(v, all, order[i]);
      TierSessionAddsUp(v, t, all, order[i]);
    }
    SumAgrees(SPENDING, order, order, TierSpend(v.tier, SessionSpend(v, all), t), Bucket(SPENDING, all, SessionOf, SpendIn(v, t)));
  }

  lemma {:induction false} AllSessions(v: View, t: Tier, all: seq<Event>, order: seq<string>)
    requires Keys(all, SessionOf, order)
    ensures TierSessions(v.tier, order, t) == SessionsIn(v, all, t)
  {
    forall id ensures id in order <==> exists e :: e in all && e.session == id {
      if id in order {
        assert Has(all, SessionOf, id);
        var i :| 0 <= i < |all| && SessionOf(all[i]) == id;
        assert all[i] in all;
      }
      if e :| e in all && e.session == id {
        var i :| 0 <= i < |all| && all[i] == e;
        assert Has(all, SessionOf, id);
      }
    }
  }

  /** The report with one more session of tier `t`. */
  function WithSession(r: Report, t: Tier, spend: Spend): Report {
    var was := TierAt(r, t);
    Report(r.actual + spend.actual, r.replay + spend.replay,
           r.byTier[t := TierTotals(was.sessions + 1, PlusSpend(was.spend, spend))])
  }

  /** The report after the sessions of `order`, given the tier and the spend of each. */
  function ReportOf(tier: string -> Tier, spend: string -> Spend, order: seq<string>): Report {
    if order == [] then Report(0.0, 0.0, map[])
    else
      var front, id := order[..|order| - 1], order[|order| - 1];
      WithSession(ReportOf(tier, spend, front), tier(id), spend(id))
  }

  lemma {:induction false} ReportNext(tier: string -> Tier, spend: string -> Spend, order: seq<string>, i: nat)
    requires i < |order|
    ensures ReportOf(tier, spend, order[..i + 1]) ==
            WithSession(ReportOf(tier, spend, order[..i]), tier(order[i]), spend(order[i]))
  {
    assert order[..i + 1][..i] == order[..i];
  }

  lemma {:induction false} WholeReport(tier: string -> Tier, spend: string -> Spend, order: seq<string>)
    ensures var r := ReportOf(tier, spend, order);
            r.actual == Sum(SPENDING, order, spend).actual && r.replay == Sum(SPENDING, order, spend).replay
    decreases |order|
  {
    if order != [] {
      WholeReport(tier, spend, order[..|order| - 1]);
    }
  }

  lemma {:induction false} TierReport(tier: string -> Tier, spend: string -> Spend, order: seq<string>, t: Tier)
    requires forall i, j :: 0 <= i < j < |order| ==> order[i] != order[j]
    ensures TierAt(ReportOf(tier, spend, order), t) ==
            TierTotals(|TierSessions(tier, order, t)|, Sum(SPENDING, order, TierSpend(tier, spend, t)))
    decreases |order|
  {
    if order == [] {
      assert TierSessions(tier, order, t) == {};
    } else {
      var front, id := order[..|order| - 1], order[|order| - 1];
      TierReport(tier, spend, front, t);
      assert order == front + [id];
      TierSpendOne(tier, spend, front, id, t);
      OneMoreSession(tier, front, id, t);
    }
  }

  lemma {:induction false} TierSpendOne(tier: string -> Tier, spend: string -> Spend, order: seq<string>, id: string, t: Tier)
    ensures var before := Sum(SPENDING, order, TierSpend(tier, spend, t));
            Sum(SPENDING, order + [id], TierSpend(tier, spend, t)) ==
            if tier(id) == t then PlusSpend(before, spend(id)) else before
  {
    SumOne(SPENDING, order, id, TierSpend(tier, spend, t));
  }

  lemma {:induction false} OneMoreSession(tier: string -> Tier, order: seq<string>, id: string, t: Tier)
    requires id !in order
    ensures |TierSessions(tier, order + [id], t)| == |TierSessions(tier, order, t)| + if tier(id) == t then 1 else 0
  {
    assert TierSessions(tier, order + [id], t) == TierSessions(tier, order, t) + if tier(id) == t then {id} else {};
  }

  /** Added up session by session, the report has the totals of the events. */
  lemma {:induction false} ReportIsTotals(v: View, all: seq<Event>, order: seq<string>)
    requires Keys(all, SessionOf, order)
    ensures Totals(v, all, ReportOf(v.tier, SessionSpend(v, all), order))
  {
    WholeReport(v.tier, SessionSpend(v, all), order);
    SessionsAddUp(v, all, order);
    TierReportIsTotal(v, all, order, A1);
    TierReportIsTotal(v, all, order, A2);
  }

  lemma {:induction false} TierReportIsTotal(v: View, all: seq<Event>, order: seq<string>, t: Tier)
    requires Keys(all, SessionOf, order)
    ensures TierTotal(v, all, ReportOf(v.tier, SessionSpend(v, all), order), t)
  {
    TierReport(v.tier, SessionSpend(v, all), order, t);
    TierSessionsAddUp(v, t, all, order);
    AllSessions(v, t, all, order);
  }

  // ---- what holds of the totals ----

  lemma {:induction false} SplitByTier(v: View, part: seq<Event>)
    ensures var whole := Sum(SPENDING, part, SpendOf(v));
            PlusSpend(Sum(SPENDING, part, SpendIn(v, A1)), Sum(SPENDING, part, SpendIn(v, A2))) == whole
            && whole.calls == |part| && whole.actual == Sum(DOLLARS, part, v.actual)
            && whole.replay == Sum(DOLLARS, part, v.replay)
    decreases |part|
  {
    if part != [] {
      SplitByTier(v, part[..|part| - 1]);
    }
  }

  /** When no event costs more replayed, neither do all together. */
  lemma {:induction false} NoDearer(v: View, all: seq<Event>)
    requires forall i :: 0 <= i < |all| ==> v.replay(all[i]) <= v.actual(all[i])
    ensures Sum(SPENDING, all, SpendOf(v)).replay <= Sum(SPENDING, all, SpendOf(v)).actual
  {
    if all != [] {
      NoDearer(v, all[..|all| - 1]);
    }
  }

  lemma {:induction false} PartNoDearer(v: View, part: seq<Event>, t: Tier)
    requires forall i :: 0 <= i < |part| ==> v.replay(part[i]) <= v.actual(part[i])
    ensures Sum(SPENDING, part, SpendIn(v, t)).replay <= Sum(SPENDING, part, SpendIn(v, t)).actual
  {
    if part != [] {
      var front, last := part[..|part| - 1], part[|part| - 1];
      assert part == front + [last] && v.replay(last) <= v.actual(last);
      PartNoDearer(v, front, t);
      OneMoreNoDearer(v, front, last, t);
    }
  }

  lemma {:induction false} OneMoreNoDearer(v: View, part: seq<Event>, e: Event, t: Tier)
    requires v.replay(e) <= v.actual(e)
    requires Sum(SPENDING, part, SpendIn(v, t)).replay <= Sum(SPENDING, part, SpendIn(v, t)).actual
    ensures Sum(SPENDING, part + [e], SpendIn(v, t)).replay <= Sum(SPENDING, part + [e], SpendIn(v, t)).actual
  {
    OneMoreIn(v, part, e, t);
  }

  lemma {:induction false} OneMoreIn(v: View, part: seq<Event>, e: Event, t: Tier)
    ensures var (before, after) := (Sum(SPENDING, part, SpendIn(v, t)), Sum(SPENDING, part + [e], SpendIn(v, t)));
            && after.actual == before.actual + (if v.tier(e.session) == t then v.actual(e) else 0.0)
            && after.replay == before.replay + if v.tier(e.session) == t then v.replay(e) else 0.0
  {
    SumOne(SPENDING, part, e, SpendIn(v, t));
  }

  /** When every event of a tier costs the same replayed, so do all of them together. */
  lemma {:induction false} PartSame(v: View, part: seq<Event>, t: Tier)
    requires forall i :: 0 <= i < |part| && v.tier(part[i].session) == t ==> v.replay(part[i]) == v.actual(part[i])
    ensures Sum(SPENDING, part, SpendIn(v, t)).replay == Sum(SPENDING, part, SpendIn(v, t)).actual
  {
    if part != [] {
      PartSame(v, part[..|part| - 1], t);
    }
  }

  /** Where only one event costs anything, that is the whole. */
  lemma {:induction false} OnlyOneCosts(v: View, part: seq<Event>, k: nat)
    requires k < |part| && forall i :: 0 <= i < |part| && i != k ==> v.actual(part[i]) == 0.0 == v.replay(part[i])
    ensures Sum(SPENDING, part, SpendOf(v)).actual == v.actual(part[k])
    ensures Sum(SPENDING, part, SpendOf(v)).replay == v.replay(part[k])
  {
    var front := part[..|part| - 1];
    if k < |front| {
      OnlyOneCosts(v, front, k);
    } else {
      NothingCosts(v, front);
    }
  }

  lemma {:induction false} NothingCosts(v: View, part: seq<Event>)
    requires forall i :: 0 <= i < |part| ==> v.actual(part[i]) == 0.0 == v.replay(part[i])
    ensures Sum(SPENDING, part, SpendOf(v)).actual == 0.0 == Sum(SPENDING, part, SpendOf(v)).replay
  {
    if part != [] {
      NothingCosts(v, part[..|part| - 1]);
    }
  }

  /** Every list of events has a report. */
  lemma {:induction false} SomeReport(v: View, all: seq<Event>) returns (r: Report)
    ensures Totals(v, all, r)
  {
    var whole := Sum(SPENDING, all, SpendOf(v));
    r := Report(whole.actual, whole.replay,
                map[A1 := TierTotals(|SessionsIn(v, all, A1)|, Sum(SPENDING, all, SpendIn(v, A1))),
                    A2 := TierTotals(|SessionsIn(v, all, A2)|, Sum(SPENDING, all, SpendIn(v, A2)))]);
  }
}
