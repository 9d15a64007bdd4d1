/** The state `main` of `scripts/capture_score_model.py` keeps while it runs, and the code that
    changes it: resuming from the file, opening a bot, one question with its awaits, the section
    under `save_lock`, and the last save.  At every `await` other tasks may run any events of
    theirs; what the methods do is proved to be a history of ScoreRuns, so everything
    ScoreRunsSafety proves of histories holds of it. */
module CaptureScore {
  import opened Wrappers
  import opened ScoreRuns
  import opened ScoreRunsSteps
  import opened ScoreRunsSafety
  import opened ScoreRunsRows

  datatype SaveOutcome = Completes | RaisesBeforeOpen | RaisesMidWrite

  datatype Asked = Answers(answer: Option<string>) | AskRaises

  /** Everything the script does not decide, as a function of how often it has waited. */
  datatype Oracle = Oracle(
    others: nat -> seq<Event>,     // what other tasks do meanwhile
    ask: nat -> Asked,
    scoreRaises: nat -> bool,
    save: nat -> SaveOutcome)

  // ---- other tasks ----

  predicate IsForeign(ev: Event, i: nat) {
    IsTaskEvent(ev) && ev.i != i
  }

  /** The events of tasks other than `i`. */
  function Foreign(evs: seq<Event>, i: nat): (r: seq<Event>)
    ensures forall k :: 0 <= k < |r| ==> IsForeign(r[k], i)
  {
    if |evs| == 0 then []
    else (if IsForeign(evs[0], i) then [evs[0]] else []) + Foreign(evs[1..], i)
  }

  ghost predicate SameBot(a: Run, b: Run) {
    a.bots == b.bots && a.cur == b.cur && a.docByBot == b.docByBot && |a.tasks| == |b.tasks|
  }

  lemma {:induction false} ForeignStep(s: Sys, ev: Event, i: nat, t: Task)
    requires s.run.Some? && At(s.run.value, i, t) && IsForeign(ev, i)
    ensures var s' := Apply(s, ev);
            s'.gold == s.gold && s'.run.Some? && At(s'.run.value, i, t) && SameBot(s.run.value, s'.run.value)
  {
    if ev.i < |s.run.value.tasks| {
      TaskApply(s, ev.i, ev);
      TaskFrame(s.disk, s.run.value, ev.i, ev);
    }
  }

  lemma {:induction false} ForeignHistory(s: Sys, evs: seq<Event>, i: nat, t: Task)
    requires s.run.Some? && At(s.run.value, i, t) && forall k :: 0 <= k < |evs| ==> IsForeign(evs[k], i)
    ensures var s' := History(s, evs);
            s'.gold == s.gold && s'.run.Some? && At(s'.run.value, i, t) && SameBot(s.run.value, s'.run.value)
    decreases |evs|
  {
    if |evs| > 0 {
      ForeignStep(s, evs[0], i, t);
      ForeignHistory(Apply(s, evs[0]), evs[1..], i, t);
    }
  }

  // ---- under the lock ----

  /** The events of one section under the lock. */
  function Section(i: nat, outcome: SaveOutcome): seq<Event> {
    match outcome
    case Completes => [Lock(i), OpenFile(i), WriteFile(i)]
    case RaisesBeforeOpen => [Lock(i), SaveRaises(i)]
    case RaisesMidWrite => [Lock(i), OpenFile(i), SaveRaises(i)]
  }

  /** The file after a save of `docs`. */
  function SavedAs(disk: Disk, docs: seq<Doc>, outcome: SaveOutcome): Disk {
    match outcome
    case Completes => Saved(docs)
    case RaisesBeforeOpen => disk
    case RaisesMidWrite => Torn
  }

  /** The run after task `i` recorded `row` in document `k`. */
  function AfterSection(r: Run, i: nat, k: nat, row: Row, outcome: SaveOutcome): Run
    requires r.cur < |r.bots| && i < |r.tasks| && k < |r.docs|
  {
    SetTask(r, i, Ended).(
    docs := Recompute(AppendRow(r.docs, k, row)), done := r.done + {Qid(Current(r), i)}, lock := None,
    dirty := !outcome.Completes?, saveRaised := r.saveRaised || !outcome.Completes?)
  }

  lemma {:induction false} SectionSteps(s: Sys, i: nat, k: nat, row: Row, outcome: SaveOutcome)
    requires s.run.Some? && At(s.run.value, i, Ready(row)) && s.run.value.lock.None?
    requires Current(s.run.value) in s.run.value.docByBot && k == s.run.value.docByBot[Current(s.run.value)] < |s.run.value.docs|
    ensures var r := AfterSection(s.run.value, i, k, row, outcome);
            History(s, Section(i, outcome)) == s.(disk := SavedAs(s.disk, r.docs, outcome), run := Some(r))
  {
    var s1 := Apply(s, Lock(i));
    LockStep(s, i, k, row);
    SectionEnds(s1, i, outcome);
    var tasks := s.run.value.tasks;
    assert tasks[i := Saving(false)][i := Ended] == tasks[i := Ended];
    assert Section(i, outcome) == [Lock(i)] + Section(i, outcome)[1..];
  }

  /** The section from the lock on. */
  lemma {:induction false} SectionEnds(s: Sys, i: nat, outcome: SaveOutcome)
    requires s.run.Some? && At(s.run.value, i, Saving(false))
    ensures var r := s.run.value;
            History(s, Section(i, outcome)[1..]) ==
            s.(disk := SavedAs(s.disk, r.docs, outcome),
               run := Some(SetTask(r, i, Ended).(lock := None, dirty := if outcome.Completes? then false else r.dirty,
                                                 saveRaised := r.saveRaised || !outcome.Completes?)))
  {
    if outcome.RaisesBeforeOpen? {
      SaveEnds(s, i, false);
      OneEvent(s, SaveRaises(i));
    } else {
      var s1 := Apply(s, OpenFile(i));
      OpenStep(s, i);
      SaveEnds(s1, i, true);
      assert s.run.value.tasks[i := Saving(true)][i := Ended] == s.run.value.tasks[i := Ended];
      var last := if outcome.Completes? then WriteFile(i) else SaveRaises(i);
      assert Section(i, outcome)[1..] == [OpenFile(i), last];
      TwoEvents(s, OpenFile(i), last);
    }
  }

  lemma {:induction false} FinalSteps(s: Sys)
    requires s.run.Some? && s.run.value.main.Between? && s.run.value.cur == |s.run.value.bots|
    ensures var docs := Recompute(s.run.value.docs);
            History(s, [FinalOpen, FinalWrite]) ==
            s.(disk := Saved(docs), run := Some(s.run.value.(docs := docs, dirty := false, main := Finished)))
  {
    TwoEvents(s, FinalOpen, FinalWrite);
  }

  // ---- what holds between the steps ----

  lemma {:induction false} DocFacts(start: Sys, trace: seq<Event>, s: Sys)
    requires start.run.None? && DiskOk(start.disk) && s == History(start, trace) && s.run.Some?
    ensures var r := s.run.value;
            Indexed(r.docs, r.docByBot) && OncePerId(r.docs) && r.done == IdSet(r.docs)
  {
    HistoryKeeps(start, trace);
  }

  lemma {:induction false} TaskFacts(start: Sys, trace: seq<Event>, s: Sys, i: nat, t: Task)
    requires start.run.None? && DiskOk(start.disk) && s == History(start, trace)
    requires s.run.Some? && At(s.run.value, i, t)
    ensures TaskOk(s.run.value, i) && s.run.value.failed !! s.run.value.done
  {
    HistoryKeeps(start, trace);
    assert RunOk(s.gold, s.disk, s.run.value);
  }

  /** What the last save leaves. */
  lemma {:induction false} FinalFacts(start: Sys, trace: seq<Event>, s: Sys)
    requires start.run.None? && DiskOk(start.disk) && s == History(start, trace)
    requires s.run.Some? && s.run.value.main.Between? && s.run.value.cur == |s.run.value.bots|
    ensures var (r, docs) := (s.run.value, Recompute(s.run.value.docs));
            && History(s, [FinalOpen, FinalWrite]) ==
               Sys(s.gold, Saved(docs), Some(r.(docs := docs, dirty := false, main := Finished)))
            && Rows(docs) == Rows(r.docs)
    ensures forall b, i: nat :: b in s.run.value.bots && b in s.gold && i < s.gold[b] ==>
              Ids(Recompute(s.run.value.docs))[Qid(b, i)] == if Qid(b, i) in s.run.value.failed then 0 else 1
  {
    FinalSteps(s);
    SameQuestions(s.run.value.docs, Recompute(s.run.value.docs));
    HistoryKeeps(start, trace);
    AllClosed(s);
  }

  lemma {:induction false} AllClosed(s: Sys)
    requires Inv(s) && s.run.Some? && s.run.value.cur == |s.run.value.bots|
    ensures var r := s.run.value;
            forall b, i: nat :: b in r.bots && b in s.gold && i < s.gold[b] ==>
              Ids(r.docs)[Qid(b, i)] == if Qid(b, i) in r.failed then 0 else 1
  {
    var r := s.run.value;
    assert RunOk(s.gold, s.disk, r);
    forall b, i: nat | b in r.bots && b in s.gold && i < s.gold[b]
      ensures Ids(r.docs)[Qid(b, i)] == if Qid(b, i) in r.failed then 0 else 1
    {
      var k :| 0 <= k < |r.bots| && r.bots[k] == b;
      var qid := Qid(r.bots[k], i);
      assert qid in r.done || qid in r.failed;
    }
  }

  lemma {:induction false} IdsOfMore(docs: seq<Doc>, d: Doc)
    ensures Ids(docs + [d]) == Ids(docs) + RowIds(d.questions)
  {
    if |docs| == 0 {
      assert (docs + [d])[1..] == [];
    } else {
      assert (docs + [d])[1..] == docs[1..] + [d];
      IdsOfMore(docs[1..], d);
    }
  }

  function IdsIn(rows: seq<Row>): set<string> {
    set id | id in RowIds(rows)
  }

  lemma {:induction false} IdSetOfMore(docs: seq<Doc>, k: nat)
    requires k < |docs|
    ensures IdSet(docs[..k + 1]) == IdSet(docs[..k]) + IdsIn(docs[k].questions)
    ensures IndexBots(docs[..k + 1]) == IndexBots(docs[..k])[docs[k].bot := k]
  {
    assert docs[..k + 1] == docs[..k] + [docs[k]] && docs[..k + 1][..k] == docs[..k];
    IdsOfMore(docs[..k], docs[k]);
  }

  /** The row is in the documents once, and every row count is up to date. */
  lemma {:induction false} SavedFacts(docs: seq<Doc>, k: nat, row: Row)
    requires OncePerId(docs) && k < |docs| && row.id !in IdSet(docs)
    ensures var next := Recompute(AppendRow(docs, k, row));
            && Rows(next) == Rows(docs) + multiset{row} && Ids(next)[row.id] == 1
            && forall d :: d in next ==> d.n == |d.questions|
  {
    LockRows(docs, k, row);
  }

  /** What the section under the lock does, at any time. */
  lemma {:induction false} SectionFacts(start: Sys, trace: seq<Event>, s: Sys, i: nat, k: nat, row: Row, outcome: SaveOutcome)
    returns (evs: seq<Event>)
    requires start.run.None? && DiskOk(start.disk) && s == History(start, trace)
    requires s.run.Some? && At(s.run.value, i, Ready(row)) && s.run.value.lock.None?
    requires Current(s.run.value) in s.run.value.docByBot && k == s.run.value.docByBot[Current(s.run.value)] < |s.run.value.docs|
    ensures var (r, r') := (s.run.value, AfterSection(s.run.value, i, k, row, outcome));
            && History(s, evs) == Sys(s.gold, SavedAs(s.disk, r'.docs, outcome), Some(r'))
            && row.id == Qid(Current(r), i)
            && At(r', i, Ended) && r'.lock.None? && SameBot(r, r') && r'.failed == r.failed
            && r'.done == r.done + {row.id} && r'.docs == Recompute(AppendRow(r.docs, k, row))
            && Rows(r'.docs) == Rows(r.docs) + multiset{row} && Ids(r'.docs)[row.id] == 1
    ensures forall d :: d in AfterSection(s.run.value, i, k, row, outcome).docs ==> d.n == |d.questions|
    ensures var (docs, docs') := (s.run.value.docs, AfterSection(s.run.value, i, k, row, outcome).docs);
            && |docs'| == |docs| && docs'[k].bot == Current(s.run.value) && docs'[k].questions == docs[k].questions + [row]
            && forall j :: 0 <= j < |docs| && j != k ==> docs'[j].questions == docs[j].questions && docs'[j].bot == docs[j].bot
  {
    RowLandsIn(s.run.value.docs, k, row);
    DocFacts(start, trace, s);
    TaskFacts(start, trace, s, i, Ready(row));
    SavedFacts(s.run.value.docs, k, row);
    SectionSteps(s, i, k, row, outcome);
    evs := Section(i, outcome);
  }

  /** What opening a bot does, at any time. */
  lemma {:induction false} OpenedFacts(start: Sys, trace: seq<Event>, s: Sys) returns (evs: seq<Event>)
    requires start.run.None? && DiskOk(start.disk) && s == History(start, trace)
    requires s.run.Some? && s.run.value.main.Between? && s.run.value.cur < |s.run.value.bots|
    requires Current(s.run.value) in s.gold
    ensures var (r, bot) := (s.run.value, Current(s.run.value));
            var r' := Opened(r, s.gold[bot]);
            && History(s, evs) == Sys(s.gold, s.disk, Some(r'))
            && r'.docs == (if bot in r.docByBot then r.docs else r.docs + [Doc(bot, 0, [])])
            && r'.docByBot == (if bot in r.docByBot then r.docByBot else r.docByBot[bot := |r.docs|])
            && r'.done == r.done && r'.bots == r.bots && r'.cur == r.cur && r'.lock == r.lock && r'.main.Gathering?
            && |r'.tasks| == s.gold[bot] && (forall i :: 0 <= i < |r'.tasks| ==> r'.tasks[i] == Waiting)
            && bot in r'.docByBot && r'.docByBot[bot] < |r'.docs| && r'.docs[r'.docByBot[bot]].bot == bot
            && Rows(r'.docs) == Rows(r.docs)
  {
    var r, bot := s.run.value, Current(s.run.value);
    OpenedStep(s);
    OneEvent(s, OpenBot);
    DocFacts(start, trace, s);
    EmptyDocAddsNothing(r.docs, Doc(bot, 0, []));
    evs := [OpenBot];
  }

  class Scorer {
    const gold: map<string, nat>
    const oracle: Oracle
    var clock: nat
    var disk: Disk
    var docs: seq<Doc>
    var docByBot: map<string, nat>
    var doneQ: set<string>
    var run: Run                  // the event loop's side of it: every task, the lock, the position
    ghost const start: Sys
    ghost var trace: seq<Event>   // what has happened since `start`

    ghost function Now(): Sys
      reads this
    {
      Sys(gold, disk, Some(run))
    }

    ghost predicate Synced()
      reads this
    {
      run.docs == docs && run.docByBot == docByBot && run.done == doneQ
      && start.run.None? && DiskOk(start.disk)
    }

    ghost predicate Valid()
      reads this
    {
      Synced() && History(start, trace) == Now()
    }

    /** Resume from whatever the file holds. */
    constructor (gold: map<string, nat>, oracle: Oracle, file: Disk, bots: seq<string>)
      requires Distinct(bots) && forall b :: b in bots ==> b in gold
      ensures disk == file && docs == OnDisk(file)
      ensures docByBot == IndexBots(docs) && doneQ == IdSet(docs)
      ensures start == Sys(gold, file, None) && trace == [Launch(bots)]
      ensures DiskOk(file) ==> Valid() && run.main.Between? && run.cur == 0 && run.bots == bots && run.lock.None?
    {
      this.gold, this.oracle, clock := gold, oracle, 0;
      disk, docs, docByBot, doneQ := file, OnDisk(file), map[], {};
      run := Load(file, bots);
      start, trace := Sys(gold, file, None), [Launch(bots)];
      new;
      Resume();
      OneEvent(start, Launch(bots));
    }

    /** The index and the done set of the documents found. */
    method Resume()
      requires docByBot == map[] && doneQ == {}
      modifies this`docByBot, this`doneQ
      ensures docByBot == IndexBots(docs) && doneQ == IdSet(docs)
    {
      var k := 0;
      while k < |docs|
        modifies this`docByBot, this`doneQ
        invariant 0 <= k <= |docs|
        invariant docByBot == IndexBots(docs[..k]) && doneQ == IdSet(docs[..k])
      {
        docByBot := docByBot[docs[k].bot := k];
        MarkDone(docs[k].questions);
        IdSetOfMore(docs, k);
        k := k + 1;
      }
      assert docs[..k] == docs;
    }

    method MarkDone(questions: seq<Row>)
      modifies this`doneQ
      ensures doneQ == old(doneQ) + IdsIn(questions)
    {
      var j := 0;
      while j < |questions|
        invariant 0 <= j <= |questions|
        invariant doneQ == old(doneQ) + IdsIn(questions[..j])
      {
        IdsAppend(questions[..j], questions[j]);
        assert questions[..j + 1] == questions[..j] + [questions[j]];
        doneQ := doneQ + {questions[j].id};
        j := j + 1;
      }
      assert questions[..j] == questions;
    }

    /** The events `evs` lead from `before` to the present, with the event loop at `next`. */
    method Happened(next: Run, ghost before: Sys, ghost evs: seq<Event>)
      requires start.run.None? && DiskOk(start.disk)
      requires next.docs == docs && next.docByBot == docByBot && next.done == doneQ
      requires History(start, trace) == before && History(before, evs) == Sys(gold, disk, Some(next))
      modifies this`run, this`trace
      ensures Valid() && run == next
    {
      HistoryConcat(start, trace, evs);
      run, trace := next, trace + evs;
    }

    /** The document of the current bot, created empty the first time. */
    method OpenBot() returns (k: nat)
      requires Valid() && run.main.Between? && run.cur < |run.bots| && Current(run) in gold
      modifies this
      ensures Valid() && run.bots == old(run).bots && run.cur == old(run).cur < |run.bots|
      ensures Current(run) in gold && Current(run) in docByBot && docByBot[Current(run)] == k
      ensures k < |docs| && docs[k].bot == Current(run)
      ensures run.main.Gathering? && run.lock == old(run).lock
      ensures |run.tasks| == gold[Current(run)] && forall i :: 0 <= i < |run.tasks| ==> run.tasks[i] == Waiting
      ensures Rows(docs) == Rows(old(docs))
      ensures docs == if Current(run) in old(docByBot) then old(docs) else old(docs) + [Doc(Current(run), 0, [])]
    {
      ghost var before := Now();
      ghost var evs := OpenedFacts(start, trace, before);
      var next := Opened(run, gold[Current(run)]);
      AddDoc(Current(run));
      Happened(next, before, evs);
      k := docByBot[Current(run)];
    }

    method AddDoc(bot: string)
      modifies this`docs, this`docByBot
      ensures docs == if bot in old(docByBot) then old(docs) else old(docs) + [Doc(bot, 0, [])]
      ensures docByBot == if bot in old(docByBot) then old(docByBot) else old(docByBot)[bot := |old(docs)|]
    {
      if bot !in docByBot {
        docByBot := docByBot[bot := |docs|];
        docs := docs + [Doc(bot, 0, [])];
      }
    }

    /** An `await` of task `i`: other tasks run.  The section under the lock awaits nothing, so
        nobody is inside it when control comes back. */
    method Yield(i: nat, ghost t: Task)
      requires Valid() && At(run, i, t) && run.lock.None?
      modifies this
      ensures Valid() && At(run, i, t) && run.lock.None? && SameBot(old(run), run)
    {
      var evs := Foreign(oracle.others(clock), i);
      ForeignHistory(Now(), evs, i, t);
      ghost var before := Now();
      var after := History(Sys(gold, disk, Some(run)), evs);
      clock := clock + 1;
      if after.run.value.lock.None? {
        var next := after.run.value;
        disk, docs, docByBot, doneQ := after.disk, next.docs, next.docByBot, next.done;
        Happened(next, before, evs);
      }
    }

    /** `_recompute_avgs`: every document's row count is brought up to date. */
    method RecomputeAvgs()
      modifies this`docs
      ensures docs == Recompute(old(docs))
    {
      var k := 0;
      while k < |docs|
        invariant 0 <= k <= |docs| == |old(docs)|
        invariant forall j :: 0 <= j < k ==> docs[j] == Recompute(old(docs))[j]
        invariant forall j :: k <= j < |docs| ==> docs[j] == old(docs)[j]
      {
        docs := docs[k := docs[k].(n := |docs[k].questions|)];
        k := k + 1;
      }
    }

    /** The section under `save_lock`: append the row, mark the question done, rewrite the file. */
    method Record(i: nat, k: nat, row: Row)
      requires Valid() && At(run, i, Ready(row)) && run.lock.None?
      requires Current(run) in docByBot && docByBot[Current(run)] == k < |docs|
      modifies this
      ensures Valid() && At(run, i, Ended) && run.lock.None? && SameBot(old(run), run) && run.failed == old(run).failed
      ensures Rows(docs) == Rows(old(docs)) + multiset{row} && doneQ == old(doneQ) + {row.id}
      ensures |docs| == |old(docs)| && docs[k].bot == Current(run) && docs[k].questions == old(docs)[k].questions + [row]
      ensures forall j :: 0 <= j < |docs| && j != k ==>
                docs[j].questions == old(docs)[j].questions && docs[j].bot == old(docs)[j].bot
      ensures Ids(docs)[row.id] == 1 && forall d :: d in docs ==> d.n == |d.questions|
      ensures disk == SavedAs(old(disk), docs, oracle.save(old(clock)))
    {
      var outcome := oracle.save(clock);
      ghost var before := Now();
      ghost var evs := SectionFacts(start, trace, before, i, k, row, outcome);
      var next := AfterSection(run, i, k, row, outcome);
      AppendAndSave(k, row, outcome);
      Happened(next, before, evs);
      clock := clock + 1;
    }

    /** The lines under the lock. */
    method AppendAndSave(k: nat, row: Row, outcome: SaveOutcome)
      requires k < |docs|
      modifies this`docs, this`doneQ, this`disk
      ensures docs == Recompute(AppendRow(old(docs), k, row)) && doneQ == old(doneQ) + {row.id}
      ensures disk == SavedAs(old(disk), docs, outcome)
    {
      docs := AppendRow(docs, k, row);
      doneQ := doneQ + {row.id};
      RecomputeAvgs();
      Save(outcome);
    }

    /** Rewriting the file, which may fail before it is opened or half way. */
    method Save(outcome: SaveOutcome)
      modifies this`disk
      ensures disk == SavedAs(old(disk), docs, outcome)
    {
      if outcome != RaisesBeforeOpen {
        disk := Torn;
        if outcome != RaisesMidWrite {
          disk := Saved(docs);
        }
      }
    }

    /** One question, as `_one` handles it: skipped if recorded, otherwise asked, scored and recorded,
        unless an exception comes first.  Whatever the other tasks do meanwhile, the question ends up
        recorded exactly once, or its task raised. */
    method One(i: nat, k: nat)
      requires Valid() && At(run, i, Waiting) && run.lock.None?
      requires Current(run) in docByBot && docByBot[Current(run)] == k
      modifies this
      ensures Valid() && At(run, i, Ended) && run.lock.None? && SameBot(old(run), run)
      ensures var qid := Qid(Current(run), i);
              Ids(docs)[qid] == (if qid in run.failed then 0 else 1) && (qid in doneQ <==> qid !in run.failed)
    {
      Yield(i, Waiting);
      var qid := Qid(Current(run), i);
      BeginStep(Now(), i);
      if qid in doneQ {
        Becomes(i, Ended, Begin(i));
      } else {
        Becomes(i, Asking, Begin(i));
        AskAndRecord(i, k, qid);
      }
      DocFacts(start, trace, Now());
      TaskFacts(start, trace, Now(), i, Ended);
    }

    method AskAndRecord(i: nat, k: nat, qid: string)
      requires Valid() && At(run, i, Asking) && run.lock.None? && qid == Qid(Current(run), i)
      requires Current(run) in docByBot && docByBot[Current(run)] == k
      modifies this
      ensures Valid() && At(run, i, Ended) && run.lock.None? && SameBot(old(run), run)
    {
      Yield(i, Asking);
      var row: Row;
      match oracle.ask(clock) {
        case AskRaises =>
          Raises(i, Asking);
          return;
        case Answers(None) =>
          row := Row(qid, true, "");
          AnsweredStep(Now(), i, None);
          Becomes(i, Ready(row), Answered(i, None));
        case Answers(Some(answer)) =>
          AnsweredStep(Now(), i, Some(answer));
          Becomes(i, Scoring(answer), Answered(i, Some(answer)));
          Yield(i, Scoring(answer));
          if oracle.scoreRaises(clock) {
            Raises(i, Scoring(answer));
            return;
          }
          row := Row(qid, false, answer);
          ScoredStep(Now(), i, answer);
          Becomes(i, Ready(row), Scored(i));
      }
      Yield(i, Ready(row));
      DocFacts(start, trace, Now());
      Record(i, k, row);
    }

    /** The task goes on to its next await. */
    method Becomes(i: nat, t: Task, ghost ev: Event)
      requires Valid() && i < |run.tasks| && Apply(Now(), ev) == Sys(gold, disk, Some(SetTask(run, i, t)))
      modifies this`run, this`trace
      ensures Valid() && run == SetTask(old(run), i, t)
    {
      ghost var before := Now();
      OneEvent(before, ev);
      Happened(SetTask(run, i, t), before, [ev]);
    }

    /** An exception ends the task, which `_one` logs and drops. */
    method Raises(i: nat, ghost t: Task)
      requires Valid() && At(run, i, t) && (t.Asking? || t.Scoring?)
      modifies this`run, this`trace
      ensures Valid() && At(run, i, Ended) && run.lock == old(run).lock && SameBot(old(run), run)
    {
      ghost var before := Now();
      RaisesStep(before, i, t);
      OneEvent(before, TaskRaises(i));
      Happened(SetTask(run, i, Ended).(failed := run.failed + {Qid(Current(run), i)}), before, [TaskRaises(i)]);
    }

    /** All questions of the bot are through. */
    method CloseBot()
      requires Valid() && run.main.Gathering? && AllEnded(run.tasks)
      modifies this`run, this`trace
      ensures Valid() && run == old(run).(cur := old(run).cur + 1, tasks := [], main := Between)
    {
      ghost var before := Now();
      ClosedStep(before);
      OneEvent(before, Event.CloseBot);
      Happened(run.(cur := run.cur + 1, tasks := [], main := Between), before, [Event.CloseBot]);
    }

    /** The last save, outside any lock. */
    method Finish()
      requires Valid() && run.main.Between? && run.cur == |run.bots|
      modifies this
      ensures Valid() && run.main.Finished? && disk == Saved(docs) && Rows(docs) == Rows(old(docs))
      ensures forall b, i: nat :: b in run.bots && b in gold && i < gold[b] ==>
                Ids(docs)[Qid(b, i)] == if Qid(b, i) in run.failed then 0 else 1
    {
      ghost var before := Now();
      FinalFacts(start, trace, before);
      RecomputeAvgs();
      disk := Torn;
      disk := Saved(docs);
      Happened(run.(docs := docs, dirty := false, main := Finished), before, [FinalOpen, FinalWrite]);
    }
  }
}
