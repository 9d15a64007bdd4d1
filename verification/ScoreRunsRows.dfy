/** Where rows are: over every history of runs, a row is in the document of its own bot. */
module ScoreRunsRows {
  import opened Wrappers
  import opened ScoreRuns
  import opened ScoreRunsSteps
  import opened ScoreRunsSafety

  // ---- what taking the lock does to each document ----

  /** The row joins document `k`, last; every other document keeps its rows; the counts are right. */
  lemma {:induction false} RowLandsIn(docs: seq<Doc>, k: nat, row: Row)
    requires k < |docs|
    ensures var next := Recompute(AppendRow(docs, k, row));
            && |next| == |docs| && next[k].questions == docs[k].questions + [row]
            && (forall j :: 0 <= j < |docs| && j != k ==> next[j].questions == docs[j].questions)
            && forall j :: 0 <= j < |docs| ==> next[j].bot == docs[j].bot && next[j].n == |next[j].questions|
  {
  }

  // ---- every row is one of its document's bot ----

  /** The id of a question of `bot`. */
  ghost predicate OwnId(gold: map<string, nat>, bot: string, id: string) {
    bot in gold && exists i: nat :: i < gold[bot] && id == Qid(bot, i)
  }

  ghost predicate OwnDoc(gold: map<string, nat>, d: Doc) {
    forall j :: 0 <= j < |d.questions| ==> OwnId(gold, d.bot, d.questions[j].id)
  }

  ghost predicate OwnRows(gold: map<string, nat>, docs: seq<Doc>) {
    forall k :: 0 <= k < |docs| ==> OwnDoc(gold, docs[k])
  }

  ghost predicate Own(s: Sys) {
    OwnRows(s.gold, OnDisk(s.disk)) && (s.run.Some? ==> OwnRows(s.gold, s.run.value.docs))
  }

  lemma {:induction false} LockedOwn(gold: map<string, nat>, docs: seq<Doc>, k: nat, row: Row)
    requires OwnRows(gold, docs) && k < |docs| && OwnId(gold, docs[k].bot, row.id)
    ensures OwnRows(gold, Recompute(AppendRow(docs, k, row)))
  {
    RowLandsIn(docs, k, row);
    var next := Recompute(AppendRow(docs, k, row));
    forall j | 0 <= j < |next| ensures OwnDoc(gold, next[j]) {
      assert OwnDoc(gold, docs[j]);
    }
  }

  lemma {:induction false} SameRowsOwn(gold: map<string, nat>, docs: seq<Doc>, next: seq<Doc>)
    requires OwnRows(gold, docs) && |next| == |docs|
    requires forall j :: 0 <= j < |docs| ==> next[j].bot == docs[j].bot && next[j].questions == docs[j].questions
    ensures OwnRows(gold, next)
  {
    forall j | 0 <= j < |next| ensures OwnDoc(gold, next[j]) {
      assert OwnDoc(gold, docs[j]);
    }
  }

  lemma {:induction false} TaskOwn(gold: map<string, nat>, disk: Disk, r: Run, i: nat, ev: Event)
    requires RunOk(gold, disk, r) && r.main.Gathering? && r.cur < |r.bots| && i < |r.tasks| && OwnRows(gold, r.docs)
    ensures OwnRows(gold, TaskStep(disk, r, i, ev).1.docs)
  {
    OnlyLockAddsRows(disk, r, i, ev);
    if r.tasks[i].Ready? && Current(r) in r.docByBot && r.docByBot[Current(r)] < |r.docs| {
      assert TaskOk(r, i);
      assert OwnId(gold, Current(r), r.tasks[i].row.id);
      LockedOwn(gold, r.docs, r.docByBot[Current(r)], r.tasks[i].row);
    }
  }

  lemma {:induction false} MainOwn(gold: map<string, nat>, disk: Disk, r: Run, ev: Event)
    requires !IsTaskEvent(ev) && OwnRows(gold, r.docs)
    ensures OwnRows(gold, RunStep(gold, disk, r, ev).1.docs)
  {
    if RunStep(gold, disk, r, ev) != (disk, r) {
      MainStep(gold, disk, r, ev);
      if ev.FinalOpen? {
        SameRowsOwn(gold, r.docs, Recompute(r.docs));
      }
    }
  }

  lemma {:induction false} RunStepOwn(gold: map<string, nat>, disk: Disk, r: Run, ev: Event)
    requires RunOk(gold, disk, r) && OwnRows(gold, r.docs)
    ensures OwnRows(gold, RunStep(gold, disk, r, ev).1.docs)
  {
    if IsTaskEvent(ev) {
      TaskStepIs(gold, disk, r, ev);
      if r.main.Gathering? && r.cur < |r.bots| && ev.i < |r.tasks| {
        TaskOwn(gold, disk, r, ev.i, ev);
      }
    } else {
      MainOwn(gold, disk, r, ev);
    }
  }

  lemma {:induction false} StepOwn(s: Sys, ev: Event)
    requires Inv(s) && Own(s)
    ensures Own(Apply(s, ev)) && Apply(s, ev).gold == s.gold
  {
    if s.run.Some? {
      var r := s.run.value;
      RunStepOwn(s.gold, s.disk, r, ev);
      DiskAfter(s.gold, s.disk, r, ev);
    }
  }

  lemma {:induction false} HistoryOwn(s: Sys, evs: seq<Event>)
    requires Inv(s) && Own(s)
    ensures Own(History(s, evs)) && History(s, evs).gold == s.gold
    decreases |evs|
  {
    if |evs| > 0 {
      StepKeeps(s, evs[0]);
      StepOwn(s, evs[0]);
      HistoryOwn(Apply(s, evs[0]), evs[1..]);
    }
  }

  /** Whatever runs, kills and interleavings came before, every row of a document, on file or in
      memory, is of a question of that document's bot. */
  lemma {:induction false} RowsInTheirDocuments(gold: map<string, nat>, evs: seq<Event>)
    ensures var s := History(Init(gold), evs);
            && (forall d, q :: d in OnDisk(s.disk) && q in d.questions ==> OwnId(gold, d.bot, q.id))
            && (s.run.Some? ==> forall d, q :: d in s.run.value.docs && q in d.questions ==> OwnId(gold, d.bot, q.id))
  {
    HistoryOwn(Init(gold), evs);
    var s := History(Init(gold), evs);
    OwnEach(gold, OnDisk(s.disk));
    if s.run.Some? {
      OwnEach(gold, s.run.value.docs);
    }
  }

  lemma {:induction false} OwnEach(gold: map<string, nat>, docs: seq<Doc>)
    requires OwnRows(gold, docs)
    ensures forall d, q :: d in docs && q in d.questions ==> OwnId(gold, d.bot, q.id)
  {
    forall d, q | d in docs && q in d.questions ensures OwnId(gold, d.bot, q.id) {
      var k :| 0 <= k < |docs| && docs[k] == d;
      assert OwnDoc(gold, docs[k]);
      var j :| 0 <= j < |d.questions| && d.questions[j] == q;
    }
  }

  // ---- a finished run, document by document ----

  lemma {:induction false} DocHolding(docs: seq<Doc>, id: string) returns (k: nat)
    requires Ids(docs)[id] == 1
    ensures k < |docs| && RowIds(docs[k].questions)[id] == 1
  {
    if RowIds(docs[0].questions)[id] > 0 {
      k := 0;
    } else {
      k := DocHolding(docs[1..], id);
      k := k + 1;
    }
  }

  lemma {:induction false} RowHolding(rows: seq<Row>, id: string) returns (j: nat)
    requires RowIds(rows)[id] > 0
    ensures j < |rows| && rows[j].id == id
  {
    if rows[0].id == id {
      j := 0;
    } else {
      j := RowHolding(rows[1..], id);
      j := j + 1;
    }
  }

  /** A finished run has, in the document of each selected bot, exactly one row for each of its
      questions whose task did not raise. */
  lemma {:induction false} FinishedInItsDocument(gold: map<string, nat>, evs: seq<Event>, k: nat, i: nat)
    requires var s := History(Init(gold), evs);
             && s.run.Some? && s.run.value.main.Finished? && k < |s.run.value.bots|
             && s.run.value.bots[k] in s.gold && i < s.gold[s.run.value.bots[k]]
             && Qid(s.run.value.bots[k], i) !in s.run.value.failed
    ensures var s := History(Init(gold), evs);
            exists d :: d in OnDisk(s.disk) && d.bot == s.run.value.bots[k] && d.n == |d.questions|
                        && RowIds(d.questions)[Qid(d.bot, i)] == 1
  {
    var s := History(Init(gold), evs);
    var bot := s.run.value.bots[k];
    var docs, qid := OnDisk(s.disk), Qid(bot, i);
    FinishedRun(gold, evs, k, i);
    var p := DocHolding(docs, qid);
    var d := docs[p];
    var j := RowHolding(d.questions, qid);
    RowsInTheirDocuments(gold, evs);
    assert d in docs && d.questions[j] in d.questions;
    assert OwnId(gold, d.bot, qid);
    var i' :| i' < gold[d.bot] && qid == Qid(d.bot, i');
    QidInjective(bot, i, d.bot, i');
    FinishedCounts(gold, evs);
  }

  /** The last save leaves right row counts. */
  lemma {:induction false} FinishedCounts(gold: map<string, nat>, evs: seq<Event>)
    requires var s := History(Init(gold), evs); s.run.Some? && s.run.value.main.Finished?
    ensures forall d :: d in OnDisk(History(Init(gold), evs).disk) ==> d.n == |d.questions|
  {
    CountsAlong(Init(gold), evs);
    Reachable(gold, evs);
    var s := History(Init(gold), evs);
    assert Lag(s.disk, s.run.value);
  }

  predicate CountsRight(docs: seq<Doc>) {
    forall j :: 0 <= j < |docs| ==> docs[j].n == |docs[j].questions|
  }

  ghost predicate Counted(s: Sys) {
    s.run.Some? && (s.run.value.main.FinalSave? || s.run.value.main.Finished?) ==> CountsRight(s.run.value.docs)
  }

  lemma {:induction false} CountsAlong(s: Sys, evs: seq<Event>)
    requires Counted(s)
    ensures Counted(History(s, evs))
    decreases |evs|
  {
    if |evs| > 0 {
      CountsStep(s, evs[0]);
      CountsAlong(Apply(s, evs[0]), evs[1..]);
    }
  }

  lemma {:induction false} CountsStep(s: Sys, ev: Event)
    requires Counted(s)
    ensures Counted(Apply(s, ev))
  {
    if s.run.Some? {
      var r := s.run.value;
      if IsTaskEvent(ev) {
        TaskStepIs(s.gold, s.disk, r, ev);
        if r.main.Gathering? && r.cur < |r.bots| && ev.i < |r.tasks| {
          TaskFrame(s.disk, r, ev.i, ev);
        }
      } else if RunStep(s.gold, s.disk, r, ev) != (s.disk, r) {
        MainStep(s.gold, s.disk, r, ev);
      }
    }
  }
}
