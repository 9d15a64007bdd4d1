/** Exactly-once recording over every history of runs, interleavings, failed saves and kills. */
module ScoreRunsSafety {
  import opened Wrappers
  import opened Decimal
  import opened ScoreRuns
  import opened ScoreRunsSteps

  // ---- question ids ----

  /** The number of a question: its value in at least two digits, without further leading zeros. */
  lemma {:induction false} Pad2Reads(n: nat)
    ensures Value(Pad2(n)) == n && AllDigits(Pad2(n))
    ensures |Pad2(n)| >= 2 && (|Pad2(n)| > 2 ==> Pad2(n)[0] != '0')
  {
    ReadsBack(n);
    LeadingZero(Digits(n));
    if n >= 10 {
      NoLeadingZero(n);
    }
  }

  /** Different questions have different ids, whatever the bots are called. */
  lemma {:induction false} QidInjective(a: string, i: nat, b: string, j: nat)
    requires Qid(a, i) == Qid(b, j)
    ensures a == b && i == j
  {
    Pad2Reads(i + 1);
    Pad2Reads(j + 1);
    var s, t := Pad2(i + 1), Pad2(j + 1);
    QidTail(a, s, b, t);
    SameNumber(s, t, i + 1, j + 1);
  }

  lemma {:induction false} SameNumber(s: string, t: string, m: nat, n: nat)
    requires s == t && Value(s) == m && Value(t) == n
    ensures m == n
  {
  }

  lemma {:induction false} QidTail(a: string, s: string, b: string, t: string)
    requires a + "_q" + s == b + "_q" + t && AllDigits(s) && AllDigits(t)
    ensures a == b && s == t
  {
    if |s| < |t| {
      QMark(a, b, s, t);
    } else if |t| < |s| {
      QMark(b, a, t, s);
    }
    SameSplit(a, s, b, t);
  }

  lemma {:induction false} SameSplit(a: string, s: string, b: string, t: string)
    requires a + "_q" + s == b + "_q" + t && |s| == |t|
    ensures a == b && s == t
  {
    assert a == (a + "_q" + s)[..|a|] && b == (b + "_q" + t)[..|b|];
    assert s == (a + "_q" + s)[|a| + 2..] && t == (b + "_q" + t)[|b| + 2..];
  }

  /** The shorter numeral is preceded by a 'q', which no numeral contains. */
  lemma {:induction false} QMark(a: string, b: string, s: string, t: string)
    requires a + "_q" + s == b + "_q" + t && |s| < |t|
    ensures !AllDigits(t)
  {
    var q := a + "_q" + s;
    assert q[|q| - |s| - 1] == 'q';
    assert q[|q| - |s| - 1] == t[|t| - |s| - 1];
  }

  // ---- rows and ids of changed documents ----

  lemma {:induction false} IdsAppend(rows: seq<Row>, row: Row)
    ensures RowIds(rows + [row]) == RowIds(rows) + multiset{row.id}
  {
    if |rows| > 0 {
      assert (rows + [row])[1..] == rows[1..] + [row];
      IdsAppend(rows[1..], row);
    } else {
      assert (rows + [row])[1..] == [];
    }
  }

  lemma {:induction false} AppendRowAdds(docs: seq<Doc>, k: nat, row: Row)
    requires k < |docs|
    ensures Rows(AppendRow(docs, k, row)) == Rows(docs) + multiset{row}
    ensures Ids(AppendRow(docs, k, row)) == Ids(docs) + multiset{row.id}
    decreases |docs|
  {
    if k == 0 {
      FirstDoc(docs, row);
    } else {
      AppendRowAdds(docs[1..], k - 1, row);
      LaterDoc(docs, k, row);
    }
  }

  lemma {:induction false} FirstDoc(docs: seq<Doc>, row: Row)
    requires docs != []
    ensures Rows(AppendRow(docs, 0, row)) == Rows(docs) + multiset{row}
    ensures Ids(AppendRow(docs, 0, row)) == Ids(docs) + multiset{row.id}
  {
    assert AppendRow(docs, 0, row)[1..] == docs[1..];
    IdsAppend(docs[0].questions, row);
  }

  lemma {:induction false} LaterDoc(docs: seq<Doc>, k: nat, row: Row)
    requires 0 < k < |docs|
    requires Rows(AppendRow(docs[1..], k - 1, row)) == Rows(docs[1..]) + multiset{row}
    requires Ids(AppendRow(docs[1..], k - 1, row)) == Ids(docs[1..]) + multiset{row.id}
    ensures Rows(AppendRow(docs, k, row)) == Rows(docs) + multiset{row}
    ensures Ids(AppendRow(docs, k, row)) == Ids(docs) + multiset{row.id}
  {
    var after := AppendRow(docs, k, row);
    assert after[1..] == AppendRow(docs[1..], k - 1, row) && after[0] == docs[0];
    RestGains(docs, after, row);
  }

  lemma {:induction false} RestGains(docs: seq<Doc>, after: seq<Doc>, row: Row)
    requires docs != [] && after != [] && after[0] == docs[0]
    requires Rows(after[1..]) == Rows(docs[1..]) + multiset{row}
    requires Ids(after[1..]) == Ids(docs[1..]) + multiset{row.id}
    ensures Rows(after) == Rows(docs) + multiset{row} && Ids(after) == Ids(docs) + multiset{row.id}
  {
  }

  lemma {:induction false} SameQuestions(a: seq<Doc>, b: seq<Doc>)
    requires |a| == |b| && forall i :: 0 <= i < |a| ==> a[i].questions == b[i].questions
    ensures Rows(a) == Rows(b) && Ids(a) == Ids(b)
  {
    if |a| > 0 {
      SameQuestions(a[1..], b[1..]);
    }
  }

  lemma {:induction false} EmptyDocAddsNothing(docs: seq<Doc>, d: Doc)
    requires d.questions == []
    ensures Rows(docs + [d]) == Rows(docs) && Ids(docs + [d]) == Ids(docs)
  {
    if |docs| > 0 {
      assert (docs + [d])[1..] == docs[1..] + [d];
      EmptyDocAddsNothing(docs[1..], d);
    } else {
      assert (docs + [d])[1..] == [];
    }
  }

  // ---- the invariant ----

  predicate OncePerId(docs: seq<Doc>) {
    forall id :: id in Ids(docs) ==> Ids(docs)[id] == 1
  }

  ghost predicate BotsDistinct(docs: seq<Doc>) {
    forall i, j :: 0 <= i < j < |docs| ==> docs[i].bot != docs[j].bot
  }

  ghost predicate Indexed(docs: seq<Doc>, index: map<string, nat>) {
    && (forall b :: b in index ==> index[b] < |docs| && docs[index[b]].bot == b)
    && (forall k :: 0 <= k < |docs| ==> docs[k].bot in index && index[docs[k].bot] == k)
  }

  ghost predicate Shape(gold: map<string, nat>, r: Run) {
    && Distinct(r.bots) && (forall b :: b in r.bots ==> b in gold) && r.cur <= |r.bots|
    && (r.main.Gathering? ==>
          r.cur < |r.bots| && |r.tasks| == gold[Current(r)] && Current(r) in r.docByBot)
    && (!r.main.Gathering? ==> r.tasks == [])
    && (r.main.FinalSave? || r.main.Finished? ==> r.cur == |r.bots|)
    && (r.lock.Some? ==> r.lock.value < |r.tasks| && r.tasks[r.lock.value].Saving?)
  }

  /** What task `i` of the current bot may find in `done_q`. */
  ghost predicate TaskOk(r: Run, i: nat)
    requires r.cur < |r.bots| && i < |r.tasks|
  {
    var qid := Qid(Current(r), i);
    match r.tasks[i]
    case Waiting => qid !in r.failed
    case Asking => qid !in r.done && qid !in r.failed
    case Scoring(_) => qid !in r.done && qid !in r.failed
    case Ready(row) => qid !in r.done && qid !in r.failed && row.id == qid
    case Saving(_) => qid in r.done && r.lock == Some(i)
    case Ended => qid in r.done || qid in r.failed
  }

  ghost predicate TasksOk(r: Run) {
    r.main.Gathering? && r.cur < |r.bots| ==> forall i :: 0 <= i < |r.tasks| ==> TaskOk(r, i)
  }

  /** An id fails only through a task of a bot already done with, or an ended task. */
  ghost predicate FailedBy(r: Run, id: string, b: string, i: nat) {
    && id == Qid(b, i)
    && ((exists k :: 0 <= k < r.cur <= |r.bots| && r.bots[k] == b)
        || (r.main.Gathering? && r.cur < |r.bots| && b == Current(r) && i < |r.tasks| && r.tasks[i] == Ended))
  }

  ghost predicate FailedOk(r: Run) {
    && r.failed !! r.done
    && forall id :: id in r.failed ==> exists b, i :: FailedBy(r, id, b, i)
  }

  ghost predicate ClosedOk(gold: map<string, nat>, r: Run) {
    forall k, i: nat :: 0 <= k < r.cur <= |r.bots| && r.bots[k] in gold && i < gold[r.bots[k]] ==>
      Qid(r.bots[k], i) in r.done || Qid(r.bots[k], i) in r.failed
  }

  /** The file holds no row that memory does not, and `dirty` says whether it lags behind. */
  ghost predicate Lag(disk: Disk, r: Run) {
    && Rows(OnDisk(disk)) <= Rows(r.docs)
    && (!r.dirty ==> Rows(OnDisk(disk)) == Rows(r.docs))
    && (r.dirty ==> Rows(OnDisk(disk)) != Rows(r.docs) || Rows(r.docs) == multiset{})
    && (!r.saveRaised && r.lock.None? && !r.main.FinalSave? ==> !r.dirty)
    && (r.lock.Some? && r.lock.value < |r.tasks| ==>
          r.dirty && Rows(r.docs) != multiset{} && (r.tasks[r.lock.value] == Saving(true) ==> disk == Torn))
    && (r.main.FinalSave? ==> r.dirty && disk == Torn)
    && (r.main.Finished? ==> disk == Saved(r.docs))
  }

  ghost predicate DiskOk(disk: Disk) {
    OncePerId(OnDisk(disk)) && BotsDistinct(OnDisk(disk))
  }

  /** No id twice, and `done_q` is exactly the ids in `docs`. */
  ghost predicate Recorded(r: Run) {
    OncePerId(r.docs) && r.done == IdSet(r.docs) && Indexed(r.docs, r.docByBot)
  }

  ghost predicate Progress(gold: map<string, nat>, r: Run) {
    Shape(gold, r) && TasksOk(r) && FailedOk(r) && ClosedOk(gold, r)
  }

  ghost predicate RunOk(gold: map<string, nat>, disk: Disk, r: Run) {
    Recorded(r) && Progress(gold, r) && Lag(disk, r)
  }

  ghost predicate Inv(s: Sys) {
    DiskOk(s.disk) && (s.run.Some? ==> RunOk(s.gold, s.disk, s.run.value))
  }

  // ---- starting from the file ----

  lemma {:induction false} IndexBotsOk(docs: seq<Doc>)
    requires BotsDistinct(docs)
    ensures Indexed(docs, IndexBots(docs))
  {
    if |docs| > 0 {
      var init := docs[..|docs| - 1];
      IndexBotsOk(init);
      forall k | 0 <= k < |docs|
        ensures docs[k].bot in IndexBots(docs) && IndexBots(docs)[docs[k].bot] == k
      {
        if k < |init| {
          assert init[k] == docs[k];
        }
      }
    }
  }

  lemma {:induction false} LoadOk(gold: map<string, nat>, disk: Disk, bots: seq<string>)
    requires DiskOk(disk) && Distinct(bots) && forall b :: b in bots ==> b in gold
    ensures RunOk(gold, disk, Load(disk, bots))
  {
    IndexBotsOk(OnDisk(disk));
  }

  // ---- events of the main line ----

  /** No question of a bot that is only now opened has failed in this run. */
  lemma {:induction false} OpenedTasks(r: Run, i: nat)
    requires FailedOk(r) && r.main.Between? && r.cur < |r.bots| && Distinct(r.bots)
    ensures Qid(Current(r), i) !in r.failed
  {
    if Qid(Current(r), i) in r.failed {
      var b, j :| FailedBy(r, Qid(Current(r), i), b, j);
      QidInjective(Current(r), i, b, j);
      assert false;
    }
  }

  lemma {:induction false} FailedStays(r: Run, r': Run)
    requires FailedOk(r) && r'.failed == r.failed && r'.done == r.done
    requires forall id, b, i :: FailedBy(r, id, b, i) ==> FailedBy(r', id, b, i)
    ensures FailedOk(r')
  {
    forall id | id in r'.failed ensures exists b, i :: FailedBy(r', id, b, i) {
      var b, i :| FailedBy(r, id, b, i);
      assert FailedBy(r', id, b, i);
    }
  }

  lemma {:induction false} IndexNewDoc(docs: seq<Doc>, index: map<string, nat>, d: Doc)
    requires Indexed(docs, index) && d.bot !in index
    ensures Indexed(docs + [d], index[d.bot := |docs|])
  {
  }

  lemma {:induction false} IndexSameBots(docs: seq<Doc>, index: map<string, nat>, docs': seq<Doc>)
    requires Indexed(docs, index) && |docs'| == |docs|
    requires forall k :: 0 <= k < |docs| ==> docs'[k].bot == docs[k].bot
    ensures Indexed(docs', index)
  {
  }

  lemma {:induction false} SameIds(docs: seq<Doc>, docs': seq<Doc>)
    requires Ids(docs') == Ids(docs)
    ensures IdSet(docs') == IdSet(docs) && (OncePerId(docs) <==> OncePerId(docs'))
  {
  }

  /** Opening a bot changes no row. */
  lemma {:induction false} OpenedDocs(disk: Disk, r: Run, questions: nat)
    requires Recorded(r) && Lag(disk, r) && r.cur < |r.bots| && r.lock.None? && r.main.Between?
    ensures Recorded(Opened(r, questions)) && Lag(disk, Opened(r, questions))
  {
    if Current(r) !in r.docByBot {
      var d := Doc(Current(r), 0, []);
      EmptyDocAddsNothing(r.docs, d);
      SameIds(r.docs, r.docs + [d]);
      IndexNewDoc(r.docs, r.docByBot, d);
    }
  }

  lemma {:induction false} OpenedProgress(gold: map<string, nat>, r: Run)
    requires Progress(gold, r) && r.main.Between? && r.cur < |r.bots| && Current(r) in gold
    ensures Progress(gold, Opened(r, gold[Current(r)]))
  {
    var r' := Opened(r, gold[Current(r)]);
    FailedStays(r, r');
    forall i | 0 <= i < |r'.tasks| ensures TaskOk(r', i) {
      OpenedTasks(r, i);
    }
  }

  lemma {:induction false} ClosedProgress(gold: map<string, nat>, r: Run)
    requires Progress(gold, r) && r.main.Gathering? && AllEnded(r.tasks)
    ensures Progress(gold, r.(cur := r.cur + 1, tasks := [], main := Between))
  {
    var r' := r.(cur := r.cur + 1, tasks := [], main := Between);
    assert r'.bots[r.cur] == Current(r);
    FailedStays(r, r');
    forall k, i: nat | 0 <= k < r'.cur && i < gold[r'.bots[k]]
      ensures Qid(r'.bots[k], i) in r'.done || Qid(r'.bots[k], i) in r'.failed
    {
      if k == r.cur {
        assert TaskOk(r, i) && r.tasks[i] == Ended;
      }
    }
  }

  // ---- events of tasks ----

  /** A task event changes one task, and at most that question's id joins `done` or `failed`. */
  lemma {:induction false} TaskFrame(disk: Disk, r: Run, i: nat, ev: Event)
    requires r.cur < |r.bots| && i < |r.tasks|
    ensures var r', qid := TaskStep(disk, r, i, ev).1, Qid(Current(r), i);
            && r'.bots == r.bots && r'.cur == r.cur && r'.main == r.main && r'.docByBot == r.docByBot
            && |r'.tasks| == |r.tasks| && r'.tasks == r.tasks[i := r'.tasks[i]]
            && r.done <= r'.done <= r.done + {qid}
            && r.failed <= r'.failed <= r.failed + {qid}
            && (r.tasks[i] == Ended ==> r' == r)
  {
  }

  lemma {:induction false} TaskKeepsOk(disk: Disk, r: Run, i: nat, ev: Event)
    requires r.main.Gathering? && r.cur < |r.bots| && i < |r.tasks| && TaskOk(r, i) && r.failed !! r.done
    ensures TaskOk(TaskStep(disk, r, i, ev).1, i)
    ensures TaskStep(disk, r, i, ev).1.failed !! TaskStep(disk, r, i, ev).1.done
  {
  }

  lemma {:induction false} OthersKeepOk(disk: Disk, r: Run, i: nat, ev: Event, j: nat)
    requires r.main.Gathering? && r.cur < |r.bots| && i < |r.tasks| && j < |r.tasks| && j != i
    requires TaskOk(r, i) && TaskOk(r, j)
    ensures TaskOk(TaskStep(disk, r, i, ev).1, j)
  {
    TaskFrame(disk, r, i, ev);
    if Qid(Current(r), j) == Qid(Current(r), i) {
      QidInjective(Current(r), j, Current(r), i);
    }
    assert r.tasks[i].Saving? ==> r.lock == Some(i);
    assert TaskStep(disk, r, i, ev).1.tasks[j] == r.tasks[j];
  }

  lemma {:induction false} TaskFailedOk(disk: Disk, r: Run, i: nat, ev: Event)
    requires FailedOk(r) && r.main.Gathering? && r.cur < |r.bots| && i < |r.tasks| && TaskOk(r, i)
    ensures FailedOk(TaskStep(disk, r, i, ev).1)
  {
    var r' := TaskStep(disk, r, i, ev).1;
    TaskFrame(disk, r, i, ev);
    TaskKeepsOk(disk, r, i, ev);
    forall id | id in r'.failed ensures exists b, k :: FailedBy(r', id, b, k) {
      if id in r.failed {
        var b, k :| FailedBy(r, id, b, k);
        assert FailedBy(r', id, b, k);
      } else {
        assert r'.tasks[i] == Ended;
        assert FailedBy(r', id, Current(r), i);
      }
    }
  }

  lemma {:induction false} TaskShape(gold: map<string, nat>, disk: Disk, r: Run, i: nat, ev: Event)
    requires Shape(gold, r) && r.main.Gathering? && i < |r.tasks| && TaskOk(r, i)
    ensures Shape(gold, TaskStep(disk, r, i, ev).1)
  {
  }

  lemma {:induction false} TaskProgress(gold: map<string, nat>, disk: Disk, r: Run, i: nat, ev: Event)
    requires Progress(gold, r) && r.main.Gathering? && i < |r.tasks|
    ensures Progress(gold, TaskStep(disk, r, i, ev).1)
  {
    var r' := TaskStep(disk, r, i, ev).1;
    TaskFrame(disk, r, i, ev);
    assert TaskOk(r, i);
    TaskShape(gold, disk, r, i, ev);
    TaskFailedOk(disk, r, i, ev);
    forall j | 0 <= j < |r'.tasks| ensures TaskOk(r', j) {
      assert TaskOk(r, j);
      if j == i {
        TaskKeepsOk(disk, r, i, ev);
      } else {
        OthersKeepOk(disk, r, i, ev, j);
      }
    }
    assert ClosedOk(gold, r');
  }

  /** Appending a row whose id is new. */
  lemma {:induction false} LockRows(docs: seq<Doc>, k: nat, row: Row)
    requires k < |docs|
    ensures Rows(Recompute(AppendRow(docs, k, row))) == Rows(docs) + multiset{row}
    ensures Ids(Recompute(AppendRow(docs, k, row))) == Ids(docs) + multiset{row.id}
  {
    AppendRowAdds(docs, k, row);
    SameQuestions(AppendRow(docs, k, row), Recompute(AppendRow(docs, k, row)));
  }

  lemma {:induction false} LockRecords(r: Run, k: nat, row: Row)
    requires Recorded(r) && k < |r.docs| && row.id !in r.done
    ensures var docs := Recompute(AppendRow(r.docs, k, row));
            OncePerId(docs) && IdSet(docs) == r.done + {row.id} && Indexed(docs, r.docByBot)
  {
    RecordFacts(r.docs, r.docByBot, k, row);
  }

  /** The documents after one critical section. */
  lemma {:induction false} RecordFacts(docs: seq<Doc>, index: map<string, nat>, k: nat, row: Row)
    requires OncePerId(docs) && Indexed(docs, index) && k < |docs| && row.id !in IdSet(docs)
    ensures var next := Recompute(AppendRow(docs, k, row));
            OncePerId(next) && IdSet(next) == IdSet(docs) + {row.id} && Indexed(next, index)
  {
    var next := Recompute(AppendRow(docs, k, row));
    LockRows(docs, k, row);
    LockBots(docs, k, row);
    RecordedNext(docs, index, next, row.id);
  }

  lemma {:induction false} LockBots(docs: seq<Doc>, k: nat, row: Row)
    requires k < |docs|
    ensures var next := Recompute(AppendRow(docs, k, row));
            |next| == |docs| && forall j :: 0 <= j < |docs| ==> next[j].bot == docs[j].bot
  {
  }

  lemma {:induction false} RecordedNext(docs: seq<Doc>, index: map<string, nat>, next: seq<Doc>, id: string)
    requires OncePerId(docs) && Indexed(docs, index) && id !in IdSet(docs)
    requires Ids(next) == Ids(docs) + multiset{id}
    requires |next| == |docs| && forall j :: 0 <= j < |docs| ==> next[j].bot == docs[j].bot
    ensures OncePerId(next) && IdSet(next) == IdSet(docs) + {id} && Indexed(next, index)
  {
    OneMoreId(docs, next, id);
    IndexSameBots(docs, index, next);
  }

  lemma {:induction false} OneMoreId(docs: seq<Doc>, docs': seq<Doc>, id: string)
    requires OncePerId(docs) && id !in IdSet(docs) && Ids(docs') == Ids(docs) + multiset{id}
    ensures OncePerId(docs') && IdSet(docs') == IdSet(docs) + {id}
  {
  }

  lemma {:induction false} OneMoreRow(disk: Disk, before: multiset<Row>, row: Row)
    requires Rows(OnDisk(disk)) <= before
    ensures Rows(OnDisk(disk)) <= before + multiset{row} && Rows(OnDisk(disk)) != before + multiset{row}
  {
    assert (before + multiset{row})[row] == before[row] + 1;
  }

  lemma {:induction false} TaskRecorded(disk: Disk, r: Run, i: nat, ev: Event)
    requires Recorded(r) && r.main.Gathering? && r.cur < |r.bots| && i < |r.tasks| && TaskOk(r, i)
    ensures Recorded(TaskStep(disk, r, i, ev).1)
  {
    if ev.Lock? && r.tasks[i].Ready? {
      LockTask(disk, r, i, ev);
      if Current(r) in r.docByBot {
        LockRecords(r, r.docByBot[Current(r)], r.tasks[i].row);
      }
    } else {
      SameRecords(disk, r, i, ev);
    }
  }

  /** Only taking the lock changes what is recorded in memory. */
  lemma {:induction false} SameRecords(disk: Disk, r: Run, i: nat, ev: Event)
    requires r.cur < |r.bots| && i < |r.tasks| && !(ev.Lock? && r.tasks[i].Ready?)
    ensures var r' := TaskStep(disk, r, i, ev).1;
            r'.docs == r.docs && r'.docByBot == r.docByBot && r'.done == r.done
  {
  }

  lemma {:induction false} LockLag(disk: Disk, r: Run, i: nat, ev: Event)
    requires ev.Lock? && Lag(disk, r) && r.main.Gathering? && r.cur < |r.bots| && i < |r.tasks| && r.tasks[i].Ready?
    ensures Lag(TaskStep(disk, r, i, ev).0, TaskStep(disk, r, i, ev).1)
  {
    LockTask(disk, r, i, ev);
    if r.lock.None? && Current(r) in r.docByBot && r.docByBot[Current(r)] < |r.docs| {
      var row, docs := r.tasks[i].row, Recompute(AppendRow(r.docs, r.docByBot[Current(r)], r.tasks[i].row));
      LockRows(r.docs, r.docByBot[Current(r)], row);
      LockedLag(disk, r, i, row, docs, r.done + {Qid(Current(r), i)});
    }
  }

  lemma {:induction false} LockedLag(disk: Disk, r: Run, i: nat, row: Row, docs: seq<Doc>, done: set<string>)
    requires Lag(disk, r) && r.main.Gathering? && i < |r.tasks| && Rows(docs) == Rows(r.docs) + multiset{row}
    ensures Lag(disk, SetTask(r, i, Saving(false)).(docs := docs, done := done, lock := Some(i), dirty := true))
  {
    OneMoreRow(disk, Rows(r.docs), row);
    assert row in Rows(docs);
  }

  lemma {:induction false} TaskLag(disk: Disk, r: Run, i: nat, ev: Event)
    requires Lag(disk, r) && r.main.Gathering? && r.cur < |r.bots| && i < |r.tasks|
    requires TaskOk(r, i) && (r.lock.Some? ==> r.lock.value < |r.tasks| && r.tasks[r.lock.value].Saving?)
    ensures Lag(TaskStep(disk, r, i, ev).0, TaskStep(disk, r, i, ev).1)
  {
    if ev.Lock? && r.tasks[i].Ready? {
      LockLag(disk, r, i, ev);
    } else if r.tasks[i].Saving? {
      SavingLag(disk, r, i, ev);
    } else {
      AskingLag(disk, r, i, ev);
    }
  }

  /** Opening, writing, or failing to write the file. */
  lemma {:induction false} SavingLag(disk: Disk, r: Run, i: nat, ev: Event)
    requires Lag(disk, r) && r.main.Gathering? && r.cur < |r.bots| && i < |r.tasks|
    requires r.tasks[i].Saving? && r.lock == Some(i)
    ensures Lag(TaskStep(disk, r, i, ev).0, TaskStep(disk, r, i, ev).1)
  {
    SavingStep(disk, r, i, ev);
    WriteLag(disk, r, i);
    RaiseLag(disk, r, i);
    if r.tasks[i] == Saving(false) {
      OpenLag(disk, r, i);
    }
  }

  /** What can happen to a task while it holds the lock. */
  lemma {:induction false} SavingStep(disk: Disk, r: Run, i: nat, ev: Event)
    requires r.cur < |r.bots| && i < |r.tasks| && r.tasks[i].Saving?
    ensures var next := TaskStep(disk, r, i, ev);
            || next == (disk, r)
            || (r.tasks[i] == Saving(false) && next == (Torn, SetTask(r, i, Saving(true))))
            || next == (Saved(r.docs), SetTask(r, i, Ended).(lock := None, dirty := false))
            || next == (disk, SetTask(r, i, Ended).(lock := None, saveRaised := true))
  {
  }

  lemma {:induction false} WriteLag(disk: Disk, r: Run, i: nat)
    requires Lag(disk, r) && r.main.Gathering? && i < |r.tasks|
    ensures Lag(Saved(r.docs), SetTask(r, i, Ended).(lock := None, dirty := false))
  {
  }

  lemma {:induction false} RaiseLag(disk: Disk, r: Run, i: nat)
    requires Lag(disk, r) && r.main.Gathering? && i < |r.tasks|
    ensures Lag(disk, SetTask(r, i, Ended).(lock := None, saveRaised := true))
  {
  }

  lemma {:induction false} OpenLag(disk: Disk, r: Run, i: nat)
    requires Lag(disk, r) && r.main.Gathering? && i < |r.tasks| && r.tasks[i] == Saving(false) && r.lock == Some(i)
    ensures Lag(Torn, SetTask(r, i, Saving(true)))
  {
  }

  /** The steps before the lock touch neither file nor documents. */
  lemma {:induction false} AskingLag(disk: Disk, r: Run, i: nat, ev: Event)
    requires Lag(disk, r) && r.main.Gathering? && r.cur < |r.bots| && i < |r.tasks|
    requires !r.tasks[i].Saving? && !(ev.Lock? && r.tasks[i].Ready?)
    requires r.lock.Some? ==> r.lock.value < |r.tasks| && r.tasks[r.lock.value].Saving?
    ensures Lag(TaskStep(disk, r, i, ev).0, TaskStep(disk, r, i, ev).1)
  {
    AskingStep(disk, r, i, ev);
    SameLag(disk, r, TaskStep(disk, r, i, ev).1);
  }

  lemma {:induction false} AskingStep(disk: Disk, r: Run, i: nat, ev: Event)
    requires r.cur < |r.bots| && i < |r.tasks| && !r.tasks[i].Saving? && !(ev.Lock? && r.tasks[i].Ready?)
    ensures var (disk', r') := TaskStep(disk, r, i, ev);
            && disk' == disk && r'.docs == r.docs && r'.dirty == r.dirty && r'.lock == r.lock && r'.main == r.main
            && r'.saveRaised == r.saveRaised && |r'.tasks| == |r.tasks|
            && forall j :: 0 <= j < |r.tasks| && j != i ==> r'.tasks[j] == r.tasks[j]
  {
  }

  lemma {:induction false} SameLag(disk: Disk, r: Run, r': Run)
    requires Lag(disk, r)
    requires r'.docs == r.docs && r'.dirty == r.dirty && r'.lock == r.lock && r'.main == r.main
    requires r'.saveRaised == r.saveRaised && |r'.tasks| == |r.tasks|
    requires r.lock.Some? && r.lock.value < |r.tasks| ==> r'.tasks[r.lock.value] == r.tasks[r.lock.value]
    ensures Lag(disk, r')
  {
  }

  // ---- any event ----

  lemma {:induction false} FinalOpenOk(gold: map<string, nat>, disk: Disk, r: Run)
    requires RunOk(gold, disk, r) && r.main.Between? && r.cur == |r.bots|
    ensures RunOk(gold, Torn, r.(docs := Recompute(r.docs), dirty := true, main := FinalSave))
  {
    RecomputeRecorded(r);
    FailedStays(r, r.(docs := Recompute(r.docs), dirty := true, main := FinalSave));
  }

  lemma {:induction false} RecomputeRecorded(r: Run)
    requires Recorded(r)
    ensures Recorded(r.(docs := Recompute(r.docs))) && Rows(Recompute(r.docs)) == Rows(r.docs)
  {
    SameQuestions(r.docs, Recompute(r.docs));
    SameIds(r.docs, Recompute(r.docs));
    IndexSameBots(r.docs, r.docByBot, Recompute(r.docs));
  }

  lemma {:induction false} FinalWriteOk(gold: map<string, nat>, disk: Disk, r: Run)
    requires RunOk(gold, disk, r) && r.main == FinalSave
    ensures RunOk(gold, Saved(r.docs), r.(dirty := false, main := Finished))
  {
    FailedStays(r, r.(dirty := false, main := Finished));
  }

  lemma {:induction false} TaskRunOk(gold: map<string, nat>, disk: Disk, r: Run, i: nat, ev: Event)
    requires RunOk(gold, disk, r) && r.main.Gathering? && r.cur < |r.bots| && i < |r.tasks|
    ensures RunOk(gold, TaskStep(disk, r, i, ev).0, TaskStep(disk, r, i, ev).1)
  {
    TaskProgress(gold, disk, r, i, ev);
    TaskRecorded(disk, r, i, ev);
    TaskLag(disk, r, i, ev);
  }

  lemma {:induction false} RunStepOk(gold: map<string, nat>, disk: Disk, r: Run, ev: Event)
    requires RunOk(gold, disk, r)
    ensures RunOk(gold, RunStep(gold, disk, r, ev).0, RunStep(gold, disk, r, ev).1)
  {
    if IsTaskEvent(ev) {
      TaskStepIs(gold, disk, r, ev);
      if r.main.Gathering? && r.cur < |r.bots| && ev.i < |r.tasks| {
        TaskRunOk(gold, disk, r, ev.i, ev);
      }
    } else {
      MainStepOk(gold, disk, r, ev);
    }
  }

  lemma {:induction false} OpenedOk(gold: map<string, nat>, disk: Disk, r: Run)
    requires RunOk(gold, disk, r) && r.main.Between? && r.cur < |r.bots| && Current(r) in gold
    ensures RunOk(gold, disk, Opened(r, gold[Current(r)]))
  {
    var n := gold[Current(r)];
    assert r.tasks == [] && r.lock.None?;
    OpenedProgress(gold, r);
    OpenedDocs(disk, r, n);
  }

  lemma {:induction false} ClosedOkRun(gold: map<string, nat>, disk: Disk, r: Run)
    requires RunOk(gold, disk, r) && r.main.Gathering? && AllEnded(r.tasks)
    ensures RunOk(gold, disk, r.(cur := r.cur + 1, tasks := [], main := Between))
  {
    ClosedProgress(gold, r);
    assert r.lock.None?;
  }

  lemma {:induction false} MainStepOk(gold: map<string, nat>, disk: Disk, r: Run, ev: Event)
    requires RunOk(gold, disk, r) && !IsTaskEvent(ev)
    ensures RunOk(gold, RunStep(gold, disk, r, ev).0, RunStep(gold, disk, r, ev).1)
  {
    if RunStep(gold, disk, r, ev) != (disk, r) {
      MainStep(gold, disk, r, ev);
      if ev.OpenBot? {
        OpenedOk(gold, disk, r);
      } else if ev.CloseBot? {
        ClosedOkRun(gold, disk, r);
      } else if ev.FinalOpen? {
        FinalOpenOk(gold, disk, r);
      } else {
        FinalWriteOk(gold, disk, r);
      }
    }
  }

  /** What a write leaves behind is memory, or an unreadable file. */
  lemma {:induction false} DiskAfter(gold: map<string, nat>, disk: Disk, r: Run, ev: Event)
    ensures RunStep(gold, disk, r, ev).0 == disk || RunStep(gold, disk, r, ev).0 == Torn
            || RunStep(gold, disk, r, ev).0 == Saved(RunStep(gold, disk, r, ev).1.docs)
  {
  }

  lemma {:induction false} IndexedDistinct(docs: seq<Doc>, index: map<string, nat>)
    requires Indexed(docs, index)
    ensures BotsDistinct(docs)
  {
  }

  lemma {:induction false} StepKeeps(s: Sys, ev: Event)
    requires Inv(s)
    ensures Inv(Apply(s, ev))
  {
    match s.run
    case None =>
      if ev.Launch? && Distinct(ev.bots) && forall b :: b in ev.bots ==> b in s.gold {
        LoadOk(s.gold, s.disk, ev.bots);
      }
    case Some(r) =>
      RunStepOk(s.gold, s.disk, r, ev);
      DiskStaysOk(s.gold, s.disk, r, ev);
  }

  lemma {:induction false} DiskStaysOk(gold: map<string, nat>, disk: Disk, r: Run, ev: Event)
    requires DiskOk(disk) && RunOk(gold, RunStep(gold, disk, r, ev).0, RunStep(gold, disk, r, ev).1)
    ensures DiskOk(RunStep(gold, disk, r, ev).0)
  {
    DiskAfter(gold, disk, r, ev);
    var r' := RunStep(gold, disk, r, ev).1;
    IndexedDistinct(r'.docs, r'.docByBot);
  }

  lemma {:induction false} HistoryKeeps(s: Sys, evs: seq<Event>)
    requires Inv(s)
    ensures Inv(History(s, evs))
    decreases |evs|
  {
    if |evs| > 0 {
      StepKeeps(s, evs[0]);
      HistoryKeeps(Apply(s, evs[0]), evs[1..]);
    }
  }

  lemma {:induction false} Reachable(gold: map<string, nat>, evs: seq<Event>)
    ensures Inv(History(Init(gold), evs))
  {
    HistoryKeeps(Init(gold), evs);
  }

  // ---- main results ----

  /** No question is ever recorded twice, in the file or in memory, and `done_q` is exactly the
      set of recorded ids. */
  lemma {:induction false} RecordedAtMostOnce(gold: map<string, nat>, evs: seq<Event>, id: string)
    ensures var s := History(Init(gold), evs);
            && Ids(OnDisk(s.disk))[id] <= 1
            && (s.run.Some? ==> Ids(s.run.value.docs)[id] == if id in s.run.value.done then 1 else 0)
  {
    Reachable(gold, evs);
    var s := History(Init(gold), evs);
    assert OncePerId(OnDisk(s.disk));
    if s.run.Some? {
      assert s.run.value.done == IdSet(s.run.value.docs) && OncePerId(s.run.value.docs);
    }
  }

  /** Outside the lock, and while no save has raised, the file's rows are memory's rows. */
  lemma {:induction false} FileEqualsMemory(gold: map<string, nat>, evs: seq<Event>)
    requires var s := History(Init(gold), evs);
             s.run.Some? && s.run.value.lock.None? && !s.run.value.main.FinalSave? && !s.run.value.saveRaised
    ensures var s := History(Init(gold), evs); Rows(OnDisk(s.disk)) == Rows(s.run.value.docs)
  {
    Reachable(gold, evs);
  }

  /** The rows a run holds, or would start from. */
  function Known(s: Sys): multiset<Row> {
    if s.run.Some? then Rows(s.run.value.docs) else Rows(OnDisk(s.disk))
  }

  predicate Behind(s: Sys) {
    s.run.Some? && s.run.value.dirty
  }

  lemma {:induction false} OnlyLockAddsRows(disk: Disk, r: Run, i: nat, ev: Event)
    requires r.cur < |r.bots| && i < |r.tasks|
    ensures TaskStep(disk, r, i, ev).1.docs == r.docs
            || (r.tasks[i].Ready? && Current(r) in r.docByBot && r.docByBot[Current(r)] < |r.docs|
                && TaskStep(disk, r, i, ev).1.docs
                   == Recompute(AppendRow(r.docs, r.docByBot[Current(r)], r.tasks[i].row)))
  {
  }

  lemma {:induction false} RunKnows(gold: map<string, nat>, disk: Disk, r: Run, ev: Event)
    ensures Rows(r.docs) <= Rows(RunStep(gold, disk, r, ev).1.docs)
  {
    if IsTaskEvent(ev) {
      TaskStepIs(gold, disk, r, ev);
      if r.main.Gathering? && r.cur < |r.bots| && ev.i < |r.tasks| {
        TaskKnows(disk, r, ev.i, ev);
      }
    } else {
      MainKnows(gold, disk, r, ev);
    }
  }

  lemma {:induction false} TaskKnows(disk: Disk, r: Run, i: nat, ev: Event)
    requires r.cur < |r.bots| && i < |r.tasks|
    ensures Rows(r.docs) <= Rows(TaskStep(disk, r, i, ev).1.docs)
  {
    OnlyLockAddsRows(disk, r, i, ev);
    if r.tasks[i].Ready? && Current(r) in r.docByBot && r.docByBot[Current(r)] < |r.docs| {
      LockRows(r.docs, r.docByBot[Current(r)], r.tasks[i].row);
    }
  }

  lemma {:induction false} MainKnows(gold: map<string, nat>, disk: Disk, r: Run, ev: Event)
    requires !IsTaskEvent(ev)
    ensures Rows(RunStep(gold, disk, r, ev).1.docs) == Rows(r.docs)
  {
    if RunStep(gold, disk, r, ev) != (disk, r) {
      MainStep(gold, disk, r, ev);
      if ev.OpenBot? {
        EmptyDocAddsNothing(r.docs, Doc(Current(r), 0, []));
      } else if ev.FinalOpen? {
        SameQuestions(r.docs, Recompute(r.docs));
      }
    }
  }

  /** One event loses no row, except a kill while the file lags behind memory; and that kill
      does lose rows, unless there were none. */
  lemma {:induction false} RowsLostExactly(s: Sys, ev: Event)
    requires Inv(s)
    ensures Known(s) <= Known(Apply(s, ev)) <==>
              !(ev.Kill? && Behind(s) && Known(s) != multiset{})
  {
    if s.run.Some? {
      var r := s.run.value;
      RunKnows(s.gold, s.disk, r, ev);
      if ev.Kill? {
        assert Lag(s.disk, r);
        if Known(s) <= Rows(OnDisk(s.disk)) {
          assert Known(s) == Rows(OnDisk(s.disk));
        }
      }
    } else if ev.Launch? && Distinct(ev.bots) && (forall b :: b in ev.bots ==> b in s.gold) {
      assert Known(Apply(s, ev)) == Known(s);
    } else {
      assert Apply(s, ev) == s;
    }
  }

  predicate KilledBehind(s: Sys, evs: seq<Event>)
    decreases |evs|
  {
    |evs| > 0 && ((evs[0].Kill? && Behind(s)) || KilledBehind(Apply(s, evs[0]), evs[1..]))
  }

  /** Over any number of kills and resumed runs the recorded rows only grow, as long as no kill
      falls between an append and the end of the write that follows it. */
  lemma {:induction false} NeverShrinks(s: Sys, evs: seq<Event>)
    requires Inv(s) && !KilledBehind(s, evs)
    ensures Known(s) <= Known(History(s, evs))
    decreases |evs|
  {
    if |evs| > 0 {
      RowsLostExactly(s, evs[0]);
      StepKeeps(s, evs[0]);
      NeverShrinks(Apply(s, evs[0]), evs[1..]);
    }
  }

  /** A kill inside the write itself loses the whole file, not just the last row: from any state in
      which a task is ready to record its row and nobody holds the lock, these three events do. */
  lemma {:induction false} KillInsideWrite(s: Sys, i: nat)
    requires Inv(s) && s.run.Some? && s.run.value.main.Gathering? && s.run.value.lock.None?
    requires i < |s.run.value.tasks| && s.run.value.tasks[i].Ready?
    ensures var written := History(s, [Lock(i), OpenFile(i)]);
            && Known(written) == Known(s) + multiset{s.run.value.tasks[i].row}
            && Known(Apply(written, Kill)) == multiset{} && Apply(written, Kill).disk == Torn
  {
    WrittenAndKilled(s, i, DocOf(s));
  }

  lemma {:induction false} WrittenAndKilled(s: Sys, i: nat, k: nat)
    requires s.run.Some? && s.run.value.main.Gathering? && s.run.value.cur < |s.run.value.bots|
    requires i < |s.run.value.tasks| && s.run.value.tasks[i].Ready? && s.run.value.lock.None?
    requires Current(s.run.value) in s.run.value.docByBot && k == s.run.value.docByBot[Current(s.run.value)] < |s.run.value.docs|
    ensures var written := History(s, [Lock(i), OpenFile(i)]);
            && Known(written) == Known(s) + multiset{s.run.value.tasks[i].row}
            && Known(Apply(written, Kill)) == multiset{} && Apply(written, Kill).disk == Torn
  {
    var r := s.run.value;
    LockRows(r.docs, k, r.tasks[i].row);
    LockStep(s, i, k, r.tasks[i].row);
    OpenStep(Apply(s, Lock(i)), i);
    TwoEvents(s, Lock(i), OpenFile(i));
  }

  ghost function DocOf(s: Sys): (k: nat)
    requires Inv(s) && s.run.Some? && s.run.value.main.Gathering?
    ensures s.run.value.cur < |s.run.value.bots| && Current(s.run.value) in s.run.value.docByBot
    ensures k == s.run.value.docByBot[Current(s.run.value)] < |s.run.value.docs|
  {
    var r := s.run.value;
    assert RunOk(s.gold, s.disk, r);
    r.docByBot[Current(r)]
  }

  /** Such a state is reached, and rows saved long before are lost with it: of one bot's two
      questions the first is on file when the second is recorded and the process killed. */
  lemma {:induction false} SavedRowLost() returns (evs: seq<Event>)
    ensures var (gold, row) := (map["b" := 2], Row(Qid("b", 0), true, ""));
            var s := History(Init(gold), evs);
            && Rows(OnDisk(s.disk)) == multiset{row}
            && Known(History(Init(gold), evs + [Lock(1), OpenFile(1), Kill])) == multiset{}
  {
    var gold, row := map["b" := 2], Row(Qid("b", 0), true, "");
    evs := TwoQuestions(gold);
    var s := History(Init(gold), evs);
    Reachable(gold, evs);
    KillInsideWrite(s, 1);
    HistoryConcat(Init(gold), evs, [Lock(1), OpenFile(1)]);
    HistoryStep(Init(gold), evs + [Lock(1), OpenFile(1)], Kill);
    assert evs + [Lock(1), OpenFile(1)] + [Kill] == evs + [Lock(1), OpenFile(1), Kill];
  }

  /** The first question recorded, the second one ready. */
  lemma {:induction false} TwoQuestions(gold: map<string, nat>) returns (evs: seq<Event>)
    requires gold == map["b" := 2]
    ensures var s := History(Init(gold), evs);
            && Rows(OnDisk(s.disk)) == multiset{Row(Qid("b", 0), true, "")}
            && s.run.Some? && s.run.value.main.Gathering? && s.run.value.lock.None?
            && |s.run.value.tasks| == 2 && s.run.value.tasks[1].Ready?
  {
    var begun, s := BotOpened(gold);
    TwoIds();
    evs := FirstSavedSecondReady(Init(gold), begun, s);
  }

  lemma {:induction false} FirstSavedSecondReady(start: Sys, begun: seq<Event>, s: Sys) returns (evs: seq<Event>)
    requires s == History(start, begun) && s.run.Some?
    requires var r := s.run.value;
             && r.main.Gathering? && r.lock.None? && r.bots == ["b"] && r.cur == 0 && r.docs == [Doc("b", 0, [])]
             && r.docByBot == map["b" := 0] && r.done == {} && r.tasks == [Waiting, Waiting]
    requires Qid("b", 0) != Qid("b", 1)
    ensures var s' := History(start, evs);
            && Rows(OnDisk(s'.disk)) == multiset{Row(Qid("b", 0), true, "")}
            && s'.run.Some? && s'.run.value.main.Gathering? && s'.run.value.lock.None?
            && |s'.run.value.tasks| == 2 && s'.run.value.tasks[1].Ready?
  {
    var row := Row(Qid("b", 0), true, "");
    var first, s1 := UpToReady(start, begun, s, 0);
    var saved, s2 := UpToSaved(start, first, s1, 0, row);
    assert Rows(s1.run.value.docs) == multiset{};
    LockRows(s1.run.value.docs, 0, row);
    var s3;
    evs, s3 := UpToReady(start, saved, s2, 1);
  }

  lemma {:induction false} BotOpened(gold: map<string, nat>) returns (evs: seq<Event>, s: Sys)
    requires gold == map["b" := 2]
    ensures s == History(Init(gold), evs) && s.run.Some? && s.gold == gold && s.disk == Missing
    ensures var r := s.run.value;
            && r.main.Gathering? && r.lock.None? && r.bots == ["b"] && r.cur == 0 && r.docs == [Doc("b", 0, [])]
            && r.docByBot == map["b" := 0] && r.done == {} && r.tasks == [Waiting, Waiting]
  {
    var s1 := Apply(Init(gold), Launch(["b"]));
    assert s1.run == Some(Load(Missing, ["b"]));
    evs := Then(Init(gold), [], Launch(["b"]), s1);
    OpenedStep(s1);
    s := Apply(s1, OpenBot);
    evs := Then(Init(gold), evs, OpenBot, s);
  }

  /** A question whose request fails gets ready to be recorded. */
  lemma {:induction false} UpToReady(start: Sys, before: seq<Event>, s: Sys, i: nat) returns (evs: seq<Event>, s': Sys)
    requires s == History(start, before) && s.run.Some? && At(s.run.value, i, Waiting)
    requires Qid(Current(s.run.value), i) !in s.run.value.done
    ensures s' == History(start, evs)
    ensures s' == s.(run := Some(SetTask(s.run.value, i, Ready(Row(Qid(Current(s.run.value), i), true, "")))))
  {
    BeginStep(s, i);
    var s1 := Apply(s, Begin(i));
    evs := Then(start, before, Begin(i), s1);
    AnsweredStep(s1, i, None);
    s' := Apply(s1, Answered(i, None));
    evs := Then(start, evs, Answered(i, None), s');
    var row := Row(Qid(Current(s.run.value), i), true, "");
    assert s.run.value.tasks[i := Asking][i := Ready(row)] == s.run.value.tasks[i := Ready(row)];
  }

  /** A ready row is recorded and saved. */
  lemma {:induction false} UpToSaved(start: Sys, before: seq<Event>, s: Sys, k: nat, row: Row) returns (evs: seq<Event>, s': Sys)
    requires s == History(start, before) && s.run.Some? && At(s.run.value, 0, Ready(row)) && s.run.value.lock.None?
    requires Current(s.run.value) in s.run.value.docByBot && k == s.run.value.docByBot[Current(s.run.value)] < |s.run.value.docs|
    ensures s' == History(start, evs)
    ensures var (r, docs) := (s.run.value, Recompute(AppendRow(s.run.value.docs, k, row)));
            s' == Sys(s.gold, Saved(docs), Some(SetTask(r, 0, Ended).(
              docs := docs, done := r.done + {Qid(Current(r), 0)}, lock := None, dirty := false)))
  {
    LockStep(s, 0, k, row);
    var s1 := Apply(s, Lock(0));
    evs := Then(start, before, Lock(0), s1);
    OpenStep(s1, 0);
    var s2 := Apply(s1, OpenFile(0));
    evs := Then(start, evs, OpenFile(0), s2);
    SaveEnds(s2, 0, true);
    s' := Apply(s2, WriteFile(0));
    evs := Then(start, evs, WriteFile(0), s');
    var tasks := s.run.value.tasks;
    assert tasks[0 := Saving(false)][0 := Saving(true)][0 := Ended] == tasks[0 := Ended];
  }

  lemma {:induction false} TwoIds()
    ensures Qid("b", 0) != Qid("b", 1)
  {
    if Qid("b", 0) == Qid("b", 1) {
      QidInjective("b", 0, "b", 1);
    }
  }

  /** One more event of a history. */
  lemma {:induction false} Then(start: Sys, evs: seq<Event>, ev: Event, next: Sys) returns (evs': seq<Event>)
    requires Apply(History(start, evs), ev) == next
    ensures History(start, evs') == next
  {
    evs' := evs + [ev];
    HistoryStep(start, evs, ev);
  }

  /** A finished run: the file holds one row for every selected question whose task did not
      raise, and none for the others. */
  lemma {:induction false} FinishedRun(gold: map<string, nat>, evs: seq<Event>, k: nat, i: nat)
    requires var s := History(Init(gold), evs);
             && s.run.Some? && s.run.value.main.Finished? && k < |s.run.value.bots|
             && s.run.value.bots[k] in s.gold && i < s.gold[s.run.value.bots[k]]
    ensures var s := History(Init(gold), evs);
            var qid := Qid(s.run.value.bots[k], i);
            Ids(OnDisk(s.disk))[qid] == if qid in s.run.value.failed then 0 else 1
  {
    Reachable(gold, evs);
    var s := History(Init(gold), evs);
    var r, qid := s.run.value, Qid(s.run.value.bots[k], i);
    RecordedAtMostOnce(gold, evs, qid);
    assert ClosedOk(s.gold, r) && r.failed !! r.done;
    assert s.disk == Saved(r.docs);
  }

  lemma {:induction false} NothingFails(s: Sys, evs: seq<Event>)
    requires s.run.Some? ==> s.run.value.failed == {}
    requires forall i :: 0 <= i < |evs| ==> !evs[i].TaskRaises?
    ensures var s' := History(s, evs); s'.run.Some? ==> s'.run.value.failed == {}
    decreases |evs|
  {
    if |evs| > 0 {
      assert !evs[0].TaskRaises?;
      NothingFails(Apply(s, evs[0]), evs[1..]);
    }
  }

  /** If no task raises, a finished run has exactly one row per selected question, however many
      kills and earlier runs came before. */
  lemma {:induction false} FinishedRunComplete(gold: map<string, nat>, before: seq<Event>, evs: seq<Event>, k: nat, i: nat)
    requires History(Init(gold), before).run.None?
    requires forall j :: 0 <= j < |evs| ==> !evs[j].TaskRaises?
    requires var s := History(Init(gold), before + evs);
             && s.run.Some? && s.run.value.main.Finished? && k < |s.run.value.bots|
             && s.run.value.bots[k] in s.gold && i < s.gold[s.run.value.bots[k]]
    ensures var s := History(Init(gold), before + evs);
            Ids(OnDisk(s.disk))[Qid(s.run.value.bots[k], i)] == 1
  {
    HistoryConcat(Init(gold), before, evs);
    NothingFails(History(Init(gold), before), evs);
    FinishedRun(gold, before + evs, k, i);
  }
}
