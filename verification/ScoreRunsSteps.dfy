/** What each event of the scorer's step system does where it applies, one lemma an event. */
module ScoreRunsSteps {
  import opened Wrappers
  import opened ScoreRuns

  // ---- histories ----

  lemma {:induction false} HistoryConcat(s: Sys, a: seq<Event>, b: seq<Event>)
    ensures History(s, a + b) == History(History(s, a), b)
    decreases |a|
  {
    if |a| == 0 {
      assert a + b == b;
    } else {
      assert (a + b)[1..] == a[1..] + b;
      HistoryConcat(Apply(s, a[0]), a[1..], b);
    }
  }

  lemma {:induction false} HistoryStep(s: Sys, evs: seq<Event>, ev: Event)
    ensures History(s, evs + [ev]) == Apply(History(s, evs), ev)
  {
    HistoryConcat(s, evs, [ev]);
    assert [ev][1..] == [];
  }

  lemma {:induction false} OneEvent(s: Sys, ev: Event)
    ensures History(s, [ev]) == Apply(s, ev)
  {
    assert [ev][1..] == [];
  }

  lemma {:induction false} TwoEvents(s: Sys, a: Event, b: Event)
    ensures History(s, [a, b]) == Apply(Apply(s, a), b)
  {
    assert [a, b][1..] == [b];
    OneEvent(Apply(s, a), b);
  }

  // ---- a task's steps ----

  lemma {:induction false} TaskStepIs(gold: map<string, nat>, disk: Disk, r: Run, ev: Event)
    requires IsTaskEvent(ev)
    ensures RunStep(gold, disk, r, ev) ==
            if r.main.Gathering? && r.cur < |r.bots| && ev.i < |r.tasks| then TaskStep(disk, r, ev.i, ev) else (disk, r)
  {
  }

  /** Task `i` of the current bot is at `t`. */
  ghost predicate At(r: Run, i: nat, t: Task) {
    r.main.Gathering? && r.cur < |r.bots| && i < |r.tasks| && r.tasks[i] == t
  }

  lemma {:induction false} TaskApply(s: Sys, i: nat, ev: Event)
    requires s.run.Some? && IsTaskEvent(ev) && ev.i == i && s.run.value.main.Gathering?
    requires s.run.value.cur < |s.run.value.bots| && i < |s.run.value.tasks|
    ensures var (disk, r) := TaskStep(s.disk, s.run.value, i, ev); Apply(s, ev) == Sys(s.gold, disk, Some(r))
  {
    TaskStepIs(s.gold, s.disk, s.run.value, ev);
  }

  lemma {:induction false} BeginStep(s: Sys, i: nat)
    requires s.run.Some? && At(s.run.value, i, Waiting)
    ensures Apply(s, Begin(i)) ==
            s.(run := Some(SetTask(s.run.value, i, if Qid(Current(s.run.value), i) in s.run.value.done then Ended else Asking)))
  {
    TaskApply(s, i, Begin(i));
  }

  lemma {:induction false} AnsweredStep(s: Sys, i: nat, answer: Option<string>)
    requires s.run.Some? && At(s.run.value, i, Asking)
    ensures Apply(s, Answered(i, answer)) ==
            s.(run := Some(SetTask(s.run.value, i,
              if answer.None? then Ready(Row(Qid(Current(s.run.value), i), true, "")) else Scoring(answer.value))))
  {
    TaskApply(s, i, Answered(i, answer));
  }

  lemma {:induction false} ScoredStep(s: Sys, i: nat, answer: string)
    requires s.run.Some? && At(s.run.value, i, Scoring(answer))
    ensures Apply(s, Scored(i)) ==
            s.(run := Some(SetTask(s.run.value, i, Ready(Row(Qid(Current(s.run.value), i), false, answer)))))
  {
    TaskApply(s, i, Scored(i));
  }

  lemma {:induction false} RaisesStep(s: Sys, i: nat, t: Task)
    requires s.run.Some? && At(s.run.value, i, t) && (t.Asking? || t.Scoring?)
    ensures Apply(s, TaskRaises(i)) ==
            s.(run := Some(SetTask(s.run.value, i, Ended).(failed := s.run.value.failed + {Qid(Current(s.run.value), i)})))
  {
    TaskApply(s, i, TaskRaises(i));
  }

  lemma {:induction false} LockTask(disk: Disk, r: Run, i: nat, ev: Event)
    requires ev.Lock? && r.cur < |r.bots| && i < |r.tasks| && r.tasks[i].Ready?
    ensures TaskStep(disk, r, i, ev) ==
            (disk,
             if r.lock.None? && Current(r) in r.docByBot && r.docByBot[Current(r)] < |r.docs| then
               SetTask(r, i, Saving(false)).(
               docs := Recompute(AppendRow(r.docs, r.docByBot[Current(r)], r.tasks[i].row)),
               done := r.done + {Qid(Current(r), i)}, lock := Some(i), dirty := true)
             else r)
  {
  }

  lemma {:induction false} LockStep(s: Sys, i: nat, k: nat, row: Row)
    requires s.run.Some? && At(s.run.value, i, Ready(row)) && s.run.value.lock.None?
    requires Current(s.run.value) in s.run.value.docByBot && k == s.run.value.docByBot[Current(s.run.value)] < |s.run.value.docs|
    ensures var r := s.run.value;
            Apply(s, Lock(i)) == s.(run := Some(SetTask(r, i, Saving(false)).(
              docs := Recompute(AppendRow(r.docs, k, row)),
              done := r.done + {Qid(Current(r), i)}, lock := Some(i), dirty := true)))
  {
    TaskApply(s, i, Lock(i));
    LockTask(s.disk, s.run.value, i, Lock(i));
  }

  lemma {:induction false} OpenStep(s: Sys, i: nat)
    requires s.run.Some? && At(s.run.value, i, Saving(false))
    ensures Apply(s, OpenFile(i)) == s.(disk := Torn, run := Some(SetTask(s.run.value, i, Saving(true))))
  {
    TaskApply(s, i, OpenFile(i));
  }

  lemma {:induction false} SaveEnds(s: Sys, i: nat, torn: bool)
    requires s.run.Some? && At(s.run.value, i, Saving(torn))
    ensures torn ==> Apply(s, WriteFile(i)) ==
                     s.(disk := Saved(s.run.value.docs), run := Some(SetTask(s.run.value, i, Ended).(lock := None, dirty := false)))
    ensures Apply(s, SaveRaises(i)) ==
            s.(run := Some(SetTask(s.run.value, i, Ended).(lock := None, saveRaised := true)))
  {
    TaskApply(s, i, WriteFile(i));
    TaskApply(s, i, SaveRaises(i));
  }

  // ---- the main line ----

  lemma {:induction false} OpenedStep(s: Sys)
    requires s.run.Some? && s.run.value.main.Between? && s.run.value.cur < |s.run.value.bots|
    requires Current(s.run.value) in s.gold
    ensures Apply(s, OpenBot) == s.(run := Some(Opened(s.run.value, s.gold[Current(s.run.value)])))
  {
  }

  lemma {:induction false} ClosedStep(s: Sys)
    requires s.run.Some? && s.run.value.main.Gathering? && AllEnded(s.run.value.tasks)
    ensures Apply(s, CloseBot) ==
            s.(run := Some(s.run.value.(cur := s.run.value.cur + 1, tasks := [], main := Between)))
  {
  }

  /** The steps that are not a task's, where they apply. */
  lemma {:induction false} MainStep(gold: map<string, nat>, disk: Disk, r: Run, ev: Event)
    requires !IsTaskEvent(ev) && RunStep(gold, disk, r, ev) != (disk, r)
    ensures ev.OpenBot? || ev.CloseBot? || ev.FinalOpen? || ev.FinalWrite?
    ensures ev.OpenBot? ==>
              r.main.Between? && r.cur < |r.bots| && Current(r) in gold
              && RunStep(gold, disk, r, ev) == (disk, Opened(r, gold[Current(r)]))
    ensures ev.CloseBot? ==>
              r.main.Gathering? && AllEnded(r.tasks)
              && RunStep(gold, disk, r, ev) == (disk, r.(cur := r.cur + 1, tasks := [], main := Between))
    ensures ev.FinalOpen? ==>
              r.main.Between? && r.cur == |r.bots|
              && RunStep(gold, disk, r, ev) == (Torn, r.(docs := Recompute(r.docs), dirty := true, main := FinalSave))
    ensures ev.FinalWrite? ==>
              r.main == FinalSave && RunStep(gold, disk, r, ev) == (Saved(r.docs), r.(dirty := false, main := Finished))
  {
  }
}
