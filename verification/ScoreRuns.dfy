/** The step system behind `scripts/capture_score_model.py`: one result file, and runs of the
    script that fill it, one task per question, until they finish or are killed.

    The questions of a bot are answered concurrently; a task appends its row and rewrites the
    file while it holds `save_lock`.  A new run starts from whatever the file holds.  As in the
    other step system `Apply` is total, so a history is any list of events. */
module ScoreRuns {
  import opened Wrappers
  import opened Decimal

  datatype Row = Row(id: string, requestFail: bool, answer: string)

  datatype Doc = Doc(bot: string, n: nat, questions: seq<Row>)

  /** The result file: `Torn` once it has been opened for writing and until the write is whole;
      a torn file does not parse. */
  datatype Disk = Missing | Torn | Saved(docs: seq<Doc>)

  /** `f"{bot}_q{i+1:02d}"` */
  function Qid(bot: string, i: nat): string {
    bot + "_q" + Pad2(i + 1)
  }

  function Pad2(n: nat): string {
    if n < 10 then "0" + Digits(n) else Digits(n)
  }

  // ---- rows, as bags ----

  function Bag(rows: seq<Row>): multiset<Row> {
    multiset(rows)
  }

  /** All rows of all documents. */
  function Rows(docs: seq<Doc>): multiset<Row> {
    if |docs| == 0 then multiset{} else Bag(docs[0].questions) + Rows(docs[1..])
  }

  function RowIds(rows: seq<Row>): multiset<string> {
    if |rows| == 0 then multiset{} else multiset{rows[0].id} + RowIds(rows[1..])
  }

  /** The ids of all rows, with repetition. */
  function Ids(docs: seq<Doc>): multiset<string> {
    if |docs| == 0 then multiset{} else RowIds(docs[0].questions) + Ids(docs[1..])
  }

  function OnDisk(disk: Disk): seq<Doc> {
    match disk
    case Missing => []
    case Torn => []     // json.loads raises ValueError, which the script drops
    case Saved(docs) => docs
  }

  // ---- what one critical section does to the documents ----

  function AppendRow(docs: seq<Doc>, k: nat, row: Row): seq<Doc>
    requires k < |docs|
  {
    docs[k := docs[k].(questions := docs[k].questions + [row])]
  }

  /** `_recompute_avgs`, as far as the row counts go. */
  function Recompute(docs: seq<Doc>): seq<Doc> {
    seq(|docs|, i requires 0 <= i < |docs| => docs[i].(n := |docs[i].questions|))
  }

  // ---- runs of the script ----

  datatype Task =
    | Waiting                // not scheduled yet
    | Asking                 // awaiting the answer
    | Scoring(answer: string)
    | Ready(row: Row)        // awaiting save_lock
    | Saving(torn: bool)   // row appended; `torn`: the file is being rewritten
    | Ended

  datatype Main = Between | Gathering | FinalSave | Finished

  /** `done` is the script's `done_q`, `docByBot` its `doc_by_bot` with positions in `docs` for
      references.  The last three fields are history: ids of tasks that ended in an exception
      before recording anything, whether the file lags behind memory, whether a save raised. */
  datatype Run = Run(
    bots: seq<string>, cur: nat, docs: seq<Doc>, docByBot: map<string, nat>, done: set<string>,
    tasks: seq<Task>, lock: Option<nat>, main: Main,
    failed: set<string>, dirty: bool, saveRaised: bool)

  /** `gold` gives the number of questions per bot of the question file. */
  datatype Sys = Sys(gold: map<string, nat>, disk: Disk, run: Option<Run>)

  datatype Event =
    | Launch(bots: seq<string>)
    | OpenBot
    | Begin(i: nat)
    | Answered(i: nat, answer: Option<string>)
    | Scored(i: nat)
    | TaskRaises(i: nat)
    | Lock(i: nat)
    | OpenFile(i: nat)
    | WriteFile(i: nat)
    | SaveRaises(i: nat)
    | CloseBot
    | FinalOpen
    | FinalWrite
    | Exit
    | Kill

  function IndexBots(docs: seq<Doc>): map<string, nat> {
    if |docs| == 0 then map[] else IndexBots(docs[..|docs| - 1])[docs[|docs| - 1].bot := |docs| - 1]
  }

  function IdSet(docs: seq<Doc>): set<string> {
    set id | id in Ids(docs)
  }

  function Load(disk: Disk, bots: seq<string>): Run {
    Run(bots, 0, OnDisk(disk), IndexBots(OnDisk(disk)), IdSet(OnDisk(disk)), [], None, Between,
        {}, false, false)
  }

  predicate Distinct(bots: seq<string>) {
    forall i, j :: 0 <= i < j < |bots| ==> bots[i] != bots[j]
  }

  function SetTask(r: Run, i: nat, t: Task): Run
    requires i < |r.tasks|
  {
    r.(tasks := r.tasks[i := t])
  }

  function Current(r: Run): string
    requires r.cur < |r.bots|
  {
    r.bots[r.cur]
  }

  /** The document of the current bot is looked up, or created empty. */
  function Opened(r: Run, questions: nat): Run
    requires r.cur < |r.bots|
  {
    var bot := Current(r);
    var r' := if bot in r.docByBot then r
              else r.(docs := r.docs + [Doc(bot, 0, [])], docByBot := r.docByBot[bot := |r.docs|]);
    r'.(tasks := seq(questions, i => Waiting), main := Gathering)
  }

  predicate AllEnded(tasks: seq<Task>) {
    forall i :: 0 <= i < |tasks| ==> tasks[i] == Ended
  }

  /** The step of task `i` of the current bot. */
  function TaskStep(disk: Disk, r: Run, i: nat, ev: Event): (Disk, Run)
    requires r.cur < |r.bots| && i < |r.tasks|
  {
    var qid := Qid(Current(r), i);
    match (ev, r.tasks[i])
    case (Begin(_), Waiting) =>
      (disk, SetTask(r, i, if qid in r.done then Ended else Asking))
    case (Answered(_, answer), Asking) =>
      (disk, SetTask(r, i, if answer.None? then Ready(Row(qid, true, "")) else Scoring(answer.value)))
    case (Scored(_), Scoring(answer)) =>
      (disk, SetTask(r, i, Ready(Row(qid, false, answer))))
    case (TaskRaises(_), Asking) =>
      (disk, SetTask(r, i, Ended).(failed := r.failed + {qid}))
    case (TaskRaises(_), Scoring(_)) =>
      (disk, SetTask(r, i, Ended).(failed := r.failed + {qid}))
    case (Lock(_), Ready(row)) =>
      if r.lock.None? && Current(r) in r.docByBot && r.docByBot[Current(r)] < |r.docs| then
        (disk, SetTask(r, i, Saving(false)).(
           docs := Recompute(AppendRow(r.docs, r.docByBot[Current(r)], row)),
           done := r.done + {qid}, lock := Some(i), dirty := true))
      else (disk, r)
    case (OpenFile(_), Saving(false)) => (Torn, SetTask(r, i, Saving(true)))
    case (WriteFile(_), Saving(true)) =>
      (Saved(r.docs), SetTask(r, i, Ended).(lock := None, dirty := false))
    case (SaveRaises(_), Saving(_)) =>
      (disk, SetTask(r, i, Ended).(lock := None, saveRaised := true))
    case _ => (disk, r)
  }

  predicate IsTaskEvent(ev: Event) {
    ev.Begin? || ev.Answered? || ev.Scored? || ev.TaskRaises? || ev.Lock?
    || ev.OpenFile? || ev.WriteFile? || ev.SaveRaises?
  }

  function RunStep(gold: map<string, nat>, disk: Disk, r: Run, ev: Event): (Disk, Run) {
    match ev
    case OpenBot =>
      if r.main.Between? && r.cur < |r.bots| && Current(r) in gold
      then (disk, Opened(r, gold[Current(r)])) else (disk, r)
    case CloseBot =>
      if r.main.Gathering? && AllEnded(r.tasks) then (disk, r.(cur := r.cur + 1, tasks := [], main := Between))
      else (disk, r)
    case FinalOpen =>
      if r.main.Between? && r.cur == |r.bots|
      then (Torn, r.(docs := Recompute(r.docs), dirty := true, main := FinalSave)) else (disk, r)
    case FinalWrite =>
      if r.main == FinalSave then (Saved(r.docs), r.(dirty := false, main := Finished)) else (disk, r)
    case Launch(_) => (disk, r)
    case Exit => (disk, r)
    case Kill => (disk, r)
    case _ =>
      if r.main.Gathering? && r.cur < |r.bots| && ev.i < |r.tasks| then TaskStep(disk, r, ev.i, ev)
      else (disk, r)
  }

  function Apply(s: Sys, ev: Event): Sys {
    match s.run
    case None =>
      if ev.Launch? && Distinct(ev.bots) && (forall b :: b in ev.bots ==> b in s.gold)
      then s.(run := Some(Load(s.disk, ev.bots))) else s
    case Some(r) =>
      if ev.Kill? || (ev.Exit? && r.main.Finished?) then s.(run := None)
      else var (disk, r') := RunStep(s.gold, s.disk, r, ev); s.(disk := disk, run := Some(r'))
  }

  function History(s: Sys, evs: seq<Event>): Sys
    decreases |evs|
  {
    if |evs| == 0 then s else History(Apply(s, evs[0]), evs[1..])
  }

  /** No result file, no run. */
  function Init(gold: map<string, nat>): Sys {
    Sys(gold, Missing, None)
  }
}
