/** What every run of the consumer group keeps: where entries are, what an ack implies, and what
    a "done" hash shows. */
module ChatQueueSafety {
  import opened ChatQueue

  // ---- the invariant ----

  /** Delivered entries are pending or acked, never both; the rest are undelivered. */
  ghost predicate Placed(st: Store) {
    && st.cursor <= |st.stream|
    && (forall m :: m in st.pel ==> m < st.cursor && m !in st.acked)
    && (forall m :: m in st.acked ==> m < st.cursor)
    && (forall m: MsgId :: m < st.cursor ==> m in st.pel || m in st.acked)
  }

  /** The message needs no result, or has one, or its error handler gave up, by time `i`. */
  ghost predicate Settled(st: Store, m: MsgId, i: nat)
    requires i <= |st.log|
  {
    && m < |st.stream|
    && (st.stream[m].job == "" || Wrote(m) in st.log[..i] || Swallowed(m) in st.log[..i])
  }

  ghost predicate AckedAfterSettled(st: Store) {
    && (forall m :: m in st.acked <==> Acked(m) in st.log)
    && (forall i :: 0 <= i < |st.log| && st.log[i].Acked? ==> Settled(st, st.log[i].msg, i))
  }

  /** All five fields of the hash are those of one final state. */
  ghost predicate Shows(h: Hash, f: FinalState) {
    && Answer in h && h[Answer] == Text(f.answer)
    && Citations in h && h[Citations] == List(f.citations)
    && ChunksUsed in h
    && h[ChunksUsed] == Number(|if f.graded != [] then f.graded
                                else if f.reranked != [] then f.reranked else f.retrieved|)
    && DurationMs in h && h[DurationMs] == Number(f.durationMs)
  }

  predicate SaysDone(h: Hash) {
    Status in h && h[Status] == Text("done")
  }

  ghost predicate DoneIsOneRun(st: Store) {
    forall job :: job in st.results && SaysDone(st.results[job]) ==>
      exists f :: Ran(job, f) in st.log && Shows(st.results[job], f)
  }

  /** What the worker's program point says about the entry it is working on. */
  ghost predicate PointOk(st: Store, batch: seq<MsgId>, at: At) {
    && |batch| > 0 && st.cursor <= |st.stream|
    && (forall i :: 0 <= i < |batch| ==> batch[i] < st.cursor)
    && var m := batch[0];
       match at
       case WriteDone(f) => Ran(st.stream[m].job, f) in st.log
       case ExpireMalformed => Wrote(m) in st.log
       case ExpireDone => Wrote(m) in st.log
       case ExpireError => Wrote(m) in st.log
       case Ack => st.stream[m].job == "" || Wrote(m) in st.log || Swallowed(m) in st.log
       case _ => true
  }

  function InHand(pc: Pc): set<MsgId> {
    if pc.Busy? then set m | m in pc.batch else {}
  }

  ghost predicate ProcOk(st: Store, w: WorkerId, p: Proc) {
    && (p.pc.Busy? ==> PointOk(st, p.pc.batch, p.pc.at))
    && Pending(st, w) <= p.leftover + InHand(p.pc)
  }

  ghost predicate Inv(s: Sys) {
    && Placed(s.store)
    && AckedAfterSettled(s.store)
    && DoneIsOneRun(s.store)
    && forall w :: w in s.procs ==> ProcOk(s.store, w, s.procs[w])
  }

  // ---- one event ----

  /** Entries and history are only ever added. */
  ghost predicate Grows(a: Store, b: Store) {
    && a.stream <= b.stream && a.log <= b.log && a.cursor <= b.cursor
  }

  /** The event is a Redis call that worker `ev.w` makes for the entry at the head of its batch. */
  predicate WorkingCall(s: Sys, ev: Event) {
    ev.Call? && Alive(s, ev.w) && Working(s.store, s.procs[ev.w].pc)
  }

  /** What a call adds to the history. */
  function NotesOf(m: MsgId, at: At, reply: Reply): seq<Mark> {
    match at
    case WriteMalformed => if reply.Applied() then [Wrote(m)] else []
    case WriteDone(_) => if reply.Applied() then [Wrote(m)] else []
    case WriteError(_) => (if reply.Applied() then [Wrote(m)] else []) + (if reply.Ok? then [] else [Swallowed(m)])
    case Ack => if reply.Applied() then [Acked(m)] else []
    case _ => []
  }

  lemma {:induction false} CallNotes(st: Store, p: Proc, w: WorkerId, batch: seq<MsgId>, at: At, reply: Reply)
    requires |batch| > 0 && batch[0] < |st.stream|
    ensures var st' := CallStep(st, p, w, batch, at, reply).0;
            && st'.log == st.log + NotesOf(batch[0], at, reply)
            && st'.stream == st.stream && st'.cursor == st.cursor
            && st'.acked == if at == Ack && reply.Applied() then st.acked + {batch[0]} else st.acked
  {
  }

  lemma {:induction false} WorkingCallNotes(s: Sys, ev: Event)
    requires WorkingCall(s, ev)
    ensures var (st, st', pc) := (s.store, Apply(s, ev).store, s.procs[ev.w].pc);
            && st'.log == st.log + NotesOf(pc.batch[0], pc.at, ev.reply)
            && st'.stream == st.stream && st'.cursor == st.cursor
            && st'.acked == if pc.at == Ack && ev.reply.Applied() then st.acked + {pc.batch[0]} else st.acked
  {
    var pc := s.procs[ev.w].pc;
    CallNotes(s.store, s.procs[ev.w], ev.w, pc.batch, pc.at, ev.reply);
  }

  /** Every other event notes at most a graph run. */
  lemma {:induction false} OtherNotes(s: Sys, ev: Event)
    requires !WorkingCall(s, ev)
    ensures var (st, st') := (s.store, Apply(s, ev).store);
            && st.log <= st'.log && |st'.log| <= |st.log| + 1
            && (|st'.log| > |st.log| ==> st'.log[|st.log|].Ran?)
            && st.stream <= st'.stream && st.cursor <= st'.cursor
            && st'.acked == st.acked
  {
  }

  lemma {:induction false} StepGrows(s: Sys, ev: Event)
    ensures Grows(s.store, Apply(s, ev).store)
  {
    if WorkingCall(s, ev) {
      WorkingCallNotes(s, ev);
    } else {
      OtherNotes(s, ev);
    }
  }

  lemma {:induction false} EnterOk(st: Store, batch: seq<MsgId>)
    requires st.cursor <= |st.stream| && forall i :: 0 <= i < |batch| ==> batch[i] < st.cursor
    ensures Enter(st, batch).Busy? ==> PointOk(st, Enter(st, batch).batch, Enter(st, batch).at)
    ensures InHand(Enter(st, batch)) == (set m | m in batch)
  {
  }

  lemma {:induction false} StepPlaced(s: Sys, ev: Event)
    requires Inv(s)
    ensures Placed(Apply(s, ev).store)
  {
    if ev.Call? && Alive(s, ev.w) && s.procs[ev.w].pc.Busy? {
      assert ProcOk(s.store, ev.w, s.procs[ev.w]);
    }
  }

  lemma {:induction false} StepAcked(s: Sys, ev: Event)
    requires Inv(s)
    ensures AckedAfterSettled(Apply(s, ev).store)
  {
    if WorkingCall(s, ev) {
      CallAcked(s, ev);
    } else {
      var st, st' := s.store, Apply(s, ev).store;
      OtherNotes(s, ev);
      AckedMore(st, st', st'.log[|st.log|..]);
    }
  }

  lemma {:induction false} CallAcked(s: Sys, ev: Event)
    requires Inv(s) && WorkingCall(s, ev)
    ensures AckedAfterSettled(Apply(s, ev).store)
  {
    WorkingCallNotes(s, ev);
    var pc := s.procs[ev.w].pc;
    assert ProcOk(s.store, ev.w, s.procs[ev.w]);
    var more := NotesOf(pc.batch[0], pc.at, ev.reply);
    assert pc.at != Ack ==> forall m :: Acked(m) !in more;
    assert s.store.log[..|s.store.log|] == s.store.log;
    AckedMore(s.store, Apply(s, ev).store, more);
  }

  /** More history, holding at most the ack of a settled entry. */
  lemma {:induction false} AckedMore(st: Store, st': Store, more: seq<Mark>)
    requires AckedAfterSettled(st) && st.stream <= st'.stream && st'.log == st.log + more
    requires forall m :: m in st'.acked <==> m in st.acked || Acked(m) in more
    requires forall m :: Acked(m) in more ==> more == [Acked(m)] && Settled(st, m, |st.log|)
    ensures AckedAfterSettled(st')
  {
    forall i | 0 <= i < |st'.log| && st'.log[i].Acked?
      ensures Settled(st', st'.log[i].msg, i)
    {
      if i < |st.log| {
        assert Settled(st, st.log[i].msg, i) && st'.log[..i] == st.log[..i];
      } else {
        assert st'.log[i] in more;
        assert st'.log[..i] == st.log == st.log[..|st.log|];
      }
    }
    forall m ensures m in st'.acked <==> Acked(m) in st'.log {
      assert m in st.acked <==> Acked(m) in st.log;
    }
  }

  lemma {:induction false} HSetDone(st: Store, m: MsgId, job: string, f: FinalState)
    requires DoneIsOneRun(st) && Ran(job, f) in st.log
    ensures DoneIsOneRun(HSet(st, m, job, DoneFields(f)))
  {
    var st' := HSet(st, m, job, DoneFields(f));
    assert Shows(st'.results[job], f) && Ran(job, f) in st'.log;
    forall j | j in st'.results && SaysDone(st'.results[j])
      ensures exists g :: Ran(j, g) in st'.log && Shows(st'.results[j], g)
    {
      if j != job {
        var g :| Ran(j, g) in st.log && Shows(st.results[j], g);
        assert Ran(j, g) in st'.log;
      }
    }
  }

  lemma {:induction false} HSetNotDone(st: Store, m: MsgId, job: string, fields: Hash)
    requires DoneIsOneRun(st) && Status in fields && fields[Status] != Text("done")
    ensures DoneIsOneRun(HSet(st, m, job, fields))
  {
    var st' := HSet(st, m, job, fields);
    forall j | j in st'.results && SaysDone(st'.results[j])
      ensures exists g :: Ran(j, g) in st'.log && Shows(st'.results[j], g)
    {
      var g :| Ran(j, g) in st.log && Shows(st.results[j], g);
      assert Ran(j, g) in st'.log;
    }
  }

  lemma {:induction false} DoneGrows(a: Store, b: Store)
    requires DoneIsOneRun(a) && Grows(a, b)
    requires forall job :: job in b.results ==> job in a.results && b.results[job] == a.results[job]
    ensures DoneIsOneRun(b)
  {
    forall j | j in b.results && SaysDone(b.results[j])
      ensures exists g :: Ran(j, g) in b.log && Shows(b.results[j], g)
    {
      var g :| Ran(j, g) in a.log && Shows(a.results[j], g);
      assert Ran(j, g) in b.log;
    }
  }

  lemma {:induction false} StepDone(s: Sys, ev: Event)
    requires Inv(s)
    ensures DoneIsOneRun(Apply(s, ev).store)
  {
    if WorkingCall(s, ev) {
      var p := s.procs[ev.w];
      assert ProcOk(s.store, ev.w, p);
      CallDone(s.store, p, ev.w, p.pc.batch, p.pc.at, ev.reply);
    } else {
      StepGrows(s, ev);
      OtherResults(s, ev);
      DoneGrows(s.store, Apply(s, ev).store);
    }
  }

  /** Only a worker's call writes a hash. */
  lemma {:induction false} OtherResults(s: Sys, ev: Event)
    requires !WorkingCall(s, ev)
    ensures var results := Apply(s, ev).store.results;
            forall job :: job in results ==> job in s.store.results && results[job] == s.store.results[job]
  {
  }

  lemma {:induction false} CallDone(st: Store, p: Proc, w: WorkerId, batch: seq<MsgId>, at: At, reply: Reply)
    requires |batch| > 0 && batch[0] < |st.stream| && DoneIsOneRun(st) && PointOk(st, batch, at)
    ensures DoneIsOneRun(CallStep(st, p, w, batch, at, reply).0)
  {
    var m := batch[0];
    var job := st.stream[m].job;
    match at
    case WriteDone(f) => HSetDone(st, m, job, f);
    case WriteMalformed => HSetNotDone(st, m, job, MALFORMED_FIELDS);
    case WriteError(message) => ErrorWriteDone(st, m, job, message, reply);
    case Ack => DoneGrows(st, XAck(st, m));
    case _ =>
  }

  lemma {:induction false} ErrorWriteDone(st: Store, m: MsgId, job: string, message: string, reply: Reply)
    requires DoneIsOneRun(st)
    ensures var st' := if reply.Applied() then HSet(st, m, job, ErrorFields(message)) else st;
            DoneIsOneRun(st') && DoneIsOneRun(Note(st', Swallowed(m)))
  {
    HSetNotDone(st, m, job, ErrorFields(message));
    var st' := if reply.Applied() then HSet(st, m, job, ErrorFields(message)) else st;
    DoneGrows(st', Note(st', Swallowed(m)));
  }

  lemma {:induction false} DeliveredOk(st: Store, w: WorkerId, n: nat)
    requires Placed(st)
    ensures Enter(Deliver(st, w, n), DeliveredBatch(st, w, n)).Busy? ==>
              PointOk(Deliver(st, w, n), Enter(Deliver(st, w, n), DeliveredBatch(st, w, n)).batch,
                      Enter(Deliver(st, w, n), DeliveredBatch(st, w, n)).at)
    ensures InHand(Enter(Deliver(st, w, n), DeliveredBatch(st, w, n)))
            == Fresh(st.cursor, Deliver(st, w, n).cursor)
    ensures Pending(Deliver(st, w, n), w) == Pending(st, w) + Fresh(st.cursor, Deliver(st, w, n).cursor)
    ensures forall v :: v != w ==> Pending(Deliver(st, w, n), v) == Pending(st, v)
  {
    var st', batch := Deliver(st, w, n), DeliveredBatch(st, w, n);
    EnterOk(st', batch);
    forall m | m in Fresh(st.cursor, st'.cursor) ensures m in batch {
      assert m == batch[m - st.cursor];
    }
  }

  /** The event is a move of worker `v` itself, or moves entries into its batch. */
  predicate Moves(ev: Event, v: WorkerId) {
    match ev
    case Produce(_) => false
    case Start(w) => w == v
    case SetStop(_) => false
    case Crash(w) => w == v
    case Leave(w) => w == v
    case Read(w, _, _) => w == v
    case Graph(w, _) => w == v
    case Call(w, _) => w == v
    case Reassign(_, _) => false
    case Reprocess(_, w) => w == v
    case KeyExpires(_) => false
  }

  lemma {:induction false} OthersHold(s: Sys, ev: Event, v: WorkerId)
    requires Placed(s.store) && !Moves(ev, v) && v in s.procs
    ensures Pending(Apply(s, ev).store, v) <= Pending(s.store, v) + Apply(s, ev).procs[v].leftover
  {
    if ev.Read? {
      DeliveredOk(s.store, ev.w, ev.n);
    }
  }

  lemma {:induction false} CallOk(s: Sys, w: WorkerId, reply: Reply)
    requires Inv(s) && Alive(s, w) && s.procs[w].pc.Busy?
    ensures ProcOk(Apply(s, Call(w, reply)).store, w, Apply(s, Call(w, reply)).procs[w])
  {
    assert ProcOk(s.store, w, s.procs[w]);
    var p := s.procs[w];
    if p.pc.at == Ack {
      AckOk(s.store, p, w, p.pc.batch, reply);
    } else {
      ResultCallOk(s.store, p, w, p.pc.batch, p.pc.at, reply);
    }
  }

  lemma {:induction false} ResultCallOk(st: Store, p: Proc, w: WorkerId, batch: seq<MsgId>, at: At, reply: Reply)
    requires ProcOk(st, w, p) && p.pc == Busy(batch, at) && at != Ack
    ensures var (st', p') := CallStep(st, p, w, batch, at, reply); ProcOk(st', w, p')
  {
    CallNotes(st, p, w, batch, at, reply);
    var (st', p') := CallStep(st, p, w, batch, at, reply);
    assert Pending(st', w) == Pending(st, w);
  }

  lemma {:induction false} AckOk(st: Store, p: Proc, w: WorkerId, batch: seq<MsgId>, reply: Reply)
    requires ProcOk(st, w, p) && p.pc == Busy(batch, Ack)
    ensures var (st', p') := CallStep(st, p, w, batch, Ack, reply); ProcOk(st', w, p')
  {
    if reply.Ok? {
      var st' := XAck(st, batch[0]);
      EnterOk(st', batch[1..]);
      assert batch == [batch[0]] + batch[1..];
      assert InHand(p.pc) <= {batch[0]} + InHand(Enter(st', batch[1..]));
      assert Pending(st', w) == Pending(st, w) - {batch[0]};
    }
  }

  lemma {:induction false} MoveOk(s: Sys, ev: Event, v: WorkerId)
    requires Inv(s) && Moves(ev, v) && !ev.Call? && v in Apply(s, ev).procs
    ensures ProcOk(Apply(s, ev).store, v, Apply(s, ev).procs[v])
  {
    StepGrows(s, ev);
    if v in s.procs {
      assert ProcOk(s.store, v, s.procs[v]);
    }
    match ev
    case Read(_, n, _) => DeliveredOk(s.store, v, n);
    case Reprocess(m, _) =>
      if m in s.store.pel {
        EnterOk(s.store, [m]);
      }
    case Graph(_, _) =>
    case _ =>
  }

  lemma {:induction false} StepProcs(s: Sys, ev: Event, v: WorkerId)
    requires Inv(s) && v in Apply(s, ev).procs
    ensures ProcOk(Apply(s, ev).store, v, Apply(s, ev).procs[v])
  {
    if Moves(ev, v) {
      if ev.Call? && Alive(s, v) && s.procs[v].pc.Busy? {
        CallOk(s, v, ev.reply);
      } else if ev.Call? {
        assert Apply(s, ev) == s;
      } else {
        MoveOk(s, ev, v);
      }
    } else {
      OthersHold(s, ev, v);
      StepGrows(s, ev);
      StepPlaced(s, ev);
      assert ProcOk(s.store, v, s.procs[v]);
    }
  }

  lemma {:induction false} StepKeeps(s: Sys, ev: Event)
    requires Inv(s)
    ensures Inv(Apply(s, ev))
  {
    StepPlaced(s, ev);
    StepAcked(s, ev);
    StepDone(s, ev);
    forall w | w in Apply(s, ev).procs ensures ProcOk(Apply(s, ev).store, w, Apply(s, ev).procs[w]) {
      StepProcs(s, ev, w);
    }
  }

  lemma {:induction false} RunKeeps(s: Sys, evs: seq<Event>)
    requires Inv(s)
    ensures Inv(Run(s, evs))
    decreases |evs|
  {
    if |evs| > 0 {
      StepKeeps(s, evs[0]);
      RunKeeps(Apply(s, evs[0]), evs[1..]);
    }
  }

  lemma {:induction false} Reachable(stream: seq<Entry>, evs: seq<Event>)
    ensures Inv(Run(Init(stream), evs))
  {
    assert Inv(Init(stream));
    RunKeeps(Init(stream), evs);
  }

  // ---- what an ack implies ----

  /** Every ack of an entry with a job id comes after a result write for it took effect, or after
      its error handler's write raised and was dropped. */
  lemma {:induction false} AckFollowsResult(stream: seq<Entry>, evs: seq<Event>, i: nat)
    requires var st := Run(Init(stream), evs).store;
             i < |st.log| && st.log[i].Acked? && st.log[i].msg < |st.stream|
             && st.stream[st.log[i].msg].job != ""
    ensures var log := Run(Init(stream), evs).store.log;
            Wrote(log[i].msg) in log[..i] || Swallowed(log[i].msg) in log[..i]
  {
    Reachable(stream, evs);
    var st := Run(Init(stream), evs).store;
    assert Settled(st, st.log[i].msg, i);
  }

  /** The event in which an error handler's result write for `m` raises. */
  predicate HandlerWriteRaises(s: Sys, ev: Event, m: MsgId) {
    && ev.Call? && ev.reply.Raised? && Alive(s, ev.w) && Working(s.store, s.procs[ev.w].pc)
    && s.procs[ev.w].pc.batch[0] == m && s.procs[ev.w].pc.at.WriteError?
  }

  predicate SomeHandlerWriteRaises(s: Sys, evs: seq<Event>, m: MsgId)
    decreases |evs|
  {
    |evs| > 0 && (HandlerWriteRaises(s, evs[0], m) || SomeHandlerWriteRaises(Apply(s, evs[0]), evs[1..], m))
  }

  /** The error handler's result write for `m` raises and never reached the server. */
  predicate HandlerWriteLost(s: Sys, ev: Event, m: MsgId) {
    HandlerWriteRaises(s, ev, m) && !ev.reply.applied
  }

  predicate SomeHandlerWriteLost(s: Sys, evs: seq<Event>, m: MsgId)
    decreases |evs|
  {
    |evs| > 0 && (HandlerWriteLost(s, evs[0], m) || SomeHandlerWriteLost(Apply(s, evs[0]), evs[1..], m))
  }

  /** What an event adds to the history, as far as dropped writes go. */
  lemma {:induction false} StepNotes(s: Sys, ev: Event, m: MsgId)
    ensures s.store.log <= Apply(s, ev).store.log
    ensures var more := Apply(s, ev).store.log[|s.store.log|..];
            if HandlerWriteRaises(s, ev, m) then more == (if ev.reply.applied then [Wrote(m)] else []) + [Swallowed(m)]
            else Swallowed(m) !in more
  {
    if WorkingCall(s, ev) {
      WorkingCallNotes(s, ev);
      var pc := s.procs[ev.w].pc;
      assert Apply(s, ev).store.log[|s.store.log|..] == NotesOf(pc.batch[0], pc.at, ev.reply);
    } else {
      OtherNotes(s, ev);
    }
  }

  /** A write is noted as dropped for `m` exactly when the handler's write for `m` raised. */
  lemma {:induction false} SwallowedExactly(s: Sys, evs: seq<Event>, m: MsgId)
    ensures Swallowed(m) in Run(s, evs).store.log <==> Swallowed(m) in s.store.log || SomeHandlerWriteRaises(s, evs, m)
    decreases |evs|
  {
    if |evs| > 0 {
      var s' := Apply(s, evs[0]);
      StepNotes(s, evs[0], m);
      assert s'.store.log == s.store.log + s'.store.log[|s.store.log|..];
      SwallowedExactly(s', evs[1..], m);
    }
  }

  /** Wherever a dropped write of `m` is noted, `m` was written before. */
  ghost predicate DroppedOnlyAfterWrite(log: seq<Mark>, m: MsgId) {
    forall i :: 0 <= i < |log| && log[i] == Swallowed(m) ==> Wrote(m) in log[..i]
  }

  lemma {:induction false} DroppedStep(s: Sys, ev: Event, m: MsgId)
    requires DroppedOnlyAfterWrite(s.store.log, m) && !HandlerWriteLost(s, ev, m)
    ensures DroppedOnlyAfterWrite(Apply(s, ev).store.log, m)
  {
    StepNotes(s, ev, m);
    var log, log' := s.store.log, Apply(s, ev).store.log;
    var n, more := |log|, log'[|log|..];
    forall i | 0 <= i < |log'| && log'[i] == Swallowed(m) ensures Wrote(m) in log'[..i] {
      if i < n {
        assert log[..i] == log'[..i];
      } else {
        assert more[i - n] == Swallowed(m);
        assert log'[n] == more[0] == Wrote(m);
        assert log'[..i][n] == Wrote(m);
      }
    }
  }

  lemma {:induction false} DroppedRun(s: Sys, evs: seq<Event>, m: MsgId)
    requires DroppedOnlyAfterWrite(s.store.log, m) && !SomeHandlerWriteLost(s, evs, m)
    ensures DroppedOnlyAfterWrite(Run(s, evs).store.log, m)
    decreases |evs|
  {
    if |evs| > 0 {
      DroppedStep(s, evs[0], m);
      DroppedRun(Apply(s, evs[0]), evs[1..], m);
    }
  }

  /** In a run that loses no handler's write for `m`, the documented promise holds outright for `m`:
      its result is written before each of its acks. */
  lemma {:induction false} AckAfterWrite(stream: seq<Entry>, evs: seq<Event>, i: nat)
    requires var st := Run(Init(stream), evs).store;
             i < |st.log| && st.log[i].Acked? && st.log[i].msg < |st.stream|
             && st.stream[st.log[i].msg].job != ""
             && !SomeHandlerWriteLost(Init(stream), evs, st.log[i].msg)
    ensures var log := Run(Init(stream), evs).store.log; Wrote(log[i].msg) in log[..i]
  {
    AckFollowsResult(stream, evs, i);
    var log := Run(Init(stream), evs).store.log;
    var m := log[i].msg;
    DroppedRun(Init(stream), evs, m);
    if Swallowed(m) in log[..i] {
      var k :| 0 <= k < i && log[k] == Swallowed(m);
      var e :| 0 <= e < k && log[e] == Wrote(m);
      assert log[..i][e] == Wrote(m);
    }
  }

  // ---- the other half: what an attempt in its error handler leaves behind ----

  /** The events of worker `w` itself, in order. */
  function Own(evs: seq<Event>, w: WorkerId): seq<Event> {
    if |evs| == 0 then [] else (if Moves(evs[0], w) then [evs[0]] else []) + Own(evs[1..], w)
  }

  /** No event of another program writes a result for `m`. */
  predicate OthersWriteNot(s: Sys, evs: seq<Event>, w: WorkerId, m: MsgId)
    decreases |evs|
  {
    |evs| > 0 ==>
      && (Moves(evs[0], w) || Wrote(m) !in Apply(s, evs[0]).store.log[|s.store.log|..])
      && OthersWriteNot(Apply(s, evs[0]), evs[1..], w, m)
  }

  /** Worker `w` is about to make call `at` for message `m` and then has `rest` to do. */
  ghost predicate Facing(s: Sys, w: WorkerId, m: MsgId, rest: seq<MsgId>, at: At) {
    && Alive(s, w) && s.procs[w].pc == Busy([m] + rest, at) && m < |s.store.stream|
  }

  /** What the history says about `m`: written or not, and acked once it was. */
  ghost predicate SameFor(a: Store, b: Store, m: MsgId) {
    && (Wrote(m) in a.log <==> Wrote(m) in b.log)
    && (m in a.acked ==> m in b.acked)
  }

  lemma {:induction false} OtherStep(s: Sys, ev: Event, w: WorkerId, m: MsgId)
    requires !Moves(ev, w) && Wrote(m) !in Apply(s, ev).store.log[|s.store.log|..]
    ensures SameFor(s.store, Apply(s, ev).store, m)
    ensures forall rest, at :: Facing(s, w, m, rest, at) ==> Facing(Apply(s, ev), w, m, rest, at)
  {
    StepGrows(s, ev);
    var log, log' := s.store.log, Apply(s, ev).store.log;
    assert log' == log + log'[|log|..];
  }

  /** Other programs alone change nothing for `m`. */
  lemma {:induction false} OthersOnly(s: Sys, evs: seq<Event>, w: WorkerId, m: MsgId)
    requires Own(evs, w) == [] && OthersWriteNot(s, evs, w, m)
    ensures SameFor(s.store, Run(s, evs).store, m)
    decreases |evs|
  {
    if |evs| > 0 {
      OtherStep(s, evs[0], w, m);
      OthersOnly(Apply(s, evs[0]), evs[1..], w, m);
    }
  }

  /** The run up to `w`'s next event finds `w` where it stood, and nothing changed for `m`. */
  lemma {:induction false} NextOwn(s: Sys, evs: seq<Event>, w: WorkerId, m: MsgId, rest: seq<MsgId>, at: At)
    returns (found: Sys, later: seq<Event>)
    requires Own(evs, w) != [] && OthersWriteNot(s, evs, w, m) && Facing(s, w, m, rest, at)
    ensures Facing(found, w, m, rest, at) && SameFor(s.store, found.store, m)
    ensures var s' := Apply(found, Own(evs, w)[0]);
            Run(s, evs) == Run(s', later) && Own(later, w) == Own(evs, w)[1..] && OthersWriteNot(s', later, w, m)
    decreases |evs|
  {
    if Moves(evs[0], w) {
      found, later := s, evs[1..];
    } else {
      OtherStep(s, evs[0], w, m);
      found, later := NextOwn(Apply(s, evs[0]), evs[1..], w, m, rest, at);
    }
  }

  /** The calls an error handler goes on to make, up to its ack. */
  function HandlerCalls(w: WorkerId, reply: Reply, expire: Reply, ack: Reply): seq<Event> {
    [Call(w, reply)] + (if reply.Ok? then [Call(w, expire)] else []) + [Call(w, ack)]
  }

  /** Exactly when an attempt that reached its error handler, for an entry nothing was written for,
      ends in an ack without a result, whatever other programs do between its calls short of
      writing that result themselves: when the handler's HSET does not take effect. */
  lemma {:induction false} HandlerDecides(s: Sys, w: WorkerId, m: MsgId, rest: seq<MsgId>, message: string,
                       reply: Reply, expire: Reply, ack: Reply, evs: seq<Event>)
    requires Facing(s, w, m, rest, WriteError(message)) && Wrote(m) !in s.store.log
    requires Own(evs, w) == HandlerCalls(w, reply, expire, ack) && OthersWriteNot(s, evs, w, m) && ack.Applied()
    ensures var s' := Run(s, evs);
            m in s'.store.acked && (Wrote(m) in s'.store.log <==> reply.Applied())
  {
    var s1, evs1 := NextOwn(s, evs, w, m, rest, WriteError(message));
    HandlerStep(s1, w, m, rest, message, reply);
    var s2 := Apply(s1, Call(w, reply));
    if reply.Ok? {
      var s3, evs3 := NextOwn(s2, evs1, w, m, rest, ExpireError);
      ExpireStep(s3, w, m, rest, expire);
      AckedNext(Apply(s3, Call(w, expire)), w, m, rest, ack, evs3);
    } else {
      AckedNext(s2, w, m, rest, ack, evs1);
    }
  }

  lemma {:induction false} AckedNext(s: Sys, w: WorkerId, m: MsgId, rest: seq<MsgId>, ack: Reply, evs: seq<Event>)
    requires Facing(s, w, m, rest, Ack) && OthersWriteNot(s, evs, w, m)
    requires Own(evs, w) == [Call(w, ack)] && ack.Applied()
    ensures m in Run(s, evs).store.acked
    ensures Wrote(m) in Run(s, evs).store.log <==> Wrote(m) in s.store.log
  {
    var found, later := NextOwn(s, evs, w, m, rest, Ack);
    AckStep(found, w, m, rest, ack);
    OthersOnly(Apply(found, Call(w, ack)), later, w, m);
  }

  lemma {:induction false} HandlerStep(s: Sys, w: WorkerId, m: MsgId, rest: seq<MsgId>, message: string, reply: Reply)
    requires Facing(s, w, m, rest, WriteError(message))
    ensures Facing(Apply(s, Call(w, reply)), w, m, rest, if reply.Ok? then ExpireError else Ack)
    ensures Apply(s, Call(w, reply)).store.log
            == s.store.log + (if reply.Applied() then [Wrote(m)] else [])
                           + (if reply.Ok? then [] else [Swallowed(m)])
  {
  }

  lemma {:induction false} ExpireStep(s: Sys, w: WorkerId, m: MsgId, rest: seq<MsgId>, expire: Reply)
    requires Facing(s, w, m, rest, ExpireError)
    ensures Facing(Apply(s, Call(w, expire)), w, m, rest, Ack) && Apply(s, Call(w, expire)).store == s.store
  {
  }

  lemma {:induction false} AckStep(s: Sys, w: WorkerId, m: MsgId, rest: seq<MsgId>, ack: Reply)
    requires Facing(s, w, m, rest, Ack) && ack.Applied()
    ensures m in Apply(s, Call(w, ack)).store.acked
    ensures Apply(s, Call(w, ack)).store.log == s.store.log + [Acked(m)]
  {
  }

  /** The promise does fail: from a fresh start, the graph raises, the handler's write raises, and
      the entry is acked with no result ever written. */
  lemma {:induction false} AckWithoutWrite()
    ensures exists evs :: var st := Run(Init([Entry("j", true)]), evs).store;
                          0 in st.acked && Wrote(0) !in st.log
  {
    var s0 := Init([Entry("j", true)]);
    var begin := [Start(0), Read(0, 1, Ok), Graph(0, Raises("boom"))];
    var s1 := Started(s0);
    var s2 := FirstRead(s1);
    var s3 := FirstGraphRaises(s2);
    RunFirst(s0, begin[0], begin[1], begin[2]);
    var down := Raised(false, "down");
    var calls := [Call(0, down), Call(0, Ok)];
    RunFirst(s3, calls[0], calls[1], calls[1]);
    OwnCalls(s3, down);
    HandlerDecides(s3, 0, 0, [], "boom", down, Ok, Ok, calls);
    RunConcat(s0, begin, calls);
    assert Wrote(0) !in Run(s0, begin + calls).store.log;
  }

  lemma {:induction false} OwnCalls(s: Sys, down: Reply)
    requires down.Raised?
    ensures var calls := [Call(0, down), Call(0, Ok)];
            Own(calls, 0) == HandlerCalls(0, down, Ok, Ok) && OthersWriteNot(s, calls, 0, 0)
  {
    var calls := [Call(0, down), Call(0, Ok)];
    assert calls[1..] == [Call(0, Ok)];
    assert Own(calls[1..], 0) == [Call(0, Ok)];
    assert OthersWriteNot(Apply(s, calls[0]), calls[1..], 0, 0);
  }

  lemma {:induction false} Started(s: Sys) returns (s': Sys)
    requires s == Init([Entry("j", true)])
    ensures s' == Apply(s, Start(0)) && s' == Sys(s.store, map[0 := Proc(LoopHead, false, {})])
  {
    s' := Apply(s, Start(0));
    assert Pending(s.store, 0) == {};
  }

  lemma {:induction false} FirstRead(s: Sys) returns (s': Sys)
    requires s == Sys(Init([Entry("j", true)]).store, map[0 := Proc(LoopHead, false, {})])
    ensures s' == Apply(s, Read(0, 1, Ok)) && Alive(s', 0) && s'.procs[0].pc == Busy([0], RunGraph)
    ensures s'.store.stream == [Entry("j", true)] && s'.store.log == []
  {
    s' := Apply(s, Read(0, 1, Ok));
    assert DeliveredBatch(s.store, 0, 1) == [0];
  }

  lemma {:induction false} FirstGraphRaises(s: Sys) returns (s': Sys)
    requires Alive(s, 0) && s.procs[0].pc == Busy([0], RunGraph)
    requires s.store.stream == [Entry("j", true)] && s.store.log == []
    ensures s' == Apply(s, Graph(0, Raises("boom"))) && Facing(s', 0, 0, [], WriteError("boom")) && s'.store.log == []
  {
    s' := Apply(s, Graph(0, Raises("boom")));
    assert [0] + [] == [0];
  }

  // ---- what a "done" hash shows ----

  /** Answer, citations, chunk count and duration of a "done" hash come from one graph run of
      that very job, whatever was written to the hash before or after. */
  lemma {:induction false} DoneHashIsOneRun(stream: seq<Entry>, evs: seq<Event>, job: string)
    requires var st := Run(Init(stream), evs).store;
             job in st.results && SaysDone(st.results[job])
    ensures var st := Run(Init(stream), evs).store;
            exists f :: Ran(job, f) in st.log && Shows(st.results[job], f)
  {
    Reachable(stream, evs);
  }

  predicate SaysError(h: Hash, text: string) {
    Status in h && h[Status] == Text("error") && Error in h && h[Error] == Text(text)
  }

  /** The part of an exception's text that is stored. */
  function Clipped(message: string): string {
    if |message| <= 300 then message else message[..300]
  }

  /** What a result call that reaches the server leaves in the job's hash: the answer of the run it
      was made for under status "done", or status "error" with the reason; no other hash changes. */
  lemma {:induction false} ResultWritten(s: Sys, ev: Event)
    requires WorkingCall(s, ev) && ev.reply.Applied()
    ensures var (at, results) := (s.procs[ev.w].pc.at, Apply(s, ev).store.results);
            var job := s.store.stream[s.procs[ev.w].pc.batch[0]].job;
            && (at.WriteDone? ==> job in results && SaysDone(results[job]) && Shows(results[job], at.final))
            && (at.WriteError? ==> job in results && SaysError(results[job], Clipped(at.message)))
            && (at.WriteMalformed? ==> job in results && SaysError(results[job], "malformed_request"))
            && (!at.WriteDone? && !at.WriteError? && !at.WriteMalformed? ==> results == s.store.results)
            && results - {job} == s.store.results - {job}
  {
    var p := s.procs[ev.w];
    CallWrites(s.store, p, ev.w, p.pc.batch, p.pc.at, ev.reply);
  }

  lemma {:induction false} CallWrites(st: Store, p: Proc, w: WorkerId, batch: seq<MsgId>, at: At, reply: Reply)
    requires |batch| > 0 && batch[0] < |st.stream| && reply.Applied()
    ensures var (results, job) := (CallStep(st, p, w, batch, at, reply).0.results, st.stream[batch[0]].job);
            && (at.WriteDone? ==> job in results && SaysDone(results[job]) && Shows(results[job], at.final))
            && (at.WriteError? ==> job in results && SaysError(results[job], Clipped(at.message)))
            && (at.WriteMalformed? ==> job in results && SaysError(results[job], "malformed_request"))
            && (!at.WriteDone? && !at.WriteError? && !at.WriteMalformed? ==> results == st.results)
            && results - {job} == st.results - {job}
  {
  }

  /** From a fresh start, a job whose graph returns and whose write goes through is answered. */
  lemma {:induction false} AnsweredJobSaysDone(final: FinalState)
    ensures var evs := [Start(0), Read(0, 1, Ok), Graph(0, Returns(final)), Call(0, Ok)];
            var st := Run(Init([Entry("j", true)]), evs).store;
            "j" in st.results && SaysDone(st.results["j"]) && Shows(st.results["j"], final)
  {
    var s0 := Init([Entry("j", true)]);
    var s1 := Started(s0);
    var s2 := FirstRead(s1);
    var s3 := FirstGraphReturns(s2, final);
    ResultWritten(s3, Call(0, Ok));
    var begin := [Start(0), Read(0, 1, Ok), Graph(0, Returns(final))];
    RunFirst(s0, begin[0], begin[1], begin[2]);
    RunFirst(s3, Call(0, Ok), Call(0, Ok), Call(0, Ok));
    RunConcat(s0, begin, [Call(0, Ok)]);
    assert begin + [Call(0, Ok)] == [Start(0), Read(0, 1, Ok), Graph(0, Returns(final)), Call(0, Ok)];
  }

  lemma {:induction false} FirstGraphReturns(s: Sys, final: FinalState) returns (s': Sys)
    requires Alive(s, 0) && s.procs[0].pc == Busy([0], RunGraph)
    requires s.store.stream == [Entry("j", true)] && s.store.log == []
    ensures s' == Apply(s, Graph(0, Returns(final))) && Facing(s', 0, 0, [], WriteDone(final))
    ensures s'.store.stream == [Entry("j", true)]
  {
    s' := Apply(s, Graph(0, Returns(final)));
    assert [0] + [] == [0];
  }

  // ---- where entries are ----

  datatype Place = Undelivered | PendingFor(w: WorkerId) | Done

  ghost predicate In(st: Store, m: MsgId, p: Place) {
    match p
    case Undelivered => st.cursor <= m
    case PendingFor(w) => m in Pending(st, w)
    case Done => m in st.acked
  }

  lemma {:induction false} OnePlace(stream: seq<Entry>, evs: seq<Event>, m: MsgId)
    requires m < |Run(Init(stream), evs).store.stream|
    ensures exists p :: In(Run(Init(stream), evs).store, m, p)
                        && forall q :: In(Run(Init(stream), evs).store, m, q) ==> q == p
  {
    Reachable(stream, evs);
    var st := Run(Init(stream), evs).store;
    var p := if st.cursor <= m then Undelivered
             else if m in st.acked then Done else PendingFor(st.pel[m]);
    assert In(st, m, p);
  }

  /** Only an XACK call that reaches the server acks, and it acks the entry its worker is
      working on: crashes, failed reads and outside claims ack nothing. */
  lemma {:induction false} OnlyAckCallsAck(s: Sys, ev: Event)
    ensures Apply(s, ev).store.acked != s.store.acked ==>
              && ev.Call? && ev.reply.Applied() && Alive(s, ev.w)
              && s.procs[ev.w].pc.Busy? && s.procs[ev.w].pc.at == Ack && |s.procs[ev.w].pc.batch| > 0
              && Apply(s, ev).store.acked == s.store.acked + {s.procs[ev.w].pc.batch[0]}
  {
  }

  /** Ways other than its own successful reads by which entries become pending for `w`. */
  predicate Pollutes(ev: Event, w: WorkerId) {
    || (ev.Read? && ev.w == w && ev.reply.Raised?)
    || (ev.Reassign? && ev.to == w)
    || (ev.Start? && ev.w == w)
  }

  lemma {:induction false} StaysClean(s: Sys, evs: seq<Event>, w: WorkerId)
    requires w in s.procs && (s.procs[w].leftover == {} || s.procs[w].pc.Down?)
    requires forall i :: 0 <= i < |evs| ==> !Pollutes(evs[i], w)
    ensures var s' := Run(s, evs); w in s'.procs && (s'.procs[w].leftover == {} || s'.procs[w].pc.Down?)
    decreases |evs|
  {
    if |evs| > 0 {
      assert !Pollutes(evs[0], w);
      var s' := Apply(s, evs[0]);
      assert w in s'.procs && (s'.procs[w].leftover == {} || s'.procs[w].pc.Down?);
      StaysClean(s', evs[1..], w);
    }
  }

  /** While no read of its own has failed after delivering and nobody claims entries onto it, what is
      pending for a running worker is in its batch: it has lost track of nothing. */
  lemma {:induction false} NothingLeftover(s: Sys, evs: seq<Event>, w: WorkerId)
    requires Inv(s) && w in s.procs && (s.procs[w].leftover == {} || s.procs[w].pc.Down?)
    requires forall i :: 0 <= i < |evs| ==> !Pollutes(evs[i], w)
    ensures var s' := Run(s, evs);
            w in s'.procs && (s'.procs[w].pc.Down? || Pending(s'.store, w) <= InHand(s'.procs[w].pc))
  {
    StaysClean(s, evs, w);
    RunKeeps(s, evs);
    var s' := Run(s, evs);
    assert ProcOk(s'.store, w, s'.procs[w]);
  }

  /** A worker that starts under an unused consumer name and later leaves its loop through
      `stop_event`, with none of its reads having raised and nothing claimed onto it, leaves no
      entry pending. */
  lemma {:induction false} CleanLeave(stream: seq<Entry>, before: seq<Event>, w: WorkerId, evs: seq<Event>)
    requires var s := Run(Init(stream), before); !Alive(s, w) && Pending(s.store, w) == {}
    requires forall i :: 0 <= i < |evs| ==> !Pollutes(evs[i], w)
    requires var s' := Run(Init(stream), before + [Start(w)] + evs);
             w in s'.procs && s'.procs[w].pc.Left?
    ensures Pending(Run(Init(stream), before + [Start(w)] + evs).store, w) == {}
  {
    var s, s' := Run(Init(stream), before), Run(Init(stream), before + [Start(w)] + evs);
    RunConcat(Init(stream), before, [Start(w)]);
    RunConcat(Init(stream), before + [Start(w)], evs);
    assert Run(s, [Start(w)]) == Run(Apply(s, Start(w)), []);
    Reachable(stream, before);
    StepKeeps(s, Start(w));
    NothingLeftover(Apply(s, Start(w)), evs, w);
  }

  // ---- what starts, feeds and stops a worker ----

  /** Whoever left the loop had been told to stop. */
  ghost predicate LeftStopped(s: Sys) {
    forall w :: w in s.procs && s.procs[w].pc.Left? ==> s.procs[w].stopSet
  }

  lemma {:induction false} LeavesOnlyStopped(s: Sys, evs: seq<Event>)
    requires LeftStopped(s)
    ensures LeftStopped(Run(s, evs))
    decreases |evs|
  {
    if |evs| > 0 {
      LeftStoppedStep(s, evs[0]);
      LeavesOnlyStopped(Apply(s, evs[0]), evs[1..]);
    }
  }

  lemma {:induction false} LeftStoppedStep(s: Sys, ev: Event)
    requires LeftStopped(s)
    ensures LeftStopped(Apply(s, ev))
  {
  }

  /** A worker told to stop reads nothing more: only another process under its name does. */
  lemma {:induction false} StoppedReadsNothing(s: Sys, evs: seq<Event>, w: WorkerId, n: nat, reply: Reply)
    requires w in s.procs && s.procs[w].stopSet && forall i :: 0 <= i < |evs| ==> evs[i] != Start(w)
    ensures Apply(Run(s, evs), Read(w, n, reply)) == Run(s, evs)
    decreases |evs|
  {
    if |evs| > 0 {
      assert evs[0] != Start(w);
      StoppedReadsNothing(Apply(s, evs[0]), evs[1..], w, n, reply);
    } else if Alive(s, w) {
      assert s.procs[w := s.procs[w]] == s.procs;
    }
  }

  /** A live worker is not started over, and one attempt takes one result from the graph. */
  lemma {:induction false} OnceOnly(s: Sys, w: WorkerId, first: GraphResult, second: GraphResult)
    ensures Alive(s, w) ==> Apply(s, Start(w)) == s
    ensures var s' := Apply(s, Graph(w, first)); Apply(s', Graph(w, second)) == s'
  {
    var s' := Apply(s, Graph(w, first));
    if Alive(s', w) {
      assert s'.procs[w := s'.procs[w]] == s'.procs;
    }
  }

  /** A new entry waits at the end of the stream, undelivered. */
  lemma {:induction false} ProducedWaits(stream: seq<Entry>, evs: seq<Event>, e: Entry)
    ensures var st, st' := Run(Init(stream), evs).store, Apply(Run(Init(stream), evs), Produce(e)).store;
            st'.stream == st.stream + [e] && In(st', |st.stream|, Undelivered)
  {
    Reachable(stream, evs);
  }

  /** An outside claim moves an entry only while it is pending; the worker it is handed to, if idle,
      starts on it. */
  lemma {:induction false} ClaimedIs(s: Sys, m: MsgId, w: WorkerId)
    ensures m !in s.store.pel ==> Apply(s, Reassign(m, w)) == s && Apply(s, Reprocess(m, w)) == s
    ensures m in s.store.pel ==> In(Apply(s, Reassign(m, w)).store, m, PendingFor(w))
    ensures m in s.store.pel && w in s.procs && s.procs[w].pc == LoopHead ==>
              var s' := Apply(s, Reprocess(m, w));
              In(s'.store, m, PendingFor(w)) && s'.procs[w].pc == Enter(s'.store, [m])
  {
    if Alive(s, w) {
      assert s.procs[w := s.procs[w]] == s.procs;
    }
  }
}
