/** The step system behind `scripts/chat_async_worker.py`: one Redis Stream read by a consumer
    group, one result hash per job, and any number of worker processes.

    An event is one thing that can happen at an `await`: a Redis call that succeeds, a Redis call
    that raises (before or after the server applied it), a graph run that returns or raises, a
    process that dies, or something another program does to the same Redis.  `Apply` is total:
    an event that cannot happen in a state leaves the state alone, so a run is any event list. */
module ChatQueue {

  type MsgId = nat      // position of an entry in the stream
  type WorkerId = nat   // consumer name, one per process id

  const ERROR_MAX_CHARS: nat := 300

  datatype Field = Status | Answer | Citations | ChunksUsed | DurationMs | Error

  datatype Value = Text(text: string) | List(items: seq<string>) | Number(n: int)

  /** A Redis hash; HSET merges into it. */
  type Hash = map<Field, Value>

  /** A stream entry: its `job_id` field ("" when absent) and whether its `req` field parses. */
  datatype Entry = Entry(job: string, parses: bool)

  /** What the worker reads from the graph's final state; absent and empty are told apart only
      where the code tells them apart. */
  datatype FinalState = FinalState(
    answer: string, citations: seq<string>,
    graded: seq<string>, reranked: seq<string>, retrieved: seq<string>, durationMs: int)
  {
    function ChunksUsed(): nat {
      if |graded| > 0 then |graded| else if |reranked| > 0 then |reranked| else |retrieved|
    }
  }

  function DoneFields(f: FinalState): Hash {
    map[Status := Text("done"), Answer := Text(f.answer), Citations := List(f.citations),
        ChunksUsed := Number(f.ChunksUsed()), DurationMs := Number(f.durationMs)]
  }

  function ErrorFields(message: string): Hash {
    map[Status := Text("error"),
        Error := Text(if |message| <= ERROR_MAX_CHARS then message else message[..ERROR_MAX_CHARS])]
  }

  const MALFORMED_FIELDS: Hash := map[Status := Text("error"), Error := Text("malformed_request")]

  /** What has happened, oldest first; it survives crashes and key expiry. */
  datatype Mark =
    | Ran(job: string, final: FinalState)  // a graph run of this job returned
    | Wrote(msg: MsgId)                    // an HSET for this message took effect
    | Swallowed(msg: MsgId)                // the error handler's own writes raised and were dropped
    | Acked(msg: MsgId)                    // an XACK for this message took effect

  /** Redis as the workers share it.  `cursor` is the group's last-delivered position and `pel`
      the group's pending list, which names one consumer per entry. */
  datatype Store = Store(
    stream: seq<Entry>, cursor: nat, pel: map<MsgId, WorkerId>, acked: set<MsgId>,
    results: map<string, Hash>, log: seq<Mark>)

  // ---- effects of single Redis commands ----

  function Note(st: Store, mark: Mark): Store {
    st.(log := st.log + [mark])
  }

  /** XREADGROUP ">" with COUNT n: the next entries become pending for `w`. */
  function Deliver(st: Store, w: WorkerId, n: nat): Store {
    var upto := if st.cursor + n <= |st.stream| then st.cursor + n
                else if st.cursor <= |st.stream| then |st.stream| else st.cursor;
    st.(pel := map m: MsgId | m in st.pel.Keys + Fresh(st.cursor, upto) ::
                 if st.cursor <= m < upto then w else st.pel[m],
        cursor := upto)
  }

  /** The positions from `lo` up to but not including `hi`. */
  function Fresh(lo: nat, hi: nat): (r: set<MsgId>)
    ensures forall m: MsgId :: m in r <==> lo <= m < hi
  {
    if lo >= hi then {} else Fresh(lo, hi - 1) + {hi - 1}
  }

  function DeliveredBatch(st: Store, w: WorkerId, n: nat): seq<MsgId> {
    var upto := Deliver(st, w, n).cursor;
    seq(upto - st.cursor, i requires 0 <= i => st.cursor + i)
  }

  /** HSET on the result key of `job`, on behalf of message `m`. */
  function HSet(st: Store, m: MsgId, job: string, fields: Hash): Store {
    var before := if job in st.results then st.results[job] else map[];
    Note(st.(results := st.results[job := before + fields]), Wrote(m))
  }

  /** XACK: the entry leaves the pending list, whichever consumer it is pending for. */
  function XAck(st: Store, m: MsgId): Store {
    Note(st.(pel := st.pel - {m}, acked := st.acked + {m}), Acked(m))
  }

  // ---- worker processes ----

  datatype Reply = Ok | Raised(applied: bool, message: string)
  {
    predicate Applied() { Ok? || applied }
  }

  /** The next call the worker makes for the message at the head of its batch. */
  datatype At =
    | WriteMalformed | ExpireMalformed
    | RunGraph
    | WriteDone(final: FinalState) | ExpireDone
    | WriteError(message: string) | ExpireError
    | Ack

  /** `Busy` holds the entries of the last read that are still to be finished. */
  datatype Pc = LoopHead | Busy(batch: seq<MsgId>, at: At) | Left | Down

  /** `leftover`: entries that became pending for this consumer name in any way other than a
      successful read by this process. */
  datatype Proc = Proc(pc: Pc, stopSet: bool, leftover: set<MsgId>)

  datatype Sys = Sys(store: Store, procs: map<WorkerId, Proc>)

  datatype Event =
    | Produce(e: Entry)
    | Start(w: WorkerId)                    // a process starts under consumer name w
    | SetStop(w: WorkerId)                  // its stop_event is set
    | Crash(w: WorkerId)
    | Leave(w: WorkerId)                    // the loop test sees stop_event
    | Read(w: WorkerId, n: nat, reply: Reply)
    | Graph(w: WorkerId, run: GraphResult)
    | Call(w: WorkerId, reply: Reply)       // the Redis call named by the worker's `At`
    | Reassign(m: MsgId, to: WorkerId)      // an outside XCLAIM
    | Reprocess(m: MsgId, w: WorkerId)      // an outside XCLAIM whose entry w then processes
    | KeyExpires(job: string)

  datatype GraphResult = Returns(final: FinalState) | Raises(message: string)

  function Pending(st: Store, w: WorkerId): set<MsgId> {
    set m | m in st.pel && st.pel[m] == w
  }

  /** The branch taken on the entry at the head of `batch`. */
  function Enter(st: Store, batch: seq<MsgId>): Pc {
    if |batch| == 0 then LoopHead
    else if batch[0] >= |st.stream| then Down
    else
      var e := st.stream[batch[0]];
      if e.job == "" then Busy(batch, Ack)
      else if !e.parses then Busy(batch, WriteMalformed)
      else Busy(batch, RunGraph)
  }

  /** An exception that no handler catches, or a kill: the process is gone, its pending entries
      stay pending. */
  function Die(st: Store, p: Proc, w: WorkerId): Proc {
    p.(pc := Down, leftover := p.leftover + Pending(st, w))
  }

  /** The Redis call named by `at`, made for the entry at the head of `batch`. */
  function CallStep(st: Store, p: Proc, w: WorkerId, batch: seq<MsgId>, at: At, reply: Reply): (Store, Proc)
    requires |batch| > 0 && batch[0] < |st.stream|
  {
    var m, job := batch[0], st.stream[batch[0]].job;
    match at
    case WriteMalformed =>
      var st' := if reply.Applied() then HSet(st, m, job, MALFORMED_FIELDS) else st;
      (st', if reply.Ok? then p.(pc := Busy(batch, ExpireMalformed)) else Die(st', p, w))
    case ExpireMalformed =>
      (st, if reply.Ok? then p.(pc := Busy(batch, Ack)) else Die(st, p, w))
    case RunGraph => (st, p)
    case WriteDone(final) =>
      var st' := if reply.Applied() then HSet(st, m, job, DoneFields(final)) else st;
      (st', p.(pc := Busy(batch, if reply.Ok? then ExpireDone else WriteError(reply.message))))
    case ExpireDone =>
      (st, p.(pc := Busy(batch, if reply.Ok? then Ack else WriteError(reply.message))))
    case WriteError(message) =>
      var st' := if reply.Applied() then HSet(st, m, job, ErrorFields(message)) else st;
      if reply.Ok? then (st', p.(pc := Busy(batch, ExpireError)))
      else (Note(st', Swallowed(m)), p.(pc := Busy(batch, Ack)))
    case ExpireError =>
      (st, p.(pc := Busy(batch, Ack)))
    case Ack =>
      var st' := if reply.Applied() then XAck(st, m) else st;
      (st', if reply.Ok? then p.(pc := Enter(st', batch[1..])) else Die(st', p, w))
  }

  predicate Working(st: Store, pc: Pc) {
    pc.Busy? && |pc.batch| > 0 && pc.batch[0] < |st.stream|
  }

  predicate Awake(pc: Pc) {
    pc.LoopHead? || pc.Busy?
  }

  predicate IsMove(ev: Event) {
    ev.SetStop? || ev.Crash? || ev.Leave? || ev.Read? || ev.Graph? || ev.Call? || ev.Reprocess?
  }

  /** An event of worker `ev.w`: it depends on, and changes, only the store and that worker. */
  function Move(st: Store, p: Proc, ev: Event): (Store, Proc)
    requires IsMove(ev)
  {
    match ev
    case SetStop(_) => (st, p.(stopSet := true))
    case Crash(w) => (st, Die(st, p, w))
    case Leave(_) => (st, if p.pc.LoopHead? && p.stopSet then p.(pc := Left) else p)
    case Read(w, n, reply) =>
      if p.pc.LoopHead? && !p.stopSet && reply.Applied() then
        var st' := Deliver(st, w, n);
        (st', if reply.Ok? then p.(pc := Enter(st', DeliveredBatch(st, w, n)))
              else p.(leftover := p.leftover + Fresh(st.cursor, st'.cursor)))
      else (st, p)
    case Graph(_, run) =>
      if Working(st, p.pc) && p.pc.at == RunGraph then
        match run
        case Returns(final) =>
          (Note(st, Ran(st.stream[p.pc.batch[0]].job, final)), p.(pc := Busy(p.pc.batch, WriteDone(final))))
        case Raises(message) => (st, p.(pc := Busy(p.pc.batch, WriteError(message))))
      else (st, p)
    case Call(w, reply) =>
      if Working(st, p.pc) then CallStep(st, p, w, p.pc.batch, p.pc.at, reply) else (st, p)
    case Reprocess(m, w) =>
      if m in st.pel && p.pc.LoopHead? then
        (st.(pel := st.pel[m := w]), p.(pc := Enter(st, [m])))
      else (st, p)
  }

  predicate Alive(s: Sys, w: WorkerId) {
    w in s.procs && Awake(s.procs[w].pc)
  }

  function Apply(s: Sys, ev: Event): Sys {
    match ev
    case Produce(e) => s.(store := s.store.(stream := s.store.stream + [e]))
    case KeyExpires(job) => s.(store := s.store.(results := s.store.results - {job}))
    case Start(w) =>
      if Alive(s, w) then s
      else s.(procs := s.procs[w := Proc(LoopHead, false, Pending(s.store, w))])
    case Reassign(m, to) =>
      if m !in s.store.pel then s
      else Sys(s.store.(pel := s.store.pel[m := to]),
               if to in s.procs then s.procs[to := s.procs[to].(leftover := s.procs[to].leftover + {m})]
               else s.procs)
    case _ =>
      if Alive(s, ev.w) then
        var (st, p) := Move(s.store, s.procs[ev.w], ev);
        Sys(st, s.procs[ev.w := p])
      else s
  }

  function Run(s: Sys, evs: seq<Event>): Sys
    decreases |evs|
  {
    if |evs| == 0 then s else Run(Apply(s, evs[0]), evs[1..])
  }

  /** Before any worker has started: entries in the stream, nothing delivered. */
  function Init(stream: seq<Entry>): Sys {
    Sys(Store(stream, 0, map[], {}, map[], []), map[])
  }

  lemma {:induction false} RunConcat(s: Sys, a: seq<Event>, b: seq<Event>)
    ensures Run(s, a + b) == Run(Run(s, a), b)
    decreases |a|
  {
    if |a| == 0 {
      assert a + b == b;
    } else {
      assert (a + b)[1..] == a[1..] + b;
      RunConcat(Apply(s, a[0]), a[1..], b);
    }
  }

  lemma {:induction false} RunFirst(s: Sys, a: Event, b: Event, c: Event)
    ensures Run(s, [a]) == Apply(s, a)
    ensures Run(s, [a, b]) == Apply(Apply(s, a), b)
    ensures Run(s, [a, b, c]) == Apply(Apply(Apply(s, a), b), c)
  {
    assert [a, b] == [a] + [b] && [a, b, c] == [a] + ([b] + [c]);
    RunConcat(s, [a], [b]);
    RunConcat(s, [a], [b] + [c]);
    RunConcat(Apply(s, a), [b], [c]);
  }
}
