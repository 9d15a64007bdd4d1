/** The worker's own code, `_process_one` and `consume_chat_requests`, as methods that change the
    shared Redis one call at a time.  At every `await` other programs may run any events of their
    own, and any Redis call may raise.  Each method is proved to be a run of the step system, so
    everything ChatQueueSafety proves of runs holds of it. */
module ChatAsyncWorker {
  import opened ChatQueue
  import opened ChatQueueSafety

  /** Everything the worker does not decide, as a function of how many calls it has made. */
  datatype Oracle = Oracle(
    others: nat -> seq<Event>,      // what other programs do meanwhile
    reply: nat -> Reply,            // whether this Redis call raises
    graph: nat -> GraphResult)      // what graph.ainvoke does

  /** The events among `evs` that do not move worker `w`. */
  function Foreign(evs: seq<Event>, w: WorkerId): (r: seq<Event>)
    ensures forall i :: 0 <= i < |r| ==> !Moves(r[i], w)
  {
    if |evs| == 0 then []
    else (if Moves(evs[0], w) then [] else [evs[0]]) + Foreign(evs[1..], w)
  }

  /** The same system with worker `w` at another program point, and `extra` more entries it has
      lost track of. */
  function Privately(s: Sys, w: WorkerId, pc: Pc, extra: set<MsgId>): Sys {
    if w in s.procs then
      s.(procs := s.procs[w := s.procs[w].(pc := pc, leftover := s.procs[w].leftover + extra)])
    else s
  }

  /** Other programs neither see nor change a worker's private state. */
  lemma {:induction false} ForeignIgnoresPrivate(s: Sys, ev: Event, w: WorkerId, pc: Pc, extra: set<MsgId>)
    requires w in s.procs && Awake(s.procs[w].pc) && Awake(pc) && !Moves(ev, w)
    ensures w in Apply(s, ev).procs && Apply(s, ev).procs[w].pc == s.procs[w].pc
    ensures Apply(Privately(s, w, pc, extra), ev) == Privately(Apply(s, ev), w, pc, extra)
  {
    if IsMove(ev) && ev.w != w {
      OtherMoves(s, ev, w, pc, extra);
    } else if ev.Reassign? {
      ClaimIgnoresPrivate(s, ev.m, ev.to, w, pc, extra);
    } else if ev.Start? {
      StartIgnoresPrivate(s, ev.w, w, pc, extra);
    } else if ev.SetStop? {
      StopIgnoresPrivate(s, w, pc, extra);
    }
  }

  lemma {:induction false} ClaimIgnoresPrivate(s: Sys, m: MsgId, to: WorkerId, w: WorkerId, pc: Pc, extra: set<MsgId>)
    requires w in s.procs
    ensures w in Apply(s, Reassign(m, to)).procs && Apply(s, Reassign(m, to)).procs[w].pc == s.procs[w].pc
    ensures Apply(Privately(s, w, pc, extra), Reassign(m, to)) == Privately(Apply(s, Reassign(m, to)), w, pc, extra)
  {
    assert s.procs[w].leftover + {m} + extra == s.procs[w].leftover + extra + {m};
    assert Apply(Privately(s, w, pc, extra), Reassign(m, to)).procs == Privately(Apply(s, Reassign(m, to)), w, pc, extra).procs;
  }

  lemma {:induction false} StartIgnoresPrivate(s: Sys, v: WorkerId, w: WorkerId, pc: Pc, extra: set<MsgId>)
    requires w in s.procs && v != w
    ensures w in Apply(s, Start(v)).procs && Apply(s, Start(v)).procs[w].pc == s.procs[w].pc
    ensures Apply(Privately(s, w, pc, extra), Start(v)) == Privately(Apply(s, Start(v)), w, pc, extra)
  {
    assert Apply(Privately(s, w, pc, extra), Start(v)).procs == Privately(Apply(s, Start(v)), w, pc, extra).procs;
  }

  lemma {:induction false} StopIgnoresPrivate(s: Sys, w: WorkerId, pc: Pc, extra: set<MsgId>)
    requires w in s.procs && Awake(s.procs[w].pc) && Awake(pc)
    ensures w in Apply(s, SetStop(w)).procs && Apply(s, SetStop(w)).procs[w].pc == s.procs[w].pc
    ensures Apply(Privately(s, w, pc, extra), SetStop(w)) == Privately(Apply(s, SetStop(w)), w, pc, extra)
  {
    assert Apply(Privately(s, w, pc, extra), SetStop(w)).procs == Privately(Apply(s, SetStop(w)), w, pc, extra).procs;
  }

  lemma {:induction false} OtherMoves(s: Sys, ev: Event, w: WorkerId, pc: Pc, extra: set<MsgId>)
    requires w in s.procs && IsMove(ev) && ev.w != w
    ensures w in Apply(s, ev).procs && Apply(s, ev).procs[w].pc == s.procs[w].pc
    ensures Apply(Privately(s, w, pc, extra), ev) == Privately(Apply(s, ev), w, pc, extra)
  {
    if Alive(s, ev.w) {
      var p := Move(s.store, s.procs[ev.w], ev).1;
      var q := s.procs[w].(pc := pc, leftover := s.procs[w].leftover + extra);
      assert s.procs[w := q][ev.w := p] == s.procs[ev.w := p][w := q];
    }
  }

  lemma {:induction false} ForeignRun(s: Sys, evs: seq<Event>, w: WorkerId, pc: Pc, extra: set<MsgId>)
    requires w in s.procs && Awake(s.procs[w].pc) && Awake(pc)
    requires forall i :: 0 <= i < |evs| ==> !Moves(evs[i], w)
    ensures w in Run(s, evs).procs && Run(s, evs).procs[w].pc == s.procs[w].pc
    ensures Run(Privately(s, w, pc, extra), evs) == Privately(Run(s, evs), w, pc, extra)
    ensures Grows(s.store, Run(s, evs).store)
    decreases |evs|
  {
    if |evs| > 0 {
      ForeignIgnoresPrivate(s, evs[0], w, pc, extra);
      StepGrows(s, evs[0]);
      ForeignRun(Apply(s, evs[0]), evs[1..], w, pc, extra);
    }
  }

  /** Redis and the other processes, as worker `w` finds and leaves them. */
  class World {
    const w: WorkerId
    const oracle: Oracle
    var clock: nat
    var store: Store
    var procs: map<WorkerId, Proc>  // the entry of `w` itself only carries its stop flag
    ghost var pc: Pc                // where `w` is in its code
    ghost var lost: set<MsgId>
    ghost var seen: Store           // Redis as the last call found it
    ghost const start: Sys
    ghost var trace: seq<Event>     // what has happened since `start`

    ghost function Machine(): Sys
      reads this
    {
      Privately(Sys(store, procs), w, pc, lost)
    }

    /** The shared state is one the step system reaches by the events of `trace`. */
    ghost predicate Valid()
      reads this
    {
      w in procs && procs[w].pc == LoopHead && Machine() == Run(start, trace)
    }

    /** A process starts under consumer name `w`, which no live process uses. */
    constructor (w: WorkerId, oracle: Oracle, store: Store, procs: map<WorkerId, Proc>)
      requires w in procs ==> !Awake(procs[w].pc)
      ensures Valid() && pc == LoopHead && start == Apply(Sys(store, procs), Start(w))
      ensures this.w == w && this.store == store
    {
      this.w, this.oracle, this.clock, this.store := w, oracle, 0, store;
      var p := Proc(LoopHead, false, Pending(store, w));
      this.procs := procs[w := p];
      pc, lost, trace, seen := LoopHead, {}, [], store;
      start := Sys(store, procs[w := p]);
      new;
      assert p.leftover + {} == p.leftover && p.(pc := LoopHead, leftover := p.leftover + {}) == p;
      assert this.procs[w := p] == this.procs;
    }

    /** The worker's own entry, at program point `pc` with `lost` more entries lost track of. */
    ghost function Self(pc: Pc, lost: set<MsgId>): Proc
      requires w in procs
      reads this
    {
      procs[w].(pc := pc, leftover := procs[w].leftover + lost)
    }

    /** The worker has just made the step `ev`, from `before`. */
    ghost method Happened(before: Store, pc0: Pc, lost0: set<MsgId>, ev: Event)
      requires w in procs && procs[w].pc == LoopHead && Awake(pc0) && IsMove(ev) && ev.w == w
      requires Privately(Sys(before, procs), w, pc0, lost0) == Run(start, trace)
      requires Move(before, Self(pc0, lost0), ev) == (store, Self(pc, lost))
      modifies this`trace
      ensures Valid()
    {
      MoveOfPrivate(Sys(before, procs), w, pc0, lost0, ev);
      RunConcat(start, trace, [ev]);
      RunFirst(Privately(Sys(before, procs), w, pc0, lost0), ev, ev, ev);
      trace := trace + [ev];
    }

    /** An `await`: other programs run. */
    method Yield()
      requires Valid() && Awake(pc)
      modifies this
      ensures Valid() && pc == old(pc) && lost == old(lost) && Grows(old(store), store)
    {
      var evs := Foreign(oracle.others(clock), w);
      ForeignRun(Sys(store, procs), evs, w, pc, lost);
      RunConcat(start, trace, evs);
      var after := Run(Sys(store, procs), evs);
      clock, store, procs := clock + 1, after.store, after.procs;
      trace := trace + evs;
    }

    /** XREADGROUP: the next undelivered entries, now pending for this worker; if the call raises,
        they may or may not have been delivered. */
    method XReadGroup(count: nat) returns (reply: Reply, ids: seq<MsgId>)
      requires Valid() && pc == LoopHead && !procs[w].stopSet
      modifies this
      ensures Valid() && (reply.Ok? ==> pc == Enter(store, ids)) && (reply.Raised? ==> pc == LoopHead)
      ensures forall i :: 0 <= i < |ids| ==> ids[i] < |store.stream|
      ensures store.log == old(store.log) && store.stream == old(store.stream)
      ensures if reply.Ok? then Took(old(store), store, w, ids, count) else ids == []
      ensures !reply.Applied() ==> store == old(store)
    {
      reply, ids := oracle.reply(clock), [];
      ghost var before, lost0 := store, lost;
      ReadMove(store, Self(pc, lost), w, count, reply);
      DeliverTakes(store, w, count);
      if reply.Applied() {
        lost := if reply.Ok? then lost else lost + Fresh(store.cursor, Deliver(store, w, count).cursor);
        ids := if reply.Ok? then DeliveredBatch(store, w, count) else [];
        store := Deliver(store, w, count);
      }
      if reply.Ok? {
        pc := Enter(store, ids);
      }
      ghost var taken := Fresh(before.cursor, Deliver(before, w, count).cursor);
      assert procs[w].leftover + lost0 + taken == procs[w].leftover + (lost0 + taken);
      Happened(before, LoopHead, lost0, Read(w, count, reply));
    }

    /** graph.ainvoke on the job of message `m`. */
    method AInvoke(ghost m: MsgId, job: string) returns (run: GraphResult)
      requires Valid() && AboutTo(pc, store, m, job, RunGraph)
      modifies this
      ensures Valid() && Grows(old(store), store)
      ensures match run
              case Returns(final) => AboutTo(pc, store, m, job, WriteDone(final)) && Ran(job, final) in store.log
              case Raises(message) => AboutTo(pc, store, m, job, WriteError(message))
      ensures pc.batch == old(pc).batch
    {
      Yield();
      run := oracle.graph(clock);
      ghost var before, pc0 := store, pc;
      match run {
        case Returns(final) =>
          store := Note(store, Ran(job, final));
          pc := Busy(pc.batch, WriteDone(final));
        case Raises(message) =>
          pc := Busy(pc.batch, WriteError(message));
      }
      Happened(before, pc0, lost, Graph(w, run));
    }

    /** HSET of `fields` on the result key of `job`; the error handler drops what its own call
        raises and says so in its log. */
    method HSet(m: MsgId, job: string, fields: Hash, inHandler: bool) returns (reply: Reply)
      requires Valid() && pc.Busy? && AboutTo(pc, store, m, job, pc.at)
      requires Writes(pc.at, fields) && inHandler == pc.at.WriteError?
      modifies this
      ensures Valid() && Grows(old(store), store) && pc == AfterCall(old(pc), reply)
      ensures reply.Applied() ==> Wrote(m) in store.log
      ensures Grows(old(store), seen)
      ensures if reply.Applied() then Merged(seen, store, job, fields) else SameButLog(seen, store)
      ensures inHandler && reply.Raised? ==> Swallowed(m) in store.log
    {
      Yield();
      reply := oracle.reply(clock);
      seen := store;
      WriteMove(store, Self(pc, lost), w, m, job, fields, reply);
      HSetEffects(store, m, job, fields, inHandler, reply);
      if reply.Applied() {
        store := ChatQueue.HSet(store, m, job, fields);
      }
      if inHandler && reply.Raised? {
        store := Note(store, Swallowed(m));
      }
      Settle(seen, reply);
    }

    /** EXPIRE on the result key: no effect the model can see. */
    method Expire(ghost m: MsgId, ghost job: string) returns (reply: Reply)
      requires Valid() && pc.Busy? && AboutTo(pc, store, m, job, pc.at)
      requires pc.at == ExpireMalformed || pc.at == ExpireDone || pc.at == ExpireError
      modifies this
      ensures Valid() && Grows(old(store), store) && pc == AfterCall(old(pc), reply)
    {
      Yield();
      reply := oracle.reply(clock);
      Settle(store, reply);
    }

    method XAck(m: MsgId, ghost job: string) returns (reply: Reply)
      requires Valid() && AboutTo(pc, store, m, job, Ack)
      modifies this
      ensures Valid() && Grows(old(store), store)
      ensures pc == if reply.Ok? then Enter(store, old(pc.batch)[1..]) else Down
      ensures Grows(old(store), seen)
      ensures if reply.Applied() then Removed(seen, store, m) else seen == store
      ensures reply.Ok? ==> exists i :: |old(store.log)| <= i < |store.log| && store.log[i] == Acked(m)
    {
      Yield();
      reply := oracle.reply(clock);
      seen := store;
      ghost var pc0, lost0 := pc, lost;
      AckMove(store, Self(pc, lost), w, m, reply);
      if reply.Applied() {
        store := ChatQueue.XAck(store, m);
      }
      if reply.Ok? {
        pc := Enter(store, pc.batch[1..]);
      } else {
        lost := lost + Pending(store, w);
        pc := Down;
      }
      assert reply.Raised? ==> Self(pc0, lost0).leftover + Pending(store, w) == Self(pc, lost).leftover;
      Happened(seen, pc0, lost0, Call(w, reply));
      assert reply.Ok? ==> store.log[|seen.log|] == Acked(m);
    }

    method Leave()
      requires Valid() && pc == LoopHead && procs[w].stopSet
      modifies this
      ensures Valid() && pc == Left && store == old(store)
    {
      pc := Left;
      Happened(store, LoopHead, lost, ChatQueue.Leave(w));
    }

    /** The worker's next program point after a result call. */
    ghost method Settle(before: Store, reply: Reply)
      requires w in procs && procs[w].pc == LoopHead && pc.Busy? && !pc.at.Ack? && !pc.at.RunGraph?
      requires Privately(Sys(before, procs), w, pc, lost) == Run(start, trace)
      requires Working(before, pc) && store == Move(before, Self(pc, lost), Call(w, reply)).0
      modifies this`pc, this`lost, this`trace
      ensures Valid() && pc == AfterCall(old(pc), reply)
    {
      ghost var pc0, lost0 := pc, lost;
      ResultCallMove(before, Self(pc, lost), w, reply);
      if AfterCall(pc, reply) == Down {
        lost := lost + Pending(store, w);
      }
      pc := AfterCall(pc, reply);
      assert pc == Down ==> Self(pc0, lost0).leftover + Pending(store, w) == Self(pc, lost).leftover;
      Happened(before, pc0, lost0, Call(w, reply));
    }
  }

  /** A step of `w` on the machine that has `w` at its private program point. */
  lemma {:induction false} MoveOfPrivate(s: Sys, w: WorkerId, pc: Pc, lost: set<MsgId>, ev: Event)
    requires w in s.procs && Awake(pc) && IsMove(ev) && ev.w == w
    ensures var (st, p) := Move(s.store, s.procs[w].(pc := pc, leftover := s.procs[w].leftover + lost), ev);
            Apply(Privately(s, w, pc, lost), ev) == Sys(st, s.procs[w := p])
  {
    var self := s.procs[w].(pc := pc, leftover := s.procs[w].leftover + lost);
    var p := Move(s.store, self, ev).1;
    assert s.procs[w := self][w := p] == s.procs[w := p];
  }

  lemma {:induction false} ReadMove(st: Store, p: Proc, w: WorkerId, count: nat, reply: Reply)
    requires p.pc.LoopHead? && !p.stopSet
    ensures Move(st, p, Read(w, count, reply)) ==
            if !reply.Applied() then (st, p)
            else if reply.Ok? then (Deliver(st, w, count), p.(pc := Enter(Deliver(st, w, count), DeliveredBatch(st, w, count))))
            else (Deliver(st, w, count), p.(leftover := p.leftover + Fresh(st.cursor, Deliver(st, w, count).cursor)))
  {
  }

  /** A result call's effect on its worker. */
  lemma {:induction false} ResultCallMove(st: Store, p: Proc, w: WorkerId, reply: Reply)
    requires Working(st, p.pc) && !p.pc.at.Ack? && !p.pc.at.RunGraph?
    ensures var (st', p') := Move(st, p, Call(w, reply));
            p' == if AfterCall(p.pc, reply) == Down then Die(st', p, w) else p.(pc := AfterCall(p.pc, reply))
  {
  }

  lemma {:induction false} WriteMove(st: Store, p: Proc, w: WorkerId, m: MsgId, job: string, fields: Hash, reply: Reply)
    requires p.pc.Busy? && AboutTo(p.pc, st, m, job, p.pc.at) && Writes(p.pc.at, fields)
    ensures Move(st, p, Call(w, reply)).0 == AfterWrite(st, m, job, fields, p.pc.at.WriteError?, reply)
  {
  }

  lemma {:induction false} AckMove(st: Store, p: Proc, w: WorkerId, m: MsgId, reply: Reply)
    requires Working(st, p.pc) && p.pc.at == Ack && p.pc.batch[0] == m
    ensures var st' := if reply.Applied() then ChatQueue.XAck(st, m) else st;
            Move(st, p, Call(w, reply)) == (st', if reply.Ok? then p.(pc := Enter(st', p.pc.batch[1..])) else Die(st', p, w))
  {
  }

  /** Redis after a result write, and after the error handler's note that its own raised. */
  function AfterWrite(st: Store, m: MsgId, job: string, fields: Hash, inHandler: bool, reply: Reply): Store {
    var st' := if reply.Applied() then ChatQueue.HSet(st, m, job, fields) else st;
    if inHandler && reply.Raised? then Note(st', Swallowed(m)) else st'
  }

  lemma {:induction false} HSetEffects(st: Store, m: MsgId, job: string, fields: Hash, inHandler: bool, reply: Reply)
    ensures var st' := AfterWrite(st, m, job, fields, inHandler, reply);
            && Grows(st, st')
            && (reply.Applied() ==> Wrote(m) in st'.log)
            && (inHandler && reply.Raised? ==> Swallowed(m) in st'.log)
            && if reply.Applied() then Merged(st, st', job, fields) else SameButLog(st, st')
  {
  }

  /** From `before` to `after`, `ids` went to `w`: the next undelivered entries in order, `count` of
      them unless the stream ends first. */
  ghost predicate Took(before: Store, after: Store, w: WorkerId, ids: seq<MsgId>, count: nat) {
    && |ids| <= count && after.cursor == before.cursor + |ids|
    && (|ids| < count ==> after.cursor >= |after.stream|)
    && (forall i :: 0 <= i < |ids| ==>
          ids[i] == before.cursor + i && ids[i] in after.pel && after.pel[ids[i]] == w)
    && (forall m :: m in after.pel && m !in ids ==> m in before.pel && after.pel[m] == before.pel[m])
    && after.results == before.results && after.acked == before.acked
  }

  /** `fields` were merged into the result hash of `job`: the hash keeps its other fields. */
  ghost predicate Merged(before: Store, after: Store, job: string, fields: Hash) {
    && after.results.Keys == before.results.Keys + {job}
    && (forall other :: other in before.results && other != job ==> after.results[other] == before.results[other])
    && (forall f :: f in fields ==> f in after.results[job] && after.results[job][f] == fields[f])
    && (forall f :: f !in fields ==>
          (f in after.results[job] <==> job in before.results && f in before.results[job]))
    && (forall f :: f !in fields && f in after.results[job] ==> after.results[job][f] == before.results[job][f])
    && after.pel == before.pel && after.acked == before.acked && after.stream == before.stream
  }

  ghost predicate SameButLog(before: Store, after: Store) {
    after.(log := before.log) == before
  }

  /** `m` is acked and pending for nobody; the rest of the pending list is as before. */
  ghost predicate Removed(before: Store, after: Store, m: MsgId) {
    && m in after.acked && m !in after.pel
    && after.pel == before.pel - {m} && after.acked - {m} == before.acked - {m}
    && after.results == before.results && after.stream == before.stream
  }

  lemma {:induction false} DeliverTakes(st: Store, w: WorkerId, n: nat)
    ensures Took(st, Deliver(st, w, n), w, DeliveredBatch(st, w, n), n)
    ensures Deliver(st, w, n).log == st.log && Deliver(st, w, n).stream == st.stream
    ensures forall m :: m in DeliveredBatch(st, w, n) ==> m < |st.stream|
  {
    var after, ids := Deliver(st, w, n), DeliveredBatch(st, w, n);
    var upto := after.cursor;
    assert forall m | m in Fresh(st.cursor, upto) :: m in after.pel && after.pel[m] == w;
    assert forall i :: 0 <= i < |ids| ==> ids[i] == st.cursor + i && ids[i] in Fresh(st.cursor, upto);
    forall m | m in Fresh(st.cursor, upto) ensures m in ids {
      assert m == ids[m - st.cursor];
    }
  }

  /** `m` was acked at or after time `from`, and settled before that ack. */
  ghost predicate Finished(st: Store, from: nat, m: MsgId) {
    exists i :: from <= i < |st.log| && st.log[i] == Acked(m) && Settled(st, m, i)
  }

  lemma {:induction false} FinishedGrows(a: Store, b: Store, early: nat, from: nat, m: MsgId)
    requires Grows(a, b) && early <= from && Finished(a, from, m)
    ensures Finished(b, early, m)
  {
    var i :| from <= i < |a.log| && a.log[i] == Acked(m) && Settled(a, m, i);
    assert b.log[i] == Acked(m) && b.log[..i] == a.log[..i];
  }

  /** The first `n` entries of a batch were finished. */
  ghost predicate FinishedFirst(st: Store, from: nat, ids: seq<MsgId>, n: nat)
    requires n <= |ids|
  {
    forall i :: 0 <= i < n ==> Finished(st, from, ids[i])
  }

  lemma {:induction false} FinishedOneMore(a: Store, b: Store, from: nat, ids: seq<MsgId>, n: nat)
    requires n < |ids| && Grows(a, b) && from <= |a.log|
    requires FinishedFirst(a, from, ids, n) && Finished(b, |a.log|, ids[n])
    ensures FinishedFirst(b, from, ids, n + 1)
  {
    FinishedStay(a, b, from, ids, n);
    FinishedGrows(b, b, from, |a.log|, ids[n]);
  }

  lemma {:induction false} FinishedStay(a: Store, b: Store, from: nat, ids: seq<MsgId>, n: nat)
    requires n <= |ids| && Grows(a, b) && FinishedFirst(a, from, ids, n)
    ensures FinishedFirst(b, from, ids, n)
  {
    forall i | 0 <= i < n ensures Finished(b, from, ids[i]) {
      FinishedGrows(a, b, from, from, ids[i]);
    }
  }

  /** An ack added to a history in which `m` is settled. */
  lemma {:induction false} AckFinishes(a: Store, b: Store, m: MsgId)
    requires Grows(a, b) && Settled(a, m, |a.log|)
    requires exists i :: |a.log| <= i < |b.log| && b.log[i] == Acked(m)
    ensures Finished(b, |a.log|, m)
  {
    var i :| |a.log| <= i < |b.log| && b.log[i] == Acked(m);
    assert a.log[..|a.log|] == a.log <= b.log[..i];
  }

  /** The worker is about to make call `at` for entry `m`, whose job is `job`. */
  ghost predicate AboutTo(pc: Pc, st: Store, m: MsgId, job: string, at: At) {
    pc.Busy? && pc.at == at && Working(st, pc) && pc.batch[0] == m && st.stream[m].job == job
  }

  /** The fields that the write `at` puts into the hash. */
  ghost predicate Writes(at: At, fields: Hash) {
    match at
    case WriteMalformed => fields == MALFORMED_FIELDS
    case WriteDone(final) => fields == DoneFields(final)
    case WriteError(message) => fields == ErrorFields(message)
    case _ => false
  }

  /** Where each result call leads; an exception outside `_process_one` ends the process. */
  ghost function AfterCall(pc: Pc, reply: Reply): Pc
    requires pc.Busy?
  {
    match pc.at
    case WriteMalformed => if reply.Ok? then Busy(pc.batch, ExpireMalformed) else Down
    case ExpireMalformed => if reply.Ok? then Busy(pc.batch, Ack) else Down
    case WriteDone(_) => Busy(pc.batch, if reply.Ok? then ExpireDone else WriteError(reply.message))
    case ExpireDone => Busy(pc.batch, if reply.Ok? then Ack else WriteError(reply.message))
    case WriteError(_) => Busy(pc.batch, if reply.Ok? then ExpireError else Ack)
    case ExpireError => Busy(pc.batch, Ack)
    case _ => pc
  }

  /** `_process_one`: run the graph and write its result; on any exception write an error
      instead, and drop what that raises. */
  method ProcessOne(world: World, m: MsgId, job: string) returns (ghost written: Store)
    requires world.Valid() && AboutTo(world.pc, world.store, m, job, RunGraph)
    modifies world
    ensures world.Valid() && Grows(old(world.store), world.store)
    ensures AboutTo(world.pc, world.store, m, job, Ack) && world.pc.batch == old(world.pc.batch)
    ensures Wrote(m) in world.store.log || Swallowed(m) in world.store.log
    ensures Grows(old(world.store), written) && Grows(written, world.store)
    ensures AnsweredIn(written, job) || FailedIn(written, job) || Swallowed(m) in world.store.log
  {
    var failure;
    failure, written := RunAndWrite(world, m, job);
    if failure.Raised? {
      written := WriteFailure(world, m, job, failure.message);
    }
  }

  /** The result hash shows the answer of a recorded graph run of the job. */
  ghost predicate AnsweredIn(st: Store, job: string) {
    && job in st.results && SaysDone(st.results[job])
    && exists final :: Ran(job, final) in st.log && Shows(st.results[job], final)
  }

  /** The result hash says why the job failed. */
  ghost predicate FailedIn(st: Store, job: string) {
    job in st.results && exists message :: SaysError(st.results[job], Clipped(message))
  }

  /** The `try` block: `Raised` if the graph or one of the result calls raises. */
  method RunAndWrite(world: World, m: MsgId, job: string) returns (outcome: Reply, ghost written: Store)
    requires world.Valid() && AboutTo(world.pc, world.store, m, job, RunGraph)
    modifies world
    ensures world.Valid() && Grows(old(world.store), world.store)
    ensures AboutTo(world.pc, world.store, m, job, if outcome.Ok? then Ack else WriteError(outcome.message))
    ensures world.pc.batch == old(world.pc.batch)
    ensures outcome.Ok? ==> Wrote(m) in world.store.log && AnsweredIn(written, job)
    ensures Grows(old(world.store), written) && Grows(written, world.store)
  {
    written := world.store;
    var run := world.AInvoke(m, job);
    match run {
      case Raises(message) => outcome := Raised(false, message);
      case Returns(final) => outcome, written := WriteAnswer(world, m, job, final);
    }
  }

  /** Its result calls. */
  method WriteAnswer(world: World, m: MsgId, job: string, final: FinalState) returns (outcome: Reply, ghost written: Store)
    requires world.Valid() && AboutTo(world.pc, world.store, m, job, WriteDone(final)) && Ran(job, final) in world.store.log
    modifies world
    ensures world.Valid() && Grows(old(world.store), world.store)
    ensures AboutTo(world.pc, world.store, m, job, if outcome.Ok? then Ack else WriteError(outcome.message))
    ensures world.pc.batch == old(world.pc.batch)
    ensures outcome.Ok? ==> Wrote(m) in world.store.log && AnsweredIn(written, job)
    ensures Grows(old(world.store), written) && Grows(written, world.store)
  {
    outcome := world.HSet(m, job, DoneFields(final), false);
    written := world.store;
    if outcome.Ok? {
      MergedAnswer(world.seen, written, job, final);
      outcome := world.Expire(m, job);
    }
  }

  lemma {:induction false} MergedAnswer(before: Store, after: Store, job: string, final: FinalState)
    requires Merged(before, after, job, DoneFields(final)) && Ran(job, final) in after.log
    ensures AnsweredIn(after, job)
  {
    assert Shows(after.results[job], final);
  }

  /** The `except` block. */
  method WriteFailure(world: World, m: MsgId, job: string, message: string) returns (ghost written: Store)
    requires world.Valid() && AboutTo(world.pc, world.store, m, job, WriteError(message))
    modifies world
    ensures world.Valid() && Grows(old(world.store), world.store)
    ensures AboutTo(world.pc, world.store, m, job, Ack) && world.pc.batch == old(world.pc.batch)
    ensures Wrote(m) in world.store.log || Swallowed(m) in world.store.log
    ensures Grows(old(world.store), written) && Grows(written, world.store)
    ensures (job in written.results && SaysError(written.results[job], Clipped(message))) || Swallowed(m) in world.store.log
  {
    var reply := world.HSet(m, job, ErrorFields(message), true);
    written := world.store;
    if reply.Ok? {
      reply := world.Expire(m, job);
    }
  }

  /** The body of the inner loop of `consume_chat_requests`: one delivered entry.  `dead`: an
      exception left the function, ending the process. */
  method HandleEntry(world: World, m: MsgId, e: Entry, ghost rest: seq<MsgId>) returns (dead: bool)
    requires world.Valid() && world.pc == Enter(world.store, [m] + rest)
    requires m < |world.store.stream| && world.store.stream[m] == e
    modifies world
    ensures world.Valid() && Grows(old(world.store), world.store)
    ensures if dead then world.pc == Down else world.pc == Enter(world.store, rest)
    ensures !dead ==> Finished(world.store, |old(world.store.log)|, m)
  {
    var reply: Reply;
    if e.job != "" {
      if e.parses {
        ghost var written := ProcessOne(world, m, e.job);
      } else {
        reply := world.HSet(m, e.job, MALFORMED_FIELDS, false);
        if reply.Raised? {
          return true;
        }
        reply := world.Expire(m, e.job);
        if reply.Raised? {
          return true;
        }
      }
    }
    ghost var settled := world.store;
    assert settled.log[..|settled.log|] == settled.log;
    reply := world.XAck(m, e.job);
    dead := reply.Raised?;
    if !dead {
      AckFinishes(settled, world.store, m);
      FinishedGrows(world.store, world.store, |old(world.store.log)|, |settled.log|, m);
    }
  }

  /** The entries of one read, in order: `done` of them were got past, all unless an exception left
      the function, and each of these was settled and then acked. */
  method HandleBatch(world: World, ids: seq<MsgId>, entries: seq<Entry>) returns (dead: bool, ghost done: nat)
    requires world.Valid() && |ids| == |entries| && world.pc == Enter(world.store, ids)
    requires forall i :: 0 <= i < |ids| ==>
               ids[i] < |world.store.stream| && world.store.stream[ids[i]] == entries[i]
    modifies world
    ensures world.Valid() && Grows(old(world.store), world.store)
    ensures world.pc == if dead then Down else LoopHead
    ensures done <= |ids| && (dead <==> done < |ids|)
    ensures FinishedFirst(world.store, |old(world.store.log)|, ids, done)
  {
    var k := 0;
    dead, done := false, 0;
    assert ids[0..] == ids;
    while k < |ids| && !dead
      invariant 0 <= k <= |ids| == |entries| && done == (if dead then k - 1 else k) <= |ids|
      invariant world.Valid() && Grows(old(world.store), world.store)
      invariant if dead then world.pc == Down else world.pc == Enter(world.store, ids[k..])
      invariant forall i :: 0 <= i < |ids| ==>
                  ids[i] < |world.store.stream| && world.store.stream[ids[i]] == entries[i]
      invariant FinishedFirst(world.store, |old(world.store.log)|, ids, done)
    {
      assert ids[k..] == [ids[k]] + ids[k + 1..];
      ghost var found := world.store;
      dead := HandleEntry(world, ids[k], entries[k], ids[k + 1..]);
      if dead {
        FinishedStay(found, world.store, |old(world.store.log)|, ids, done);
      } else {
        FinishedOneMore(found, world.store, |old(world.store.log)|, ids, done);
        done := done + 1;
      }
      k := k + 1;
    }
  }

  /** `consume_chat_requests`, watched for at most `rounds` passes through its loop. */
  method ConsumeChatRequests(world: World, batchCount: nat, rounds: nat)
    requires world.Valid() && world.pc == LoopHead
    modifies world
    ensures world.Valid()
    ensures Inv(world.start) ==> Inv(world.Machine())
    ensures world.pc == LoopHead || world.pc == Left || world.pc == Down
  {
    var round := 0;
    while round < rounds
      invariant world.Valid() && world.pc == LoopHead
    {
      round := round + 1;
      world.Yield();
      if world.procs[world.w].stopSet {
        world.Leave();
        break;
      }
      var reply, ids := world.XReadGroup(batchCount);
      if reply.Raised? {
        continue;
      }
      var entries := seq(|ids|, i requires 0 <= i < |ids| && ids[i] < |world.store.stream|
                                  reads world => world.store.stream[ids[i]]);
      var dead, _ := HandleBatch(world, ids, entries);
      if dead {
        break;
      }
    }
    if Inv(world.start) {
      RunKeeps(world.start, world.trace);
    }
  }
}
