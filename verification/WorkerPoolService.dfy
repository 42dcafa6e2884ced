/** What the calls of the guest, the messages of the workers and completed stops bring about, and what
an orderly worker does for the calls that wait for it. */
module WorkerPoolService {
  import opened Containers
  import opened WorkerPool
  import opened WorkerPoolProofs

  // ----- Calls -----

  /** No session but `sid` is affected. */
  ghost predicate OthersSame(p: Pool, q: Pool, sid: nat) {
    && |q.slots| == |p.slots| && |q.sessions| == |p.sessions|
    && forall x {:trigger q.sessions[x]} :: 0 <= x < |p.sessions| && x != sid ==> q.sessions[x] == p.sessions[x]
  }

  /** A dispatch to a live session joins its waiting calls as the youngest and goes to the worker behind the
  earlier ones; if it cannot be posted, everything the session owes is resolved with the empty string, the
  session ends and its failure is recorded. */
  lemma {:induction false} DispatchIsOwed(es: seq<Event>, id: int, ok: bool, deferred: bool)
    requires id in Run(es).live
    ensures var p, q := Run(es), Run(es + [EvDispatch(id, ok, deferred)]);
            var sid := p.live[id];
            && OthersSame(p, q, sid) &&
            var s, t, k := p.sessions[sid], q.sessions[sid], q.slots[p.sessions[sid].slot];
            && t.dispatched == s.dispatched + 1
            && (if ok || !p.slots[s.slot].ready then
                  && Live(q, sid) && q.live == p.live && t.pending == s.pending + [s.dispatched] && t.done == s.done
                  && k.session == Some(sid) && Job(sid, s.dispatched) in Sends(k.toWorker) + k.queued
                else
                  && q.live == p.live - {id} && id in q.failures && k.failed
                  && t.pending == [] && |t.done| == t.dispatched
                  && t.done[s.dispatched] == Settlement(s.dispatched, Unanswered))
  {
    RunStep(es, EvDispatch(id, ok, deferred));
    var p := Run(es);
    if ok || !p.slots[p.sessions[p.live[id]].slot].ready {
      DispatchJoins(p, id, ok, deferred);
    } else {
      DispatchFails(p, id, deferred);
    }
  }

  lemma {:induction false} DispatchJoins(p: Pool, id: int, ok: bool, deferred: bool)
    requires Inv(p) && id in p.live && (ok || !p.slots[p.sessions[p.live[id]].slot].ready)
    ensures var q, sid := DispatchJob(p, id, ok, deferred), p.live[id];
            && OthersSame(p, q, sid) &&
            var s, t, k := p.sessions[sid], q.sessions[sid], q.slots[p.sessions[sid].slot];
            && t.dispatched == s.dispatched + 1
            && Live(q, sid) && q.live == p.live && t.pending == s.pending + [s.dispatched] && t.done == s.done
            && k.session == Some(sid) && Job(sid, s.dispatched) in Sends(k.toWorker) + k.queued
  {
    var sid := p.live[id];
    var i, job := p.sessions[sid].slot, Job(sid, p.sessions[sid].dispatched);
    assert Serves(p, i, sid);
    SendsAppend(p.slots[i].toWorker, Dispatch(job));
  }

  lemma {:induction false} DispatchFails(p: Pool, id: int, deferred: bool)
    requires Inv(p) && id in p.live && p.slots[p.sessions[p.live[id]].slot].ready
    ensures var q := DispatchJob(p, id, false, deferred);
            var sid := p.live[id];
            && OthersSame(p, q, sid) &&
            var s, t := p.sessions[sid], q.sessions[sid];
            && t.dispatched == s.dispatched + 1
            && q.live == p.live - {id} && id in q.failures && q.slots[s.slot].failed
            && t.pending == [] && |t.done| == t.dispatched && t.done[s.dispatched] == Settlement(s.dispatched, Unanswered)
  {
    var sid := p.live[id];
    assert Serves(p, p.sessions[sid].slot, sid) && HistoryOk(sid, p.sessions[sid]);
    assert Linked(Owe(p, sid));
  }

  /** Ending a session takes its handle and its failure away and resolves everything it owed with the empty
  string.  Its worker is kept for the next session if it is ready, at rest and has nothing in flight;
  otherwise the slot retires: before it is ready it is marked to stop at boot, with work in flight it is
  stopped at once, and else its worker is asked to close. */
  lemma {:induction false} TerminateEnds(es: seq<Event>, id: int, ok: bool, deferred: bool)
    requires id in Run(es).live
    ensures var p, q := Run(es), Run(es + [EvTerminate(id, ok, deferred)]);
            var sid := p.live[id];
            && OthersSame(p, q, sid) &&
            var s, t, k := p.sessions[sid], q.sessions[sid], p.slots[p.sessions[sid].slot];
            var k' := q.slots[s.slot];
            && q.live == p.live - {id} && q.failures == p.failures - {id}
            && Quiet(s, t) && t.pending == [] && |t.done| == s.dispatched && k'.session.None?
            && (if k.hasWorker && k.ready && k.idle && s.inflight == 0 && |p.idle| < IDLE_MAX then
                  q.idle == p.idle + [s.slot] && k' == k.(session := None)
                else
                  && q.idle == p.idle && k'.retired
                  && (if !k.ready then k'.terminateWhenReady && k'.killed == Running
                      else if s.inflight != 0 then k'.killed != Running && k'.toWorker == k.toWorker
                      else if ok then k'.toWorker == k.toWorker + [Term] && Closing(k') && k'.killed == Running
                      else k'.failed))
  {
    RunStep(es, EvTerminate(id, ok, deferred));
    var p := Run(es);
    TerminateShape(p, id, ok, deferred);
    RetiredShape(p, id, ok, deferred);
    TerminateQuiet(p, id, ok, deferred);
  }

  lemma {:induction false} WithoutAbsent(s: seq<nat>, x: nat)
    requires x !in s
    ensures Without(s, x) == s
  {
    if s != [] {
      WithoutAbsent(s[1..], x);
    }
  }

  lemma {:induction false} TerminateShape(p: Pool, id: int, ok: bool, deferred: bool)
    requires Inv(p) && id in p.live
    ensures var q, sid := Terminate(p, id, ok, deferred), p.live[id];
            && OthersSame(p, q, sid) && q.live == p.live - {id} && q.failures == p.failures - {id}
            && q.sessions[sid].pending == [] && |q.sessions[sid].done| == p.sessions[sid].dispatched
            && Serves(p, p.sessions[sid].slot, sid) && q.slots[p.sessions[sid].slot].session.None?
  {
    var sid := p.live[id];
    assert Serves(p, p.sessions[sid].slot, sid) && HistoryOk(sid, p.sessions[sid]);
  }

  lemma {:induction false} RetiredShape(p: Pool, id: int, ok: bool, deferred: bool)
    requires Inv(p) && id in p.live
    ensures var q, s := Terminate(p, id, ok, deferred), p.sessions[p.live[id]];
            |q.slots| == |p.slots| &&
            var k, k' := p.slots[s.slot], q.slots[s.slot];
            if k.hasWorker && k.ready && k.idle && s.inflight == 0 && |p.idle| < IDLE_MAX then
              q.idle == p.idle + [s.slot] && k' == k.(session := None)
            else
              && q.idle == p.idle && k'.retired
              && (if !k.ready then k'.terminateWhenReady && k'.killed == Running
                  else if s.inflight != 0 then k'.killed != Running && k'.toWorker == k.toWorker
                  else if ok then k'.toWorker == k.toWorker + [Term] && Closing(k') && k'.killed == Running
                  else k'.failed)
  {
    var sid := p.live[id];
    var i := p.sessions[sid].slot;
    assert Serves(p, i, sid);
    WithoutAbsent(p.idle, i);
    assert SlotOk(p.slots[i], Owed(p, i)) && StopOk(p.slots[i]);
  }

  /** `q` has one more session: it is registered under its handle, on the slot that became idle last, or on a
  new slot if none is idle.  Its worker has been told to start or to reset itself, or will be created later;
  if it cannot be created or told, the session has failed and its failure is recorded. */
  ghost predicate Opened(p: Pool, q: Pool, id: int, oneShot: bool, how: Start, ok: bool) {
    var sid := |p.sessions|;
    var i := if p.idle == [] then |p.slots| else p.idle[|p.idle| - 1];
    && q.sessions == p.sessions + [Session(i, oneShot, id, [], 0, 0, [])]
    && |q.slots| == (if p.idle == [] then |p.slots| + 1 else |p.slots|)
    && q.idle == (if p.idle == [] then [] else p.idle[..|p.idle| - 1])
    && i < |q.slots| && (q.slots[i].failed || q.slots[i].killed == Running)
    && (if p.idle == [] && how.Later? then Serves(q, i, sid) && !q.slots[i].hasWorker && q.slots[i].bootTimer
        else if ok && (p.idle != [] || how.Now?) then
          && Serves(q, i, sid) && q.slots[i].hasWorker
          && q.slots[i].toWorker == (if i < |p.slots| then p.slots[i].toWorker + [Reset] else [Init])
        else q.live == p.live && id in q.failures && q.slots[i].failed)
  }

  /** A session that fails before it was given any work. */
  lemma {:induction false} NewestFails(p: Pool, q: Pool, i: nat, id: int, deferred: bool)
    requires Linked(q) && i < |q.slots| && !q.slots[i].failed && !q.slots[i].retired
    requires q.sessions != [] && q.slots[i].session == Some(|q.sessions| - 1)
    requires var s := q.sessions[|q.sessions| - 1]; s.id == id && s.pending == [] && s.done == []
    requires id !in p.live && q.live == p.live[id := |q.sessions| - 1] && i !in q.idle
    ensures var r := FailSlot(q, i, deferred);
            && r.sessions == q.sessions && r.live == p.live && r.idle == q.idle && id in r.failures
            && |r.slots| == |q.slots| && r.slots[i].failed
  {
    var s := q.sessions[|q.sessions| - 1];
    assert Unresolved([]) == [] && Abandon(s) == s;
    assert q.sessions[|q.sessions| - 1 := s] == q.sessions;
    assert q.live - {id} == p.live;
    WithoutAbsent(q.idle, i);
  }

  lemma {:induction false} SpawnFresh(p: Pool, id: int, oneShot: bool, how: Start, ok: bool, deferred: bool)
    requires Inv(p) && id > 0 && SessionTable.IsI32(id) && id !in p.live && p.idle == []
    ensures Opened(p, Spawn(p, id, oneShot, how, ok, deferred), id, oneShot, how, ok)
  {
    var i := |p.slots|;
    var q := Attach(p, id, oneShot, i);
    assert Linked(q);
    if how.Throws? {
      NewestFails(p, q, i, id, deferred);
    } else if how.Now? && !ok {
      NewestFails(p, q.(slots := q.slots[i := q.slots[i].(hasWorker := true)]), i, id, deferred);
    }
  }

  lemma {:induction false} SpawnReuses(p: Pool, id: int, oneShot: bool, how: Start, ok: bool, deferred: bool)
    requires Inv(p) && id > 0 && SessionTable.IsI32(id) && id !in p.live && p.idle != []
    ensures Opened(p, Spawn(p, id, oneShot, how, ok, deferred), id, oneShot, how, ok)
  {
    var last := |p.idle| - 1;
    var i := p.idle[last];
    assert i in p.idle && forall j :: j in p.idle[..last] ==> j in p.idle;
    LeavesIdle(p.idle, p.idle[..last], i);
    ReusedOpens(p, p.(idle := p.idle[..last]), id, oneShot, i, how, ok, deferred);
  }

  lemma {:induction false} ReusedOpens(p: Pool, p0: Pool, id: int, oneShot: bool, i: nat, how: Start, ok: bool, deferred: bool)
    requires Inv(p) && id > 0 && SessionTable.IsI32(id) && id !in p.live && i in p.idle && i !in p0.idle
    requires p0 == p.(idle := p0.idle) && p.idle == p0.idle + [i] && Linked(p0)
    ensures Linked(Attach(p0, id, oneShot, i)) && |Attach(p0, id, oneShot, i).slots| == |p.slots|
    ensures Opened(p, Send(Attach(p0, id, oneShot, i), i, Reset, ok, deferred), id, oneShot, how, ok)
  {
    var q := ReuseShape(p, p0, id, oneShot, i);
    NewestIsTold(p, q, i, id, Reset, ok, deferred);
  }

  /** The worker of a session that was just opened is told `m`, or the session fails. */
  lemma {:induction false} NewestIsTold(p: Pool, q: Pool, i: nat, id: int, m: ToWorker, ok: bool, deferred: bool)
    requires Linked(q) && q.sessions != [] && Serves(q, i, |q.sessions| - 1)
    requires var s := q.sessions[|q.sessions| - 1]; s.id == id && s.pending == [] && s.done == []
    requires id !in p.live && q.live == p.live[id := |q.sessions| - 1] && i !in q.idle && q.slots[i].killed == Running
    ensures var r := Send(q, i, m, ok, deferred);
            && r.sessions == q.sessions && r.idle == q.idle && |r.slots| == |q.slots|
            && (r.slots[i].failed || r.slots[i].killed == Running)
            && (if ok then
                  && Serves(r, i, |q.sessions| - 1) && r.slots[i].hasWorker == q.slots[i].hasWorker
                  && r.slots[i].toWorker == q.slots[i].toWorker + [m]
                else r.live == p.live && id in r.failures && r.slots[i].failed)
  {
    if !ok {
      NewestFails(p, q, i, id, deferred);
    }
  }

  lemma {:induction false} ReuseShape(p: Pool, p0: Pool, id: int, oneShot: bool, i: nat) returns (q: Pool)
    requires Inv(p) && id > 0 && SessionTable.IsI32(id) && id !in p.live && i in p.idle
    requires p0 == p.(idle := p0.idle) && Linked(p0)
    ensures q == Attach(p0, id, oneShot, i) && Linked(q) && |q.slots| == |p.slots| && q.idle == p0.idle
    ensures q.sessions == p.sessions + [Session(i, oneShot, id, [], 0, 0, [])] && q.live == p.live[id := |p.sessions|]
    ensures Serves(q, i, |p.sessions|) && q.slots[i].killed == Running && q.slots[i].hasWorker
    ensures q.slots[i].toWorker == p.slots[i].toWorker
  {
    assert SlotOk(p.slots[i], Owed(p, i));
    q := Attach(p0, id, oneShot, i);
  }

  /** In every run a spawn opens a session as described, and fails only if its worker cannot be told. */
  lemma {:induction false} SpawnServes(es: seq<Event>, id: int, oneShot: bool, how: Start, ok: bool, deferred: bool)
    requires id > 0 && SessionTable.IsI32(id) && id !in Run(es).live
    ensures Opened(Run(es), Run(es + [EvSpawn(id, oneShot, how, ok, deferred)]), id, oneShot, how, ok)
  {
    RunStep(es, EvSpawn(id, oneShot, how, ok, deferred));
    var p := Run(es);
    if p.idle == [] {
      SpawnFresh(p, id, oneShot, how, ok, deferred);
    } else {
      SpawnReuses(p, id, oneShot, how, ok, deferred);
    }
  }

  // ----- Messages and faults -----

  /** A crash, an error report, a time-out or a job that cannot be posted at boot fails the slot. */
  predicate GoesWrong(p: Pool, i: nat, e: Event) {
    && i < |p.slots| && !p.slots[i].failed && e.EvSlot? && e.slot == i
    && match e.what
       case Fault => true
       case Created(how, ok) => !p.slots[i].hasWorker && (how.Throws? || (how.Now? && !ok))
       case Deliver(accepts, _) =>
         && p.slots[i].toMain != []
         && (|| p.slots[i].toMain[0].Error?
             || (p.slots[i].toMain[0].Ready? && !p.slots[i].terminateWhenReady && accepts < |p.slots[i].queued|))
       case _ => false
  }

  /** Slot `i` has failed: its worker is stopped or stopping, and its session has ended, with its failure on
  record and everything it owed resolved with the empty string. */
  ghost predicate Ended(p: Pool, q: Pool, i: nat)
    requires Linked(p) && i < |p.slots|
  {
    && |q.slots| == |p.slots| && q.slots[i].failed && q.slots[i].killed != Running && q.slots[i].session.None?
    && (p.slots[i].session.Some? ==>
          var sid := p.slots[i].session.value;
          && OthersSame(p, q, sid) && Quiet(p.sessions[sid], q.sessions[sid])
          && p.sessions[sid].id !in q.live && p.sessions[sid].id in q.failures
          && q.sessions[sid].pending == [] && |q.sessions[sid].done| == p.sessions[sid].dispatched)
  }

  /** In every run a slot to which something goes wrong fails, and its session with it. */
  lemma {:induction false} FaultsFail(es: seq<Event>, i: nat, e: Event)
    requires GoesWrong(Run(es), i, e)
    ensures Ended(Run(es), Run(es + [e]), i)
  {
    RunStep(es, e);
    var p := Run(es);
    if e.what.Fault? {
      FailEnds(p, i, e.deferred);
    } else if e.what.Created? {
      CreateFails(p, i, e.what.how, e.what.ok, e.deferred);
    } else if p.slots[i].toMain[0].Error? {
      PopOk(p, i);
      FailEnds(Pop(p, i), i, e.deferred);
    } else {
      ReadyFails(p, i, e.what.accepts, e.deferred);
    }
  }

  lemma {:induction false} FailEnds(p: Pool, i: nat, deferred: bool)
    requires Core(p) && i < |p.slots| && !p.slots[i].failed
    ensures Ended(p, FailSlot(p, i, deferred), i)
  {
    if p.slots[i].session.Some? {
      var sid := p.slots[i].session.value;
      assert Serves(p, i, sid) && HistoryOk(sid, p.sessions[sid]);
    }
  }

  lemma {:induction false} CreateFails(p: Pool, i: nat, how: Start, ok: bool, deferred: bool)
    requires Inv(p) && i < |p.slots| && !p.slots[i].failed && !p.slots[i].hasWorker && (how.Throws? || (how.Now? && !ok))
    ensures Ended(p, Launch(p, i, how, ok, deferred), i)
  {
    if how.Throws? {
      FailEnds(p, i, deferred);
    } else {
      assert SlotOk(p.slots[i], Owed(p, i)) && StopOk(p.slots[i]);
      SlotUpdateOk(p, i, p.slots[i].(hasWorker := true));
      FailEnds(p.(slots := p.slots[i := p.slots[i].(hasWorker := true)]), i, deferred);
    }
  }

  lemma {:induction false} ReadyFails(p: Pool, i: nat, accepts: nat, deferred: bool)
    requires Inv(p) && i < |p.slots| && !p.slots[i].failed && p.slots[i].toMain != [] && p.slots[i].toMain[0].Ready?
    requires !p.slots[i].terminateWhenReady && accepts < |p.slots[i].queued|
    ensures Linked(Pop(p, i)) && Ended(p, OnReady(Pop(p, i), i, p.slots[i].toMain[0].stack, accepts, deferred), i)
  {
    var k, p0 := p.slots[i], Pop(p, i);
    assert SlotOk(k, Owed(p, i)) && StopOk(k);
    PopOk(p, i);
    ReadySlot(k, Owed(p, i), k.toMain[0].stack);
    var r := p0.slots[i].(ready := true, stack := k.toMain[0].stack, bootTimer := false);
    var f := r.(queued := [], toWorker := r.toWorker + Dispatches(r.queued[..accepts]));
    assert p0.slots[i := r][i := f] == p0.slots[i := f];
    assert i !in p.idle;
    SlotUpdateOk(p0, i, f);
    FailEnds(p0.(slots := p0.slots[i := f]), i, deferred);
  }

  /** What the oldest message of slot `k` makes of it: after a reply, it is known whether host calls were left
  running; after `ready`, its stack is taken over and the queued jobs go to the worker in order, or it stops
  if it was retired; after `closed` it stops. */
  predicate Taken(k: Slot, t: Slot, accepts: nat)
    requires k.toMain != []
  {
    var m := k.toMain[0];
    && t.toMain == k.toMain[1..]
    && (m.Reply? ==> t.idle == m.idle)
    && (m.Ready? ==> t.ready && !t.bootTimer && t.queued == [])
    && (m.Ready? && !k.retired && accepts >= |k.queued| ==>
          !t.failed && t.session == k.session && t.toWorker == Dispatches(k.queued) && t.stack == m.stack)
    && (m.Ready? && k.retired ==> t.killed != Running && t.toWorker == [])
    && (m.Closed? && k.retired ==> t.killed != Running)
  }

  lemma {:induction false} MessagesAreTaken(es: seq<Event>, i: nat, accepts: nat, ok: bool, deferred: bool)
    requires i < |Run(es).slots| && !Run(es).slots[i].failed && Run(es).slots[i].toMain != []
    ensures |Run(es + [EvSlot(i, Deliver(accepts, ok), deferred)]).slots| == |Run(es).slots|
    ensures Taken(Run(es).slots[i], Run(es + [EvSlot(i, Deliver(accepts, ok), deferred)]).slots[i], accepts)
  {
    RunStep(es, EvSlot(i, Deliver(accepts, ok), deferred));
    MessageIsTaken(Run(es), i, accepts, ok, deferred);
  }

  lemma {:induction false} MessageIsTaken(p: Pool, i: nat, accepts: nat, ok: bool, deferred: bool)
    requires Inv(p) && i < |p.slots| && !p.slots[i].failed && p.slots[i].toMain != []
    ensures var q := SlotStep(p, i, Deliver(accepts, ok), deferred);
            |q.slots| == |p.slots| && Taken(p.slots[i], q.slots[i], accepts)
  {
    PopOk(p, i);
    match p.slots[i].toMain[0]
    case Ready(_) => ReadyIsTaken(p, i, accepts, deferred);
    case Reply(_, _) => ReplyIsTaken(p, i, accepts, ok, deferred);
    case Closed => ClosedIsTaken(p, i, accepts, deferred);
    case Error =>
  }

  lemma {:induction false} ReadyIsTaken(p: Pool, i: nat, accepts: nat, deferred: bool)
    requires Inv(p) && i < |p.slots| && !p.slots[i].failed && p.slots[i].toMain != [] && p.slots[i].toMain[0].Ready?
    ensures Linked(Pop(p, i))
    ensures var q := OnReady(Pop(p, i), i, p.slots[i].toMain[0].stack, accepts, deferred);
            |q.slots| == |p.slots| && Taken(p.slots[i], q.slots[i], accepts)
  {
    var k := p.slots[i];
    PopOk(p, i);
    assert SlotOk(k, Owed(p, i)) && StopOk(k);
    ReadySlot(k, Owed(p, i), k.toMain[0].stack);
    assert k.toWorker + Dispatches(k.queued) == Dispatches(k.queued);
  }

  lemma {:induction false} ClosedIsTaken(p: Pool, i: nat, accepts: nat, deferred: bool)
    requires Inv(p) && i < |p.slots| && !p.slots[i].failed && p.slots[i].toMain != [] && p.slots[i].toMain[0].Closed?
    ensures var q := OnClosed(Pop(p, i), i, deferred);
            |q.slots| == |p.slots| && Taken(p.slots[i], q.slots[i], accepts)
  {
    assert SlotOk(p.slots[i], Owed(p, i)) && StopOk(p.slots[i]);
  }

  lemma {:induction false} ReplyIsTaken(p: Pool, i: nat, accepts: nat, ok: bool, deferred: bool)
    requires Inv(p) && i < |p.slots| && !p.slots[i].failed && p.slots[i].toMain != [] && p.slots[i].toMain[0].Reply?
    ensures Linked(Pop(p, i))
    ensures var q := OnReply(Pop(p, i), i, p.slots[i].toMain[0].job, p.slots[i].toMain[0].idle, ok, deferred);
            |q.slots| == |p.slots| && Taken(p.slots[i], q.slots[i], accepts)
  {
    var m := p.slots[i].toMain[0];
    PopOk(p, i);
    if p.slots[i].session.Some? {
      ReplyMatches(p, i);
      ReplySettles(p, i, m.idle);
      TerminateKeeps(Receive(Pop(p, i), i, m.job, m.idle), p.sessions[p.slots[i].session.value].id, ok, deferred, i);
    }
  }

  lemma {:induction false} TerminateKeeps(p: Pool, id: int, ok: bool, deferred: bool, i: nat)
    requires Linked(p) && i < |p.slots|
    ensures var q := Terminate(p, id, ok, deferred);
            |q.slots| == |p.slots| && q.slots[i].toMain == p.slots[i].toMain && q.slots[i].idle == p.slots[i].idle
  {
  }
}
