/** How slots and failures age: a stopped worker stays stopped, no guest stack is lost on the way, and a
failure stays on record until the guest ends the session. */
module WorkerPoolLifecycle {
  import opened Containers
  import opened WorkerPool
  import opened WorkerPoolProofs

  // ----- Slots -----

  /** `k` may turn into `t`: nothing that has ended starts again, and a stack is held until it is freed.
  While the platform answers `terminate` with a promise (`deferred`), no worker counts as stopped. */
  predicate Ages(k: Slot, t: Slot, deferred: bool) {
    && (k.hasWorker ==> t.hasWorker)
    && (deferred && k.hasWorker && t.killed == Stopped ==> k.killed == Stopped)
    && (k.failed ==> t.failed) && (k.retired ==> t.retired) && (k.ready ==> t.ready)
    && (k.killed != Running ==> t.killed != Running) && (k.killed == Stopped ==> t.killed == Stopped)
    && (k.ready ==>
          || (t.stack == k.stack && t.freed == k.freed)
          || (t.stack == 0 && t.killed == Stopped && t.freed == k.freed + if k.stack != 0 then 1 else 0))
  }

  ghost predicate PoolAges(p: Pool, q: Pool, deferred: bool) {
    && |p.slots| <= |q.slots|
    && forall i {:trigger p.slots[i]} {:trigger q.slots[i]} :: 0 <= i < |p.slots| ==> Ages(p.slots[i], q.slots[i], deferred)
  }

  lemma {:induction false} AgesTrans(p: Pool, q: Pool, r: Pool, deferred: bool)
    requires PoolAges(p, q, deferred) && PoolAges(q, r, deferred)
    ensures PoolAges(p, r, deferred)
  {
    forall i | 0 <= i < |p.slots| ensures Ages(p.slots[i], r.slots[i], deferred) {
      assert Ages(p.slots[i], q.slots[i], deferred) && Ages(q.slots[i], r.slots[i], deferred);
    }
  }

  lemma {:induction false} KilledAges(k: Slot, t: Slot, deferred: bool)
    requires Ages(k, t, deferred)
    ensures Ages(k, KillSlot(t, deferred), deferred)
  {
  }

  lemma {:induction false} FailAges(p: Pool, i: nat, deferred: bool)
    requires Linked(p) && i < |p.slots|
    ensures PoolAges(p, FailSlot(p, i, deferred), deferred)
  {
    var k := p.slots[i];
    KilledAges(k, k.(failed := true, bootTimer := false, queued := [], terminateWhenReady := false,
                     closed := false, session := None), deferred);
  }

  /** Only slot `i` changes. */
  lemma {:induction false} OneAges(p: Pool, q: Pool, i: nat, k: Slot, deferred: bool)
    requires i < |p.slots| && q.slots == p.slots[i := k] && Ages(p.slots[i], k, deferred)
    ensures PoolAges(p, q, deferred)
  {
  }

  lemma {:induction false} SendAges(p: Pool, i: nat, m: ToWorker, ok: bool, deferred: bool)
    requires Linked(p) && i < |p.slots|
    ensures PoolAges(p, Send(p, i, m, ok, deferred), deferred)
  {
    FailAges(p, i, deferred);
  }

  lemma {:induction false} DispatchAges(p: Pool, id: int, ok: bool, deferred: bool)
    requires Linked(p)
    ensures PoolAges(p, DispatchJob(p, id, ok, deferred), deferred)
  {
    if id in p.live {
      var sid := p.live[id];
      assert Linked(Owe(p, sid)) && Owe(p, sid).slots == p.slots;
      SendAges(Owe(p, sid), p.sessions[sid].slot, Dispatch(Job(sid, p.sessions[sid].dispatched)), ok, deferred);
    }
  }

  lemma {:induction false} RetireAges(p: Pool, i: nat, inflight: int, ok: bool, deferred: bool)
    requires Linked(p) && i < |p.slots|
    ensures PoolAges(p, Retire(p, i, inflight, ok, deferred), deferred)
  {
    var k := p.slots[i].(session := None, retired := true, finish := true);
    if !k.ready {
      OneAges(p, Retire(p, i, inflight, ok, deferred), i, k.(terminateWhenReady := true), deferred);
    } else if inflight == 0 {
      var p1 := p.(slots := p.slots[i := k.(closed := true)]);
      OneAges(p, p1, i, k.(closed := true), deferred);
      SendAges(p1, i, Term, ok, deferred);
      AgesTrans(p, p1, Send(p1, i, Term, ok, deferred), deferred);
    } else {
      KilledAges(p.slots[i], k, deferred);
      OneAges(p, Retire(p, i, inflight, ok, deferred), i, KillSlot(k, deferred), deferred);
    }
  }

  lemma {:induction false} TerminateAges(p: Pool, id: int, ok: bool, deferred: bool)
    requires Linked(p)
    ensures PoolAges(p, Terminate(p, id, ok, deferred), deferred)
  {
    if id in p.live {
      var sid := p.live[id];
      var s := p.sessions[sid];
      var p1 := p.(failures := p.failures - {id}, live := p.live - {id}, sessions := p.sessions[sid := Abandon(s)]);
      if !p.slots[s.slot].failed && !Reusable(p, p.slots[s.slot], s) {
        RetireAges(p1, s.slot, s.inflight, ok, deferred);
      }
    }
  }

  lemma {:induction false} LaunchAges(p: Pool, i: nat, how: Start, ok: bool, deferred: bool)
    requires Linked(p) && i < |p.slots|
    ensures PoolAges(p, Launch(p, i, how, ok, deferred), deferred)
  {
    FailAges(p, i, deferred);
    var p1 := p.(slots := p.slots[i := p.slots[i].(hasWorker := true)]);
    SendAges(p1, i, Init, ok, deferred);
    AgesTrans(p, p1, Send(p1, i, Init, ok, deferred), deferred);
  }

  lemma {:induction false} AttachAges(p: Pool, id: int, oneShot: bool, i: nat, deferred: bool)
    requires Linked(p) && SessionTable.IsI32(id) && i <= |p.slots|
    ensures PoolAges(p, Attach(p, id, oneShot, i), deferred) && Linked(Attach(p, id, oneShot, i))
  {
    AttachQuiet(p, id, oneShot, i);
  }

  lemma {:induction false} SpawnAges(p: Pool, id: int, oneShot: bool, how: Start, ok: bool, deferred: bool)
    requires Inv(p) && id > 0 && SessionTable.IsI32(id) && id !in p.live
    ensures PoolAges(p, Spawn(p, id, oneShot, how, ok, deferred), deferred)
  {
    if p.idle == [] {
      var q := Attach(p, id, oneShot, |p.slots|);
      AttachAges(p, id, oneShot, |p.slots|, deferred);
      LaunchAges(q, |p.slots|, how, ok, deferred);
      AgesTrans(p, q, Launch(q, |p.slots|, how, ok, deferred), deferred);
    } else {
      var last := |p.idle| - 1;
      assert p.idle[last] in p.idle && forall i :: i in p.idle[..last] ==> i in p.idle;
      var p0 := p.(idle := p.idle[..last]);
      var q := Attach(p0, id, oneShot, p.idle[last]);
      AttachAges(p0, id, oneShot, p.idle[last], deferred);
      SendAges(q, p.idle[last], Reset, ok, deferred);
      AgesTrans(p, q, Send(q, p.idle[last], Reset, ok, deferred), deferred);
    }
  }

  lemma {:induction false} ReadyAges(p: Pool, i: nat, stack: nat, accepts: nat, deferred: bool)
    requires Linked(p) && i < |p.slots| && !p.slots[i].ready
    ensures PoolAges(p, OnReady(p, i, stack, accepts, deferred), deferred)
  {
    var k := p.slots[i].(ready := true, stack := stack, bootTimer := false);
    if !k.terminateWhenReady {
      var sent := if accepts >= |k.queued| then k.queued else k.queued[..accepts];
      var p1 := p.(slots := p.slots[i := k.(queued := [], toWorker := k.toWorker + Dispatches(sent))]);
      assert p.slots[i := k][i := p1.slots[i]] == p1.slots;
      FailAges(p1, i, deferred);
      AgesTrans(p, p1, FailSlot(p1, i, deferred), deferred);
    }
  }

  lemma {:induction false} ReplyAges(p: Pool, i: nat, job: Job, idle: bool, ok: bool, deferred: bool)
    requires Linked(p) && i < |p.slots|
    ensures PoolAges(p, OnReply(p, i, job, idle, ok, deferred), deferred)
  {
    if p.slots[i].session.Some? {
      var p1 := Receive(p, i, job, idle);
      assert PoolAges(p, p1, deferred) && Linked(p1);
      var id := p.sessions[p.slots[i].session.value].id;
      TerminateAges(p1, id, ok, deferred);
      AgesTrans(p, p1, Terminate(p1, id, ok, deferred), deferred);
    }
  }

  lemma {:induction false} DeliverAges(p: Pool, i: nat, accepts: nat, ok: bool, deferred: bool)
    requires Inv(p) && i < |p.slots| && p.slots[i].toMain != []
    ensures PoolAges(p, SlotStep(p, i, Deliver(accepts, ok), deferred), deferred)
  {
    var p0, m := Pop(p, i), p.slots[i].toMain[0];
    PopOk(p, i);
    assert PoolAges(p, p0, deferred);
    assert SlotOk(p.slots[i], Owed(p, i));
    if !p.slots[i].failed {
      match m
      case Ready(stack) => ReadyAges(p0, i, stack, accepts, deferred);
      case Reply(job, idle) => ReplyAges(p0, i, job, idle, ok, deferred);
      case Error => FailAges(p0, i, deferred);
      case Closed =>
    }
    AgesTrans(p, p0, SlotStep(p, i, Deliver(accepts, ok), deferred), deferred);
  }

  lemma {:induction false} StopAges(p: Pool, i: nat)
    requires Linked(p) && i < |p.slots| && p.slots[i].killed == Stopping
    ensures PoolAges(p, p.(slots := p.slots[i := ReleaseStack(p.slots[i].(killed := Stopped))]), false)
  {
  }

  lemma {:induction false} SlotStepAges(p: Pool, i: nat, what: SlotEvent, deferred: bool)
    requires Inv(p) && i < |p.slots|
    ensures PoolAges(p, SlotStep(p, i, what, deferred), deferred && !what.StopDone?)
  {
    match what
    case Created(how, ok) =>
      if !p.slots[i].hasWorker && !p.slots[i].failed {
        LaunchAges(p, i, how, ok, deferred);
      }
    case Deliver(accepts, ok) =>
      if p.slots[i].toMain != [] {
        DeliverAges(p, i, accepts, ok, deferred);
      }
    case Fault => FailAges(p, i, deferred);
    case StopDone =>
      if p.slots[i].killed == Stopping {
        StopAges(p, i);
      }
    case _ =>
  }

  /** The platform answers `terminate` with a promise, and no such promise settles. */
  predicate Deferred(e: Event) {
    e.deferred && !(e.EvSlot? && e.what.StopDone?)
  }

  lemma {:induction false} StepAges(p: Pool, e: Event)
    requires Inv(p)
    ensures PoolAges(p, Step(p, e), Deferred(e))
  {
    match e
    case EvSpawn(id, oneShot, how, ok, deferred) =>
      if id > 0 && SessionTable.IsI32(id) && id !in p.live {
        SpawnAges(p, id, oneShot, how, ok, deferred);
      }
    case EvDispatch(id, ok, deferred) => DispatchAges(p, id, ok, deferred);
    case EvTerminate(id, ok, deferred) => TerminateAges(p, id, ok, deferred);
    case EvSlot(i, what, deferred) =>
      if i < |p.slots| {
        SlotStepAges(p, i, what, deferred);
      }
  }

  /** In every continuation of every run a slot that has failed, retired, stopped or begun to stop stays so,
  and the stack of a slot that is ready is held, or was freed once when its worker had stopped. */
  lemma {:induction false} SlotsOnlyAge(es: seq<Event>, more: seq<Event>)
    ensures PoolAges(Run(es), Run(es + more), false)
    decreases |more|
  {
    if more == [] {
      assert es + more == es;
    } else {
      var n := |more| - 1;
      SlotsOnlyAge(es, more[..n]);
      RunOk(es + more[..n]);
      AgesAnyway(Run(es + more[..n]), more[n]);
      RunSnoc(es, more);
      AgesTrans(Run(es), Run(es + more[..n]), Run(es + more), false);
    }
  }

  lemma {:induction false} AgesAnyway(p: Pool, e: Event)
    requires Inv(p)
    ensures PoolAges(p, Step(p, e), false)
  {
    var q := Step(p, e);
    StepAges(p, e);
    forall i | 0 <= i < |p.slots|
      ensures Ages(p.slots[i], q.slots[i], false)
    {
      assert Ages(p.slots[i], q.slots[i], Deferred(e));
    }
  }

  /** In every run a worker whose termination is a promise does not count as stopped, and keeps its stack,
  until that promise settles. */
  lemma {:induction false} StopsAreAwaited(es: seq<Event>, e: Event, i: nat)
    requires i < |Run(es).slots| && Run(es).slots[i].hasWorker && Run(es).slots[i].killed != Stopped && Deferred(e)
    ensures i < |Run(es + [e]).slots| && Run(es + [e]).slots[i].killed != Stopped
    ensures Run(es).slots[i].ready ==> Run(es + [e]).slots[i].stack == Run(es).slots[i].stack
  {
    RunStep(es, e);
    StepAges(Run(es), e);
    assert Ages(Run(es).slots[i], Run(es + [e]).slots[i], true);
  }

  /** A worker's stack is taken over when it reports ready; from then on it is either held or, once the worker
  has stopped, freed, and freed once. */
  lemma {:induction false} NoStackIsLost(es: seq<Event>, i: nat, accepts: nat, ok: bool, deferred: bool, more: seq<Event>)
    requires i < |Run(es).slots| && !Run(es).slots[i].failed && Run(es).slots[i].toMain != []
    requires Run(es).slots[i].toMain[0].Ready? && Run(es).slots[i].toMain[0].stack != 0
    ensures var q := Run(es + [EvSlot(i, Deliver(accepts, ok), deferred)] + more);
            i < |q.slots| && q.slots[i].ready &&
            var k := q.slots[i];
            if k.killed == Stopped then k.stack == 0 && k.freed == 1
            else k.stack == Run(es).slots[i].toMain[0].stack && k.freed == 0
  {
    var e := EvSlot(i, Deliver(accepts, ok), deferred);
    RunStep(es, e);
    var p := Run(es);
    assert SlotOk(p.slots[i], Owed(p, i)) && StopOk(p.slots[i]);
    ReadyTakesStack(p, i, accepts, ok, deferred);
    SlotsOnlyAge(es + [e], more);
    RunOk(es + [e] + more);
    assert Ages(Run(es + [e]).slots[i], Run(es + [e] + more).slots[i], false);
    assert StopOk(Run(es + [e] + more).slots[i]);
  }

  lemma {:induction false} ReadyTakesStack(p: Pool, i: nat, accepts: nat, ok: bool, deferred: bool)
    requires Inv(p) && i < |p.slots| && !p.slots[i].failed && !p.slots[i].ready && p.slots[i].freed == 0
    requires p.slots[i].toMain != [] && p.slots[i].toMain[0].Ready? && p.slots[i].toMain[0].stack != 0
    ensures var q := SlotStep(p, i, Deliver(accepts, ok), deferred);
            && |q.slots| == |p.slots| && q.slots[i].ready && !q.slots[i].bootTimer
            && (|| (q.slots[i].stack == p.slots[i].toMain[0].stack && q.slots[i].freed == 0)
                || (q.slots[i].stack == 0 && q.slots[i].freed == 1 && q.slots[i].killed == Stopped))
  {
    PopOk(p, i);
  }

  /** When the promise of `terminate` settles, the worker has stopped, its stack has been freed and whoever
  waits for the slot can go on. */
  lemma {:induction false} StopCompletes(es: seq<Event>, i: nat, d: bool, e: bool)
    requires i < |Run(es).slots| && Run(es).slots[i].killed == Stopping
    ensures var q := Run(es + [EvSlot(i, StopDone, d)] + [EvSlot(i, Finish, e)]);
            i < |q.slots| &&
            var k, t := Run(es).slots[i], q.slots[i];
            && t.killed == Stopped && t.stack == 0 && t.freed == k.freed + (if k.stack != 0 then 1 else 0) && !t.finish
  {
    RunStep(es, EvSlot(i, StopDone, d));
    RunStep(es + [EvSlot(i, StopDone, d)], EvSlot(i, Finish, e));
    StopThenFinish(Run(es), i, d, e);
  }

  lemma {:induction false} StopThenFinish(p: Pool, i: nat, d: bool, e: bool)
    requires Linked(p) && i < |p.slots| && p.slots[i].killed == Stopping
    ensures var p1 := Step(p, EvSlot(i, StopDone, d));
            Linked(p1) && |p1.slots| == |p.slots| &&
            var q := Step(p1, EvSlot(i, Finish, e));
            |q.slots| == |p.slots| && q.slots[i] == ReleaseStack(p.slots[i].(killed := Stopped)).(finish := false)
  {
  }

  // ----- Failures -----

  /** The only ways in which a live session can end. */
  predicate Ends(p: Pool, e: Event, id: int)
    requires Linked(p)
  {
    || (e.EvTerminate? && e.id == id)
    || (id in p.live && p.sessions[p.live[id]].oneShot && e.EvSlot? && DeliversReply(p, e.slot, e)
        && p.slots[e.slot].session == Some(p.live[id]) && !p.slots[e.slot].failed)
  }

  /** `q` has the sessions of `p`, less those whose failure it has recorded. */
  ghost predicate Records(p: Pool, q: Pool) {
    && q.live.Keys <= p.live.Keys && p.failures <= q.failures
    && p.live.Keys - q.live.Keys <= q.failures && q.failures - p.failures <= p.live.Keys - q.live.Keys
  }

  lemma {:induction false} FailRecords(p: Pool, i: nat, deferred: bool)
    requires LinksOk(p) && i < |p.slots|
    ensures Records(p, FailSlot(p, i, deferred))
  {
    if p.slots[i].session.Some? {
      assert Serves(p, i, p.slots[i].session.value);
    }
  }

  lemma {:induction false} SendRecords(p: Pool, i: nat, m: ToWorker, ok: bool, deferred: bool)
    requires LinksOk(p) && i < |p.slots|
    ensures Records(p, Send(p, i, m, ok, deferred))
  {
    FailRecords(p, i, deferred);
  }

  lemma {:induction false} DispatchRecords(p: Pool, id: int, ok: bool, deferred: bool)
    requires Inv(p)
    ensures Records(p, DispatchJob(p, id, ok, deferred))
  {
    if id in p.live {
      var sid := p.live[id];
      assert Serves(p, p.sessions[sid].slot, sid);
      OweOk(p, sid);
      SendRecords(Owe(p, sid), p.sessions[sid].slot, Dispatch(Job(sid, p.sessions[sid].dispatched)), ok, deferred);
    }
  }

  lemma {:induction false} LaunchRecords(p: Pool, i: nat, how: Start, ok: bool, deferred: bool)
    requires LinksOk(p) && i < |p.slots|
    ensures Records(p, Launch(p, i, how, ok, deferred))
  {
    FailRecords(p, i, deferred);
    var p1 := p.(slots := p.slots[i := p.slots[i].(hasWorker := true)]);
    KeepLinks(p, p1, i, |p.sessions|);
    SendRecords(p1, i, Init, ok, deferred);
  }

  lemma {:induction false} ReadyRecords(p: Pool, i: nat, accepts: nat, deferred: bool)
    requires Inv(p) && i < |p.slots| && !p.slots[i].failed && p.slots[i].toMain != [] && p.slots[i].toMain[0].Ready?
    ensures Linked(Pop(p, i)) && Records(p, OnReady(Pop(p, i), i, p.slots[i].toMain[0].stack, accepts, deferred))
  {
    PopOk(p, i);
    var p0 := Pop(p, i);
    var k := p0.slots[i].(ready := true, stack := p.slots[i].toMain[0].stack, bootTimer := false);
    if !k.terminateWhenReady && accepts < |k.queued| {
      var p1 := p0.(slots := p0.slots[i := k.(queued := [], toWorker := k.toWorker + Dispatches(k.queued[..accepts]))]);
      assert p0.slots[i := k][i := p1.slots[i]] == p1.slots;
      KeepLinks(p0, p1, i, |p.sessions|);
      FailRecords(p1, i, deferred);
    }
  }

  lemma {:induction false} TerminateRecords(p: Pool, id: int, ok: bool, deferred: bool)
    requires Inv(p)
    ensures var q := Terminate(p, id, ok, deferred);
            q.live == p.live - {id} && q.failures == p.failures - {id}
  {
    if id in p.live {
      assert Serves(p, p.sessions[p.live[id]].slot, p.live[id]);
    }
  }

  /** What an event does to the live handles and the record of failures. */
  ghost predicate Reported(p: Pool, q: Pool, e: Event)
    requires Linked(p)
  {
    && (forall id :: id in p.live && id !in q.live ==> id in q.failures || Ends(p, e, id))
    && (forall id :: id in p.failures && id !in q.failures ==> Ends(p, e, id))
    && (forall id :: id in q.failures && id !in p.failures ==> id !in q.live)
    && (forall id :: id in q.live && id !in p.live ==> e.EvSpawn? && e.id == id)
  }

  lemma {:induction false} RecordsReport(p: Pool, q: Pool, e: Event)
    requires Linked(p) && Records(p, q)
    ensures Reported(p, q, e)
  {
    forall id | id in p.live && id !in q.live
      ensures id in q.failures
    {
      assert id in p.live.Keys - q.live.Keys;
    }
    forall id | id in q.failures && id !in p.failures
      ensures id !in q.live
    {
      assert id in q.failures - p.failures;
    }
    forall id | id in q.live
      ensures id in p.live
    {
      assert id in q.live.Keys;
    }
  }

  lemma {:induction false} ReplyReported(p: Pool, i: nat, accepts: nat, ok: bool, deferred: bool)
    requires Inv(p) && i < |p.slots| && p.slots[i].toMain != [] && p.slots[i].toMain[0].Reply?
    requires p.slots[i].session.Some? && !p.slots[i].failed
    ensures Reported(p, SlotStep(p, i, Deliver(accepts, ok), deferred), EvSlot(i, Deliver(accepts, ok), deferred))
  {
    ReplyMatches(p, i);
    var m, sid := p.slots[i].toMain[0], p.slots[i].session.value;
    ReplySettles(p, i, m.idle);
    if p.sessions[sid].oneShot {
      TerminateRecords(Receive(Pop(p, i), i, m.job, m.idle), p.sessions[sid].id, ok, deferred);
    }
  }

  lemma {:induction false} DeliverReported(p: Pool, i: nat, accepts: nat, ok: bool, deferred: bool)
    requires Inv(p) && i < |p.slots| && p.slots[i].toMain != []
    ensures Reported(p, SlotStep(p, i, Deliver(accepts, ok), deferred), EvSlot(i, Deliver(accepts, ok), deferred))
  {
    var e, p0, k := EvSlot(i, Deliver(accepts, ok), deferred), Pop(p, i), p.slots[i];
    PopOk(p, i);
    if k.failed {
    } else if k.toMain[0].Ready? {
      ReadyRecords(p, i, accepts, deferred);
      RecordsReport(p, SlotStep(p, i, Deliver(accepts, ok), deferred), e);
    } else if k.toMain[0].Error? {
      FailRecords(p0, i, deferred);
      RecordsReport(p, SlotStep(p, i, Deliver(accepts, ok), deferred), e);
    } else if k.toMain[0].Reply? && k.session.Some? {
      ReplyReported(p, i, accepts, ok, deferred);
    }
  }

  lemma {:induction false} SpawnReported(p: Pool, id: int, oneShot: bool, how: Start, ok: bool, deferred: bool)
    requires Inv(p) && id > 0 && SessionTable.IsI32(id) && id !in p.live
    ensures Reported(p, Spawn(p, id, oneShot, how, ok, deferred), EvSpawn(id, oneShot, how, ok, deferred))
  {
    var e := EvSpawn(id, oneShot, how, ok, deferred);
    if p.idle == [] {
      AttachOk(p, p, id, oneShot, |p.slots|);
      var q := Attach(p, id, oneShot, |p.slots|);
      LaunchRecords(q, |p.slots|, how, ok, deferred);
      NewcomerReported(p, q, Launch(q, |p.slots|, how, ok, deferred), e);
    } else {
      ReuseReported(p, id, oneShot, how, ok, deferred);
    }
  }

  lemma {:induction false} ReuseReported(p: Pool, id: int, oneShot: bool, how: Start, ok: bool, deferred: bool)
    requires Inv(p) && id > 0 && SessionTable.IsI32(id) && id !in p.live && p.idle != []
    ensures Reported(p, Spawn(p, id, oneShot, how, ok, deferred), EvSpawn(id, oneShot, how, ok, deferred))
  {
    var last := |p.idle| - 1;
    assert p.idle[last] in p.idle && forall i :: i in p.idle[..last] ==> i in p.idle;
    var q := ReuseAttach(p, p.(idle := p.idle[..last]), id, oneShot, p.idle[last]);
    var r := Send(q, p.idle[last], Reset, ok, deferred);
    SendRecords(q, p.idle[last], Reset, ok, deferred);
    NewcomerReported(p, q, r, EvSpawn(id, oneShot, how, ok, deferred));
  }

  lemma {:induction false} ReuseAttach(p: Pool, p0: Pool, id: int, oneShot: bool, i: nat) returns (q: Pool)
    requires Inv(p) && id > 0 && SessionTable.IsI32(id) && id !in p.live
    requires p0 == p.(idle := p0.idle) && p.idle == p0.idle + [i] && i < |p.slots|
    ensures q == Attach(p0, id, oneShot, i) && LinksOk(q) && |q.slots| == |p.slots|
    ensures q.failures == p.failures && q.live.Keys == p.live.Keys + {id}
  {
    AttachOk(p, p0, id, oneShot, i);
    q := Attach(p0, id, oneShot, i);
  }

  lemma {:induction false} NewcomerReported(p: Pool, q: Pool, r: Pool, e: Event)
    requires Linked(p) && Linked(q) && Records(q, r) && e.EvSpawn? && q.failures == p.failures
    requires q.live.Keys == p.live.Keys + {e.id}
    ensures Reported(p, r, e)
  {
    RecordsReport(q, r, e);
    forall id | id in r.live && id !in p.live
      ensures id == e.id
    {
      assert id in q.live.Keys;
    }
    forall id | id in p.live
      ensures id in q.live
    {
      assert id in q.live.Keys;
    }
  }

  lemma {:induction false} StepReported(p: Pool, e: Event)
    requires Inv(p)
    ensures Reported(p, Step(p, e), e)
  {
    match e
    case EvSpawn(id, oneShot, how, ok, deferred) =>
      if id > 0 && SessionTable.IsI32(id) && id !in p.live {
        SpawnReported(p, id, oneShot, how, ok, deferred);
      }
    case EvDispatch(id, ok, deferred) =>
      DispatchRecords(p, id, ok, deferred);
      RecordsReport(p, Step(p, e), e);
    case EvTerminate(id, ok, deferred) => TerminateRecords(p, id, ok, deferred);
    case EvSlot(i, what, deferred) =>
      if i < |p.slots| {
        match what
        case Deliver(accepts, ok) =>
          if p.slots[i].toMain != [] {
            DeliverReported(p, i, accepts, ok, deferred);
          }
        case Created(how, ok) =>
          LaunchRecords(p, i, how, ok, deferred);
          RecordsReport(p, Launch(p, i, how, ok, deferred), e);
        case Fault =>
          FailRecords(p, i, deferred);
          RecordsReport(p, Step(p, e), e);
        case _ =>
      }
  }

  /** In every run a session ends because the guest ends it, because it was one-shot and has been answered, or
  because its worker failed, and only then is a failure put on record. */
  lemma {:induction false} FailuresAreReported(es: seq<Event>, e: Event)
    ensures Reported(Run(es), Run(es + [e]), e)
  {
    RunStep(es, e);
    StepReported(Run(es), e);
  }

  /** The event neither ends the session with handle `id` nor hands the handle out. */
  predicate Spares(e: Event, id: int) {
    (e.EvTerminate? ==> e.id != id) && (e.EvSpawn? ==> e.id != id)
  }

  lemma {:induction false} FailureStays(p: Pool, e: Event, id: int)
    requires Inv(p) && id in p.failures && id !in p.live && Spares(e, id)
    ensures id in Step(p, e).failures && id !in Step(p, e).live
  {
    StepReported(p, e);
  }

  /** A failure stays on record in every continuation in which the guest neither ends that session nor is
  given its handle again. */
  lemma {:induction false} FailuresLast(es: seq<Event>, more: seq<Event>, id: int)
    requires id in Run(es).failures && id !in Run(es).live
    requires forall e :: e in more ==> Spares(e, id)
    ensures id in Run(es + more).failures && id !in Run(es + more).live
    decreases |more|
  {
    if more == [] {
      assert es + more == es;
    } else {
      var n := |more| - 1;
      FailuresLast(es, more[..n], id);
      RunOk(es + more[..n]);
      RunSnoc(es, more);
      assert Spares(more[n], id);
      FailureStays(Run(es + more[..n]), more[n], id);
    }
  }
}
