/** What becomes of waiting calls and of stopped workers: an orderly worker answers every call with its own
reply after finitely many steps, failures stay on record, and no guest stack is lost. */
module WorkerPoolProgress {
  import opened Containers
  import opened WorkerPool
  import opened WorkerPoolProofs

  // ----- Orderly workers -----

  /** One step of slot `i` in which something happens and nothing goes wrong: its worker is created, does the
  next thing it was told, or has its oldest message handled. */
  predicate Works(p: Pool, i: nat, e: Event) {
    && e.EvSlot? && e.slot == i && i < |p.slots| && !p.slots[i].failed
    && match e.what
       case Created(how, ok) => !p.slots[i].hasWorker && how.Now? && ok
       case Work(throws, _, _) => p.slots[i].toWorker != [] && !throws
       case Deliver(accepts, ok) => p.slots[i].toMain != [] && accepts >= |p.slots[i].queued| && ok
       case _ => false
  }

  ghost predicate Orderly(es: seq<Event>, i: nat, more: seq<Event>) {
    forall x :: 0 <= x < |more| ==> Works(Run(es + more[..x]), i, more[x])
  }

  /** Nothing is left to do for slot `i`. */
  predicate AtRest(k: Slot) {
    k.hasWorker && k.toWorker == [] && k.toMain == []
  }

  /** How many orderly steps a slot can take. */
  function Effort(k: Slot): nat {
    3 * |k.queued| + 2 * |k.toWorker| + |k.toMain| + (if k.hasWorker then 0 else 3) + (if k.session.Some? then 3 else 0)
  }

  lemma {:induction false} KillEffort(k: Slot, deferred: bool)
    ensures Effort(KillSlot(k, deferred)) == Effort(k)
  {
  }

  lemma {:induction false} RetireEffort(p: Pool, i: nat, inflight: int, deferred: bool)
    requires Linked(p) && i < |p.slots| && p.slots[i].session.Some?
    ensures var q := Retire(p, i, inflight, true, deferred);
            |q.slots| == |p.slots| && Effort(q.slots[i]) < Effort(p.slots[i])
  {
    var k := p.slots[i].(session := None, retired := true, finish := true);
    if k.ready && inflight != 0 {
      KillEffort(k, deferred);
      assert Retire(p, i, inflight, true, deferred).slots == p.slots[i := KillSlot(k, deferred)];
    }
  }

  lemma {:induction false} TerminateEffort(p: Pool, id: int, deferred: bool, i: nat)
    requires Linked(p) && id in p.live && p.sessions[p.live[id]].slot == i && i < |p.slots| && p.slots[i].session.Some?
    ensures var q := Terminate(p, id, true, deferred);
            |q.slots| == |p.slots| && (p.slots[i].failed || Effort(q.slots[i]) < Effort(p.slots[i]))
  {
    var s := p.sessions[p.live[id]];
    if !p.slots[i].failed && !Reusable(p, p.slots[i], s) {
      RetireEffort(p.(failures := p.failures - {id}, live := p.live - {id},
                      sessions := p.sessions[p.live[id] := Abandon(s)]), i, s.inflight, deferred);
    }
  }

  lemma {:induction false} ReplyEffort(p: Pool, i: nat, m: ToMain, deferred: bool)
    requires Linked(p) && i < |p.slots| && m.Reply? && !p.slots[i].failed
    requires p.slots[i].session.Some? ==> Serves(p, i, p.slots[i].session.value)
    ensures var q := OnReply(p, i, m.job, m.idle, true, deferred);
            |q.slots| == |p.slots| && Effort(q.slots[i]) <= Effort(p.slots[i])
  {
    if p.slots[i].session.Some? {
      var sid := p.slots[i].session.value;
      var p1 := Receive(p, i, m.job, m.idle);
      assert Linked(p1);
      if p.sessions[sid].oneShot {
        TerminateEffort(p1, p.sessions[sid].id, deferred, i);
      }
    }
  }

  lemma {:induction false} ReadyEffort(p: Pool, i: nat, accepts: nat, deferred: bool)
    requires Inv(p) && i < |p.slots| && !p.slots[i].failed && accepts >= |p.slots[i].queued|
    requires p.slots[i].toMain != [] && p.slots[i].toMain[0].Ready?
    ensures var q := OnReady(Pop(p, i), i, p.slots[i].toMain[0].stack, accepts, deferred);
            |q.slots| == |p.slots| && Effort(q.slots[i]) < Effort(p.slots[i])
  {
    var k := p.slots[i];
    assert SlotOk(k, Owed(p, i)) && StopOk(k);
    ReadySlot(k, Owed(p, i), k.toMain[0].stack);
  }

  lemma {:induction false} DeliverEffort(p: Pool, i: nat, accepts: nat, deferred: bool)
    requires Inv(p) && i < |p.slots| && !p.slots[i].failed && accepts >= |p.slots[i].queued| && p.slots[i].toMain != []
    ensures var q := SlotStep(p, i, Deliver(accepts, true), deferred);
            |q.slots| == |p.slots| && Effort(q.slots[i]) < Effort(p.slots[i])
  {
    var k := p.slots[i];
    var p0 := Pop(p, i);
    PopOk(p, i);
    assert Effort(p0.slots[i]) == Effort(k) - 1;
    match k.toMain[0]
    case Ready(_) => ReadyEffort(p, i, accepts, deferred);
    case Reply(_, _) =>
      if k.session.Some? {
        ReplyMatches(p, i);
      }
      ReplyEffort(p0, i, k.toMain[0], deferred);
    case Closed =>
    case Error =>
  }

  /** An orderly step uses up effort. */
  lemma {:induction false} WorksAdvance(p: Pool, i: nat, e: Event)
    requires Inv(p) && Works(p, i, e)
    ensures var q := Step(p, e); |q.slots| == |p.slots| && Effort(q.slots[i]) < Effort(p.slots[i])
  {
    if e.what.Deliver? {
      DeliverEffort(p, i, e.what.accepts, e.deferred);
    }
  }

  /** A run in which slot `i` only takes orderly steps can take no more of them than its effort. */
  lemma {:induction false} OrderlyEnds(es: seq<Event>, i: nat, more: seq<Event>)
    requires i < |Run(es).slots| && Orderly(es, i, more)
    ensures |Run(es + more).slots| == |Run(es).slots|
    ensures |more| + Effort(Run(es + more).slots[i]) <= Effort(Run(es).slots[i])
    decreases |more|
  {
    if more == [] {
      assert es + more == es;
    } else {
      var n := |more| - 1;
      OrderlyFront(es, i, more);
      OrderlyEnds(es, i, more[..n]);
      RunOk(es + more[..n]);
      RunSnoc(es, more);
      WorksAdvance(Run(es + more[..n]), i, more[n]);
    }
  }

  lemma {:induction false} OrderlyFront(es: seq<Event>, i: nat, more: seq<Event>)
    requires more != [] && Orderly(es, i, more)
    ensures Orderly(es, i, more[..|more| - 1]) && Works(Run(es + more[..|more| - 1]), i, more[|more| - 1])
  {
    forall x | 0 <= x < |more| - 1
      ensures Works(Run(es + more[..|more| - 1][..x]), i, more[x])
    {
      assert more[..|more| - 1][..x] == more[..x];
    }
  }

  /** In every run, a slot that has not failed and has nothing left to do is ready, owes its session nothing
  and, if it was retired, has stopped or is stopping. */
  lemma {:induction false} RestMeansDone(es: seq<Event>, i: nat)
    requires i < |Run(es).slots| && !Run(es).slots[i].failed && AtRest(Run(es).slots[i])
    ensures var p := Run(es);
            var k := p.slots[i];
            && k.ready && k.queued == [] && !k.bootTimer
            && (k.session.Some? ==> p.sessions[k.session.value].pending == [])
            && (k.retired ==> k.killed != Running)
  {
    RunOk(es);
    var p := Run(es);
    var k := p.slots[i];
    assert SlotOk(k, Owed(p, i));
    assert Sends([]) == [] && Replies([]) == [];
    if k.session.Some? {
      assert Serves(p, i, k.session.value);
      assert Owed(p, i) == [];
    }
  }

  // ----- Every call is answered -----

  /** Slot `i` is in good order for session `sid`. */
  predicate Healthy(p: Pool, i: nat, sid: nat) {
    i < |p.slots| && !p.slots[i].failed && Error !in p.slots[i].toMain && p.slots[i].session == Some(sid)
  }

  /** A step other than a reply changes no session. */
  lemma {:induction false} CalmStep(p: Pool, i: nat, sid: nat, e: Event)
    requires Inv(p) && Works(p, i, e) && Healthy(p, i, sid) && !DeliversReply(p, i, e)
    ensures Step(p, e).sessions == p.sessions && Healthy(Step(p, e), i, sid)
  {
    assert Serves(p, i, sid);
    var k := p.slots[i];
    assert SlotOk(k, Owed(p, i));
    if e.what.Deliver? {
      var m := k.toMain[0];
      assert forall x :: x in k.toMain[1..] ==> x in k.toMain;
      assert m in k.toMain;
    }
  }

  /** A reply to a session that is not one-shot settles one dispatch. */
  lemma {:induction false} ReplyStep(p: Pool, i: nat, sid: nat, e: Event)
    requires Inv(p) && Works(p, i, e) && Healthy(p, i, sid) && DeliversReply(p, i, e)
    requires sid < |p.sessions| && !p.sessions[sid].oneShot
    ensures var q := Step(p, e);
            var n := |p.sessions[sid].done|;
            && |q.sessions| == |p.sessions| && Healthy(q, i, sid) && !q.sessions[sid].oneShot
            && q.sessions[sid].done == p.sessions[sid].done + [Settlement(n, Replied(Job(sid, n)))]
            && q.sessions[sid].dispatched == p.sessions[sid].dispatched
  {
    ReplyMatches(p, i);
    assert HistoryOk(sid, p.sessions[sid]);
    assert forall x :: x in p.slots[i].toMain[1..] ==> x in p.slots[i].toMain;
  }

  /** The reply to a one-shot session ends it. */
  lemma {:induction false} OneShotEnds(p: Pool, i: nat, sid: nat, e: Event)
    requires Inv(p) && Works(p, i, e) && Healthy(p, i, sid) && DeliversReply(p, i, e)
    requires sid < |p.sessions| && p.sessions[sid].oneShot
    ensures var q := Step(p, e);
            var n := |p.sessions[sid].done|;
            && |q.slots| == |p.slots| && q.slots[i].session.None?
            && sid < |q.sessions| && Answered(p.sessions[sid], q.sessions[sid], Job(sid, n))
  {
    ReplyAnswers(p, i, e.what.accepts, true, e.deferred);
    ReplyMatches(p, i);
    var m := p.slots[i].toMain[0];
    ReplySettles(p, i, m.idle);
    TerminateFrees(Receive(Pop(p, i), i, m.job, m.idle), p.sessions[sid].id, e.deferred);
  }

  lemma {:induction false} TerminateFrees(p: Pool, id: int, deferred: bool)
    requires Inv(p) && id in p.live
    ensures var q, i := Terminate(p, id, true, deferred), p.sessions[p.live[id]].slot;
            |q.slots| == |p.slots| && i < |p.slots| && q.slots[i].session.None?
  {
    assert Serves(p, p.sessions[p.live[id]].slot, p.live[id]);
  }

  /** No orderly step gives a slot a session. */
  lemma {:induction false} StaysFree(p: Pool, i: nat, sid: nat, e: Event)
    requires Inv(p) && Works(p, i, e) && p.slots[i].session != Some(sid)
    ensures |Step(p, e).slots| == |p.slots| && Step(p, e).slots[i].session != Some(sid)
  {
    if DeliversReply(p, i, e) && p.slots[i].session.Some? {
      ReplyStaysFree(p, i, sid, e.what.accepts, e.deferred);
    } else if e.what.Deliver? {
      PopOk(p, i);
      MessageStaysFree(Pop(p, i), i, sid, p.slots[i].toMain[0], e.what.accepts, e.deferred);
    }
  }

  lemma {:induction false} MessageStaysFree(p: Pool, i: nat, sid: nat, m: ToMain, accepts: nat, deferred: bool)
    requires Linked(p) && i < |p.slots| && p.slots[i].session != Some(sid) && (m.Reply? ==> p.slots[i].session.None?)
    ensures var q := OnMessage(p, i, m, accepts, true, deferred);
            |q.slots| == |p.slots| && q.slots[i].session != Some(sid)
  {
  }

  lemma {:induction false} ReplyStaysFree(p: Pool, i: nat, sid: nat, accepts: nat, deferred: bool)
    requires Inv(p) && i < |p.slots| && !p.slots[i].failed && p.slots[i].session.Some? && p.slots[i].session != Some(sid)
    requires p.slots[i].toMain != [] && p.slots[i].toMain[0].Reply?
    ensures var q := SlotStep(p, i, Deliver(accepts, true), deferred);
            |q.slots| == |p.slots| && q.slots[i].session != Some(sid)
  {
    ReplyMatches(p, i);
    var m := p.slots[i].toMain[0];
    ReplySettles(p, i, m.idle);
    var other := p.slots[i].session.value;
    if p.sessions[other].oneShot {
      TerminateFrees(Receive(Pop(p, i), i, m.job, m.idle), p.sessions[other].id, deferred);
    }
  }

  /** What came of the dispatches of session `sid` since `s`: as long as its slot serves it, all that were
  settled got their replies; a one-shot session ends with its first call, which was answered. */
  ghost predicate Progress(p: Pool, i: nat, sid: nat, s: Session) {
    && i < |p.slots| && sid < |p.sessions| && WorkerPoolProofs.Later(s, p.sessions[sid])
    && (if p.slots[i].session == Some(sid) then
          && Healthy(p, i, sid) && p.sessions[sid].dispatched == s.dispatched
          && (s.oneShot ==> p.sessions[sid].done == s.done)
          && forall x :: |s.done| <= x < |p.sessions[sid].done| ==>
               p.sessions[sid].done[x] == Settlement(x, Replied(Job(sid, x)))
        else
          && s.oneShot && |s.done| < |p.sessions[sid].done|
          && p.sessions[sid].done[|s.done|] == Settlement(|s.done|, Replied(Job(sid, |s.done|))))
  }

  lemma {:induction false} ProgressStep(p: Pool, i: nat, sid: nat, e: Event, s: Session)
    requires Inv(p) && Works(p, i, e) && Progress(p, i, sid, s)
    ensures Progress(Step(p, e), i, sid, s)
  {
    var q := Step(p, e);
    StepLater(p, e);
    assert WorkerPoolProofs.Later(p.sessions[sid], q.sessions[sid]);
    if p.slots[i].session != Some(sid) {
      StaysFree(p, i, sid, e);
    } else if !DeliversReply(p, i, e) {
      CalmStep(p, i, sid, e);
    } else if s.oneShot {
      OneShotEnds(p, i, sid, e);
    } else {
      ReplyStep(p, i, sid, e);
    }
  }

  lemma {:induction false} ProgressRun(es: seq<Event>, i: nat, sid: nat, more: seq<Event>)
    requires Healthy(Run(es), i, sid) && Orderly(es, i, more)
    ensures sid < |Run(es).sessions| && Progress(Run(es + more), i, sid, Run(es).sessions[sid])
    decreases |more|
  {
    if more == [] {
      assert es + more == es;
    } else {
      var n := |more| - 1;
      OrderlyFront(es, i, more);
      ProgressRun(es, i, sid, more[..n]);
      RunOk(es + more[..n]);
      RunSnoc(es, more);
      ProgressStep(Run(es + more[..n]), i, sid, more[n], Run(es).sessions[sid]);
    }
  }

  /** Every call is answered: whatever the run, if from some point on the worker of a session is orderly until
  nothing is left for it to do, then all calls the session waits for are resolved, in order and each with the
  reply made for it; a one-shot session, with the reply to its oldest call. */
  lemma {:induction false} CallsAreAnswered(es: seq<Event>, i: nat, sid: nat, more: seq<Event>)
    requires Healthy(Run(es), i, sid) && Orderly(es, i, more)
    requires i < |Run(es + more).slots| && AtRest(Run(es + more).slots[i])
    ensures sid < |Run(es).sessions| && sid < |Run(es + more).sessions|
    ensures var s, t := Run(es).sessions[sid], Run(es + more).sessions[sid];
            && s.done <= t.done
            && (if s.oneShot then s.pending != [] ==>
                  |s.done| < |t.done| && t.done[|s.done|] == Settlement(|s.done|, Replied(Job(sid, |s.done|)))
                else
                  && t.pending == [] && |t.done| == s.dispatched
                  && forall x :: |s.done| <= x < |t.done| ==> t.done[x] == Settlement(x, Replied(Job(sid, x))))
  {
    ProgressRun(es, i, sid, more);
    RunOk(es);
    RunOk(es + more);
    assert HistoryOk(sid, Run(es).sessions[sid]) && HistoryOk(sid, Run(es + more).sessions[sid]);
    if Run(es + more).slots[i].session == Some(sid) {
      RestMeansDone(es + more, i);
    }
  }
}
