/** The main-thread side of the worker pool as the object the guest calls.

Every handler updates the session table, the slots and the idle list in place and is proved to
be the transition of the same name in `WorkerPool`.  What the platform decides is passed in:
`ok` (a `postMessage` does not throw), `accepts` (how many queued jobs are accepted), `deferred`
(`terminate` answers with a promise), `how` (how the worker object comes into being).
 */
module WorkerHost {
  import opened Containers
  import opened SessionTable
  import opened WorkerPool
  import opened WorkerPoolProofs

  lemma {:induction false} WithoutSplices(s: seq<nat>, x: nat, at: nat)
    requires at <= |s| && x !in s[..at] && (at < |s| ==> s[at] == x)
    ensures Without(s, x) == if at < |s| then s[..at] + s[at + 1..] else s
  {
    if at > 0 {
      assert s[0] == s[..at][0] && s[0] != x;
      assert s[1..][..at - 1] == s[..at][1..];
      WithoutSplices(s[1..], x, at - 1);
    }
  }

  /** Updating a slot that keeps its session, or drops it, leaves every reference in place. */
  lemma {:induction false} LinkedSlot(p: Pool, i: nat, k: Slot)
    requires Linked(p) && i < |p.slots| && (k.session == p.slots[i].session || k.session.None?)
    ensures Linked(p.(slots := p.slots[i := k]))
  {
  }

  lemma {:induction false} LinkedSession(p: Pool, sid: nat, s: Session)
    requires Linked(p) && sid < |p.sessions| && s.slot == p.sessions[sid].slot && s.id == p.sessions[sid].id
    ensures Linked(p.(sessions := p.sessions[sid := s]))
  {
  }

  lemma {:induction false} DispatchesSnoc(ms: seq<ToWorker>, jobs: seq<Job>, x: nat)
    requires x < |jobs|
    ensures ms + Dispatches(jobs[..x]) + [Dispatch(jobs[x])] == ms + Dispatches(jobs[..x + 1])
  {
  }

  class Workers {
    const sessions: Sessions<nat>
    var states: seq<Session>
    var slots: seq<Slot>
    var idle: seq<nat>
    var failures: set<int>
    ghost var live: map<int, nat>

    ghost function Model(): Pool
      reads this
    {
      Pool(live, states, slots, idle, failures)
    }

    ghost predicate TableOk()
      reads this, sessions
    {
      SessionTable.Valid(sessions.Model()) && live == LiveMap(sessions.Model())
    }

    /** The object is well formed; enough for a handler to run half-way through a step. */
    ghost predicate Valid()
      reads this, sessions
    {
      TableOk() && Linked(Model())
    }

    constructor ()
      ensures Valid() && Model() == START && fresh(sessions)
    {
      sessions := new Sessions<nat>();
      states, slots, idle, failures, live := [], [], [], {}, map[];
      new;
      assert LiveMap(sessions.Model()) == map[];
    }

    method KillSlot(i: nat, deferred: bool)
      requires Valid() && i < |slots|
      modifies this`slots
      ensures Valid() && slots == old(slots)[i := WorkerPool.KillSlot(old(slots)[i], deferred)]
    {
      var k := slots[i];
      LinkedSlot(Model(), i, WorkerPool.KillSlot(k, deferred));
      if k.killed == Running {
        var stopped := if k.hasWorker && deferred then k.(killed := Stopping) else ReleaseStack(k.(killed := Stopped));
        slots := slots[i := stopped];
      }
    }

    /** Resolves `pending` with the empty string, in order. */
    method SettleAll(sid: nat)
      requires Valid() && sid < |states|
      modifies this`states
      ensures Valid() && states == old(states)[sid := Abandon(old(states)[sid])]
    {
      var s := states[sid];
      LinkedSession(Model(), sid, Abandon(s));
      states := states[sid := s.(pending := [])];
      assert s.done + Unresolved(s.pending[..0]) == s.done;
      for x := 0 to |s.pending|
        invariant states == old(states)[sid := s.(pending := [], done := s.done + Unresolved(s.pending[..x]))]
      {
        states := states[sid := states[sid].(done := states[sid].done + [Settlement(s.pending[x], Unanswered)])];
        assert s.done + Unresolved(s.pending[..x]) + [Settlement(s.pending[x], Unanswered)] ==
               s.done + Unresolved(s.pending[..x + 1]);
      }
      assert s.pending[..|s.pending|] == s.pending;
    }

    method RemoveIdle(i: nat)
      requires Valid()
      modifies this`idle
      ensures idle == Without(old(idle), i)
      ensures Valid()
    {
      var at := 0;
      while at < |idle| && idle[at] != i
        invariant at <= |idle| && i !in idle[..at]
      {
        at := at + 1;
      }
      WithoutSplices(idle, i, at);
      if at < |idle| {
        ghost var before := idle;
        idle := idle[..at] + idle[at + 1..];
        assert forall j :: j in idle ==> j in before;
      }
    }

    /** Takes the handle out of the table. */
    method DropHandle(id: int) returns (found: Option<nat>)
      requires Valid() && IsI32(id)
      modifies this`live, sessions
      ensures Valid() && live == old(live) - {id}
      ensures found == if id in old(live) then Some(old(live)[id]) else None
    {
      LiveMapGet(sessions.Model(), id);
      RemoveLive(sessions.Model(), id);
      found := sessions.Drop(id);
      live := live - {id};
    }

    /** The session of a failed slot leaves the table; its failure is recorded and its calls settle. */
    method FailSession(sid: nat)
      requires Valid() && sid < |states|
      modifies this`live, this`failures, this`states, sessions
      ensures Valid() && live == old(live) - {old(states)[sid].id} && failures == old(failures) + {old(states)[sid].id}
      ensures states == old(states)[sid := Abandon(old(states)[sid])]
    {
      var id := states[sid].id;
      var _ := DropHandle(id);
      failures := failures + {id};
      SettleAll(sid);
    }

    method FailSlot(i: nat, deferred: bool)
      requires Valid() && i < |slots|
      modifies this, sessions
      ensures Valid() && Model() == WorkerPool.FailSlot(old(Model()), i, deferred)
    {
      var k := slots[i];
      if k.failed {
        return;
      }
      var f := k.(failed := true, bootTimer := false, queued := [], terminateWhenReady := false, closed := false,
                  session := None);
      LinkedSlot(Model(), i, f);
      slots := slots[i := f];
      RemoveIdle(i);
      if k.session.Some? && !k.retired {
        FailSession(k.session.value);
      }
      KillSlot(i, deferred);
      assert old(slots)[i := f][i := Failed(k, deferred)] == old(slots)[i := Failed(k, deferred)];
    }

    method Send(i: nat, m: ToWorker, ok: bool, deferred: bool) returns (sent: bool)
      requires Valid() && i < |slots|
      modifies this, sessions
      ensures sent == ok
      ensures Valid() && Model() == WorkerPool.Send(old(Model()), i, m, ok, deferred)
    {
      if ok {
        slots := slots[i := slots[i].(toWorker := slots[i].toWorker + [m])];
      } else {
        FailSlot(i, deferred);
      }
      return ok;
    }

    method PostJob(sid: nat, ok: bool, deferred: bool)
      requires Valid() && sid < |states|
      modifies this, sessions
      ensures Valid()
      ensures var p, s := old(Model()), old(states)[sid];
              Linked(Owe(p, sid)) && Model() ==
              if old(slots)[s.slot].ready then
                WorkerPool.Send(Owe(p, sid), s.slot, Dispatch(Job(sid, s.dispatched)), ok, deferred)
              else Enqueue(Owe(p, sid), s.slot, Job(sid, s.dispatched))
    {
      var s := states[sid];
      var i, job := s.slot, Job(sid, s.dispatched);
      ghost var owing := Owe(Model(), sid);
      LinkedSession(Model(), sid, owing.sessions[sid]);
      states := states[sid := s.(pending := s.pending + [s.dispatched], inflight := s.inflight + 1,
                                 dispatched := s.dispatched + 1)];
      assert Model() == owing;
      if slots[i].ready {
        var _ := Send(i, Dispatch(job), ok, deferred);
      } else {
        LinkedSlot(owing, i, slots[i].(queued := slots[i].queued + [job]));
        slots := slots[i := slots[i].(queued := slots[i].queued + [job])];
      }
    }

    method WorkerDispatch(id: int, ok: bool, deferred: bool)
      requires Valid() && IsI32(id)
      modifies this, sessions
      ensures Valid() && Model() == DispatchJob(old(Model()), id, ok, deferred)
    {
      LiveMapGet(sessions.Model(), id);
      var found := sessions.Lookup(id);
      if found.Some? {
        PostJob(found.value, ok, deferred);
      }
    }

    /** The slot of an ended session is kept for the next one, or stopped when that is safe. */
    method ReleaseSlot(i: nat, inflight: int, ok: bool, deferred: bool)
      requires Valid() && i < |slots|
      modifies this, sessions
      ensures Valid()
      ensures Model() ==
              if old(slots[i].hasWorker && slots[i].ready && slots[i].idle && inflight == 0 && |idle| < IDLE_MAX) then
                old(Model()).(slots := old(slots)[i := old(slots)[i].(session := None)], idle := old(idle) + [i])
              else Retire(old(Model()), i, inflight, ok, deferred)
    {
      var k := slots[i];
      if k.hasWorker && k.ready && k.idle && inflight == 0 && |idle| < IDLE_MAX {
        LinkedSlot(Model(), i, k.(session := None));
        slots := slots[i := k.(session := None)];
        idle := idle + [i];
      } else {
        RetireSlot(i, inflight, ok, deferred);
      }
    }

    method RetireSlot(i: nat, inflight: int, ok: bool, deferred: bool)
      requires Valid() && i < |slots|
      modifies this, sessions
      ensures Valid() && Model() == Retire(old(Model()), i, inflight, ok, deferred)
    {
      var r := slots[i].(session := None, retired := true, finish := true);
      if !r.ready {
        LinkedSlot(Model(), i, r.(terminateWhenReady := true));
        slots := slots[i := r.(terminateWhenReady := true)];
      } else if inflight == 0 {
        LinkedSlot(Model(), i, r.(closed := true));
        slots := slots[i := r.(closed := true)];
        var _ := Send(i, Term, ok, deferred);
      } else {
        LinkedSlot(Model(), i, r);
        slots := slots[i := r];
        KillSlot(i, deferred);
        var k := WorkerPool.KillSlot(r, deferred);
        assert old(slots)[i := r][i := k] == old(slots)[i := k];
      }
    }

    method TerminateWorker(id: int, ok: bool, deferred: bool)
      requires Valid() && IsI32(id)
      modifies this, sessions
      ensures Valid() && Model() == Terminate(old(Model()), id, ok, deferred)
    {
      failures := failures - {id};
      var found := DropHandle(id);
      if found.None? {
        assert live == old(live);
        return;
      }
      var sid := found.value;
      SettleAll(sid);
      var i := states[sid].slot;
      if slots[i].failed {
        return;
      }
      ReleaseSlot(i, states[sid].inflight, ok, deferred);
    }

    /** The worker object is created now, fails to be created, or is left to a later event. */
    method StartWorker(i: nat, how: Start, ok: bool, deferred: bool)
      requires Valid() && i < |slots|
      modifies this, sessions
      ensures Valid() && Model() == Launch(old(Model()), i, how, ok, deferred)
    {
      match how {
        case Later =>
        case Throws =>
          FailSlot(i, deferred);
        case Now =>
          LinkedSlot(Model(), i, slots[i].(hasWorker := true));
          slots := slots[i := slots[i].(hasWorker := true)];
          var _ := Send(i, Init, ok, deferred);
      }
    }

    method NewHandle(sid: nat) returns (id: int)
      requires Valid() && sid == |states|
      modifies this`live, sessions
      ensures TableOk() && IsI32(id) && id >= 0 && id !in old(live)
      ensures live == if id == 0 then old(live) else old(live)[id := sid]
    {
      InsertLive(sessions.Model(), sid);
      LiveMapGet(sessions.Model(), 0);
      id := sessions.Add(sid);
      if id != 0 {
        live := live[id := sid];
      }
    }

    /** Ties the session just registered as `id` to slot `i`. */
    method Adopt(id: int, oneShot: bool, i: nat, ghost before: Pool)
      requires TableOk() && Linked(before) && IsI32(id) && i <= |slots|
      requires Model() == before.(live := before.live[id := |states|])
      modifies this`states, this`slots
      ensures Valid() && Model() == Attach(before, id, oneShot, i)
    {
      var sid := |states|;
      if i < |slots| {
        slots := slots[i := slots[i].(session := Some(sid))];
      } else {
        slots := slots + [FRESH_SLOT.(session := Some(sid))];
      }
      states := states + [Session(i, oneShot, id, [], 0, 0, [])];
    }

    /** The newest idle worker serves the session just registered as `id`. */
    method Reuse(id: int, oneShot: bool, ok: bool, deferred: bool, ghost before: Pool)
      requires TableOk() && Linked(before) && IsI32(id) && id != 0 && idle != []
      requires Model() == before.(live := before.live[id := |states|])
      modifies this, sessions
      ensures Valid() && Model() == Spawn(before, id, oneShot, Now, ok, deferred)
    {
      var last := |idle| - 1;
      var i := idle[last];
      assert i in idle && forall j :: j in idle[..last] ==> j in idle;
      idle := idle[..last];
      Adopt(id, oneShot, i, before.(idle := before.idle[..last]));
      var _ := Send(i, Reset, ok, deferred);
    }

    method SpawnWorker(oneShot: bool, how: Start, ok: bool, deferred: bool) returns (id: int)
      requires Valid()
      modifies this, sessions
      ensures IsI32(id) && id >= 0 && id !in old(live)
      ensures Valid() && Model() == Spawn(old(Model()), id, oneShot, how, ok, deferred)
    {
      ghost var p := Model();
      id := NewHandle(|states|);
      if id == 0 {
        return;
      }
      if idle != [] {
        Reuse(id, oneShot, ok, deferred, p);
      } else {
        var i := |slots|;
        Adopt(id, oneShot, i, p);
        StartWorker(i, how, ok, deferred);
      }
    }

    method FlushQueue(i: nat, accepts: nat, deferred: bool)
      requires Valid() && i < |slots|
      modifies this, sessions
      ensures Valid() && Model() == Flush(old(Model()), i, accepts, deferred)
    {
      var jobs, k := slots[i].queued, slots[i];
      LinkedSlot(Model(), i, k.(queued := []));
      slots := slots[i := k.(queued := [])];
      assert k.toWorker + Dispatches(jobs[..0]) == k.toWorker;
      var x := 0;
      while x < |jobs|
        invariant x <= |jobs| && x <= accepts && Valid()
        invariant Model() == old(Model()).(slots :=
                    old(slots)[i := k.(queued := [], toWorker := k.toWorker + Dispatches(jobs[..x]))])
      {
        ghost var now := Model();
        var sent := Send(i, Dispatch(jobs[x]), x < accepts, deferred);
        if !sent {
          assert jobs[..x] == jobs[..accepts];
          return;
        }
        DispatchesSnoc(k.toWorker, jobs, x);
        x := x + 1;
      }
      assert jobs[..x] == jobs;
    }

    /** The oldest message of the slot's worker reaches the main thread. */
    method OnWorkerMessage(i: nat, accepts: nat, ok: bool, deferred: bool)
      requires Valid() && i < |slots| && slots[i].toMain != []
      modifies this, sessions
      ensures Valid() && Model() == SlotStep(old(Model()), i, Deliver(accepts, ok), deferred)
    {
      var m := slots[i].toMain[0];
      LinkedSlot(Model(), i, slots[i].(toMain := slots[i].toMain[1..]));
      slots := slots[i := slots[i].(toMain := slots[i].toMain[1..])];
      assert Model() == Pop(old(Model()), i);
      Handle(i, m, accepts, ok, deferred);
    }

    method Handle(i: nat, m: ToMain, accepts: nat, ok: bool, deferred: bool)
      requires Valid() && i < |slots|
      modifies this, sessions
      ensures Valid() && Model() == OnMessage(old(Model()), i, m, accepts, ok, deferred)
    {
      if slots[i].failed {
        return;
      }
      match m {
        case Ready(stack) =>
          Boot(i, stack, accepts, deferred);
        case Closed =>
          if slots[i].closed {
            KillSlot(i, deferred);
          }
        case Reply(job, quiet) =>
          TakeReply(i, job, quiet, ok, deferred);
        case Error =>
          FailSlot(i, deferred);
      }
    }

    method Boot(i: nat, stack: nat, accepts: nat, deferred: bool)
      requires Valid() && i < |slots|
      modifies this, sessions
      ensures Valid() && Model() == OnReady(old(Model()), i, stack, accepts, deferred)
    {
      var k := slots[i].(ready := true, stack := stack, bootTimer := false);
      LinkedSlot(Model(), i, k);
      if k.terminateWhenReady {
        LinkedSlot(Model(), i, k.(queued := []));
        slots := slots[i := k.(queued := [])];
        KillSlot(i, deferred);
        var k' := WorkerPool.KillSlot(k.(queued := []), deferred);
        assert old(slots)[i := k.(queued := [])][i := k'] == old(slots)[i := k'];
      } else {
        slots := slots[i := k];
        FlushQueue(i, accepts, deferred);
      }
    }

    method TakeReply(i: nat, job: Job, quiet: bool, ok: bool, deferred: bool)
      requires Valid() && i < |slots|
      modifies this, sessions
      ensures Valid() && Model() == OnReply(old(Model()), i, job, quiet, ok, deferred)
    {
      var state := slots[i].session;
      LinkedSlot(Model(), i, slots[i].(idle := quiet));
      slots := slots[i := slots[i].(idle := quiet)];
      if state.None? {
        return;
      }
      var sid := state.value;
      var s := states[sid].(inflight := states[sid].inflight - 1);
      if |s.pending| > 0 {
        s := s.(done := s.done + [Settlement(s.pending[0], Replied(job))], pending := s.pending[1..]);
      }
      LinkedSession(Model(), sid, s);
      states := states[sid := s];
      assert Model() == Receive(old(Model()), i, job, quiet);
      if s.oneShot {
        TerminateWorker(s.id, ok, deferred);
      }
    }
  }
}
