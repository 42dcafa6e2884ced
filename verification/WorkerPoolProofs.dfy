/** What every run of the worker pool keeps. */
module WorkerPoolProofs {
  import opened Containers
  import opened SessionTable
  import opened WorkerPool

  // ----- The invariant -----

  /** The jobs whose replies are on their way to the main thread, up to the first error report. */
  function Replies(ms: seq<ToMain>): seq<Job> {
    if ms == [] || ms[0].Error? then []
    else (if ms[0].Reply? then [ms[0].job] else []) + Replies(ms[1..])
  }

  /** The jobs on their way to the worker. */
  function Sends(ms: seq<ToWorker>): seq<Job> {
    if ms == [] then []
    else (if ms[0].Dispatch? then [ms[0].job] else []) + Sends(ms[1..])
  }

  /** The dispatches `s` still owes, as jobs. */
  function OwedBy(sid: nat, s: Session): seq<Job> {
    seq(|s.pending|, x requires 0 <= x < |s.pending| => Job(sid, s.pending[x]))
  }

  function Owed(p: Pool, i: nat): seq<Job>
    requires Linked(p) && i < |p.slots|
  {
    if p.slots[i].session.None? then []
    else OwedBy(p.slots[i].session.value, p.sessions[p.slots[i].session.value])
  }

  /** Settlements and pending dispatches of a session are its dispatches, in order, each once;
  a settlement by reply carries the reply made for that very dispatch. */
  ghost predicate HistoryOk(sid: nat, s: Session) {
    && (forall x :: 0 <= x < |s.done| ==> s.done[x].number == x)
    && (forall x :: 0 <= x < |s.done| && s.done[x].outcome.Replied? ==> s.done[x].outcome.to == Job(sid, x))
    && (forall x :: 0 <= x < |s.pending| ==> s.pending[x] == |s.done| + x)
    && s.dispatched == |s.done| + |s.pending|
  }

  /** Facts about stopping a slot that hold even when it has failed. */
  predicate StopOk(k: Slot) {
    && k.freed <= 1
    && (k.stack != 0 ==> k.freed == 0)
    && (k.killed == Stopped ==> k.stack == 0)
    && (k.freed == 1 ==> k.killed == Stopped)
    && (!k.ready ==> k.stack == 0 && k.freed == 0)
    && (k.killed != Running ==> k.failed || k.ready)
    && (k.retired ==> k.session.None? && (k.finish || k.killed == Stopped))
    && (k.failed ==>
          k.session.None? && !k.bootTimer && k.queued == [] && !k.terminateWhenReady && !k.closed && k.killed != Running)
  }

  /** The channels of a slot that has not reported `ready`. */
  predicate Booting(k: Slot) {
    && k.bootTimer && k.killed == Running
    && (if !k.hasWorker then k.toWorker == [] && k.toMain == []
        else if k.toWorker == [Init] then k.toMain == []
        else k.toWorker == [] && |k.toMain| == 1 && (k.toMain[0].Ready? || k.toMain[0].Error?))
  }

  ghost predicate Booted(k: Slot) {
    && k.hasWorker && !k.bootTimer && k.queued == []
    && (forall x :: 0 <= x < |k.toWorker| ==> !k.toWorker[x].Init?)
    && (forall x :: 0 <= x < |k.toMain| ==> !k.toMain[x].Ready?)
  }

  /** A working slot delivers the replies its session waits for, in order and nothing else; every dispatch
  on its channels is still owed, even if an error report is on its way. */
  ghost predicate Aligned(toMain: seq<ToMain>, toWorker: seq<ToWorker>, queued: seq<Job>, owed: seq<Job>) {
    && Replies(toMain) <= owed && |Replies(toMain)| + |Sends(toWorker)| + |queued| <= |owed|
    && (Error !in toMain ==> owed == Replies(toMain) + Sends(toWorker) + queued)
  }

  ghost predicate Wire(k: Slot, owed: seq<Job>) {
    Aligned(k.toMain, k.toWorker, k.queued, owed)
  }

  /** The worker was asked to close, and the request, its answer or an error report is on its way. */
  predicate Closing(k: Slot) {
    k.closed && (Term in k.toWorker || Closed in k.toMain || Error in k.toMain)
  }

  ghost predicate SlotOk(k: Slot, owed: seq<Job>) {
    !k.failed ==>
      && (if k.ready then Booted(k) else Booting(k))
      && (if k.retired then (if k.ready then k.killed != Running || Closing(k) else k.terminateWhenReady)
          else k.killed == Running && !k.terminateWhenReady && !k.closed && Wire(k, owed))
  }

  /** The idle list holds distinct slots that can serve at once, and every free slot that can. */
  ghost predicate IdleOk(p: Pool) {
    && |p.idle| <= IDLE_MAX
    && (forall x, y :: 0 <= x < y < |p.idle| ==> p.idle[x] != p.idle[y])
    && (forall i :: i in p.idle ==>
          && i < |p.slots| && p.slots[i].session.None? && !p.slots[i].failed && !p.slots[i].retired
          && p.slots[i].ready && p.slots[i].idle)
    && (forall i {:trigger p.slots[i]} :: 0 <= i < |p.slots| && !p.slots[i].failed && !p.slots[i].retired ==>
          p.slots[i].session.Some? || i in p.idle)
  }

  predicate Live(p: Pool, sid: nat) {
    sid < |p.sessions| && p.sessions[sid].id in p.live && p.live[p.sessions[sid].id] == sid
  }

  /** Slot `i` and live session `sid` point at each other. */
  predicate Serves(p: Pool, i: nat, sid: nat) {
    && i < |p.slots| && Live(p, sid)
    && p.slots[i].session == Some(sid) && p.sessions[sid].slot == i
    && !p.slots[i].failed && !p.slots[i].retired
  }

  ghost predicate SlotLinks(p: Pool) {
    forall i {:trigger p.slots[i]} :: 0 <= i < |p.slots| && p.slots[i].session.Some? ==>
      Serves(p, i, p.slots[i].session.value)
  }

  ghost predicate HandleLinks(p: Pool)
    requires Linked(p)
  {
    forall id {:trigger id in p.live} :: id in p.live ==>
      id > 0 && p.sessions[p.live[id]].id == id && Serves(p, p.sessions[p.live[id]].slot, p.live[id])
  }

  ghost predicate LinksOk(p: Pool) {
    Linked(p) && SlotLinks(p) && HandleLinks(p)
  }

  ghost predicate StopsOk(p: Pool) {
    forall i :: 0 <= i < |p.slots| ==> StopOk(p.slots[i])
  }

  ghost predicate HistoriesOk(p: Pool) {
    forall sid {:trigger p.sessions[sid]} :: 0 <= sid < |p.sessions| ==>
      && HistoryOk(sid, p.sessions[sid])
      && (if Live(p, sid) then p.sessions[sid].inflight == |p.sessions[sid].pending|
          else p.sessions[sid].pending == [])
  }

  /** Everything but the state of the individual slots. */
  ghost predicate Core(p: Pool) {
    LinksOk(p) && IdleOk(p) && StopsOk(p) && HistoriesOk(p)
  }

  ghost predicate Inv(p: Pool) {
    && Core(p)
    && forall i {:trigger p.slots[i]} :: 0 <= i < |p.slots| ==> SlotOk(p.slots[i], Owed(p, i))
  }

  /** The invariant, except that nothing is claimed about the workings of slot `i`. */
  ghost predicate InvBut(p: Pool, i: nat) {
    && Core(p)
    && forall j {:trigger p.slots[j]} :: 0 <= j < |p.slots| && j != i ==> SlotOk(p.slots[j], Owed(p, j))
  }

  // ----- Helpers -----

  lemma {:induction false} WithoutKeeps(s: seq<nat>, x: nat)
    requires forall a, b :: 0 <= a < b < |s| ==> s[a] != s[b]
    ensures |Without(s, x)| <= |s|
    ensures forall y :: y in Without(s, x) <==> y in s && y != x
    ensures forall a, b :: 0 <= a < b < |Without(s, x)| ==> Without(s, x)[a] != Without(s, x)[b]
  {
    if s != [] {
      WithoutKeeps(s[1..], x);
      assert s == [s[0]] + s[1..];
      if s[0] != x {
        var r := Without(s[1..], x);
        assert s[0] !in s[1..];
        assert Without(s, x) == [s[0]] + r;
      }
    }
  }

  lemma {:induction false} AbandonOk(sid: nat, s: Session)
    requires HistoryOk(sid, s)
    ensures HistoryOk(sid, Abandon(s))
  {
  }

  /** `q` differs from `p` at most in slot `i`, session `sid`, the handles and the idle list. */
  ghost predicate OnlyAt(p: Pool, q: Pool, i: nat, sid: nat) {
    && |q.slots| == |p.slots| && |q.sessions| == |p.sessions|
    && (forall j {:trigger q.slots[j]} :: 0 <= j < |p.slots| && j != i ==> q.slots[j] == p.slots[j])
    && (forall x {:trigger q.sessions[x]} :: 0 <= x < |p.sessions| && x != sid ==> q.sessions[x] == p.sessions[x])
    && (forall j :: j in q.idle ==> j < |p.slots|)
  }

  /** Slot `i` lets its session `sid` go. */
  lemma {:induction false} DetachLinks(p: Pool, q: Pool, i: nat, sid: nat)
    requires LinksOk(p) && Serves(p, i, sid) && OnlyAt(p, q, i, sid)
    requires q.slots[i].session.None? && q.live == p.live - {p.sessions[sid].id}
    requires q.sessions[sid].id == p.sessions[sid].id && q.sessions[sid].slot == i
    ensures LinksOk(q)
  {
    assert Linked(q);
    assert SlotLinks(q) by {
      forall j {:trigger q.slots[j]} | 0 <= j < |q.slots| && q.slots[j].session.Some?
        ensures Serves(q, j, q.slots[j].session.value)
      {
        assert Serves(p, j, p.slots[j].session.value);
      }
    }
    assert HandleLinks(q) by {
      forall id {:trigger id in q.live} | id in q.live
        ensures id > 0 && q.sessions[q.live[id]].id == id && Serves(q, q.sessions[q.live[id]].slot, q.live[id])
      {
        assert id in p.live && Serves(p, p.sessions[p.live[id]].slot, p.live[id]);
      }
    }
  }

  /** Slot `i` stays with its session, or without one. */
  lemma {:induction false} KeepLinks(p: Pool, q: Pool, i: nat, sid: nat)
    requires LinksOk(p) && i < |p.slots| && sid <= |p.sessions| && OnlyAt(p, q, i, sid) && q.live == p.live
    requires q.slots[i].session == p.slots[i].session
    requires p.slots[i].session.Some? ==>
               p.slots[i].failed == q.slots[i].failed && p.slots[i].retired == q.slots[i].retired
    requires sid < |p.sessions| ==>
               q.sessions[sid].id == p.sessions[sid].id && q.sessions[sid].slot == p.sessions[sid].slot
    ensures LinksOk(q)
  {
  }

  lemma {:induction false} FailLinks(p: Pool, i: nat, deferred: bool)
    requires LinksOk(p) && IdleOk(p) && i < |p.slots|
    ensures LinksOk(FailSlot(p, i, deferred))
  {
    WithoutKeeps(p.idle, i);
    var q := FailSlot(p, i, deferred);
    if !p.slots[i].failed {
      if p.slots[i].session.None? {
        KeepLinks(p, q, i, |p.sessions|);
      } else {
        DetachLinks(p, q, i, p.slots[i].session.value);
      }
    }
  }

  lemma {:induction false} FailIdle(p: Pool, i: nat, deferred: bool)
    requires LinksOk(p) && IdleOk(p) && i < |p.slots|
    ensures IdleOk(FailSlot(p, i, deferred))
  {
    WithoutKeeps(p.idle, i);
  }

  lemma {:induction false} FailHistories(p: Pool, i: nat, deferred: bool)
    requires LinksOk(p) && HistoriesOk(p) && i < |p.slots|
    ensures HistoriesOk(FailSlot(p, i, deferred))
  {
    if !p.slots[i].failed && p.slots[i].session.Some? {
      AbandonOk(p.slots[i].session.value, p.sessions[p.slots[i].session.value]);
    }
  }

  lemma {:induction false} FailedStop(k: Slot, deferred: bool)
    requires StopOk(k)
    ensures StopOk(Failed(k, deferred))
  {
  }

  lemma {:induction false} FailStops(p: Pool, i: nat, deferred: bool)
    requires Linked(p) && StopsOk(p) && i < |p.slots|
    ensures StopsOk(FailSlot(p, i, deferred))
  {
    FailedStop(p.slots[i], deferred);
  }

  /** Slot `j` and what its session waits for are the same in both pools. */
  predicate SameSlot(p: Pool, q: Pool, j: nat) {
    && j < |p.slots| && j < |q.slots| && q.slots[j] == p.slots[j]
    && (p.slots[j].session.Some? ==>
          && p.slots[j].session.value < |p.sessions| && p.slots[j].session.value < |q.sessions|
          && q.sessions[p.slots[j].session.value] == p.sessions[p.slots[j].session.value])
  }

  lemma {:induction false} FailOther(p: Pool, i: nat, deferred: bool, j: nat)
    requires LinksOk(p) && i < |p.slots| && j < |p.slots| && j != i
    ensures SameSlot(p, FailSlot(p, i, deferred), j)
  {
  }

  lemma {:induction false} FailedRest(p: Pool, q: Pool, i: nat)
    requires InvBut(p, i) && i < |p.slots| && Core(q) && |q.slots| == |p.slots| && q.slots[i].failed
    requires forall j :: 0 <= j < |p.slots| && j != i ==> SameSlot(p, q, j)
    ensures Inv(q)
  {
    forall j | 0 <= j < |q.slots|
      ensures SlotOk(q.slots[j], Owed(q, j))
    {
      if j != i {
        assert SameSlot(p, q, j);
      }
    }
  }

  /** Whatever state slot `i` was in, failing it restores the invariant. */
  lemma {:induction false} FailSlotOk(p: Pool, i: nat, deferred: bool)
    requires InvBut(p, i) && i < |p.slots|
    ensures Inv(FailSlot(p, i, deferred))
  {
    FailLinks(p, i, deferred);
    FailIdle(p, i, deferred);
    FailHistories(p, i, deferred);
    FailStops(p, i, deferred);
    var q := FailSlot(p, i, deferred);
    forall j | 0 <= j < |p.slots| && j != i
      ensures SameSlot(p, q, j)
    {
      FailOther(p, i, deferred, j);
    }
    FailedRest(p, q, i);
  }

  /** A step confined to slot `i` and the session it serves leaves the rest of the pool in order. */
  lemma {:induction false} Confined(p: Pool, q: Pool, i: nat, sid: nat)
    requires InvBut(p, i) && i < |p.slots| && OnlyAt(p, q, i, sid)
    requires sid < |p.sessions| ==> p.sessions[sid].slot == i && q.sessions[sid].id == p.sessions[sid].id
    requires q.live == p.live || (Live(p, sid) && q.live == p.live - {p.sessions[sid].id})
    requires LinksOk(q) && IdleOk(q) && StopOk(q.slots[i])
    requires sid < |p.sessions| ==>
               && HistoryOk(sid, q.sessions[sid])
               && (if Live(q, sid) then q.sessions[sid].inflight == |q.sessions[sid].pending|
                   else q.sessions[sid].pending == [])
    ensures InvBut(q, i)
  {
    ConfinedHistories(p, q, i, sid);
    forall j | 0 <= j < |q.slots| && j != i
      ensures SlotOk(q.slots[j], Owed(q, j))
    {
      ConfinedOwed(p, q, i, sid, j);
    }
  }

  lemma {:induction false} ConfinedHistories(p: Pool, q: Pool, i: nat, sid: nat)
    requires LinksOk(p) && HistoriesOk(p) && OnlyAt(p, q, i, sid)
    requires q.live == p.live || (Live(p, sid) && q.live == p.live - {p.sessions[sid].id})
    requires sid < |p.sessions| ==>
               && HistoryOk(sid, q.sessions[sid])
               && (if Live(q, sid) then q.sessions[sid].inflight == |q.sessions[sid].pending|
                   else q.sessions[sid].pending == [])
    ensures HistoriesOk(q)
  {
    forall x {:trigger q.sessions[x]} | 0 <= x < |q.sessions| && x != sid
      ensures Live(q, x) == Live(p, x) && q.sessions[x] == p.sessions[x]
    {
    }
  }

  lemma {:induction false} ConfinedOwed(p: Pool, q: Pool, i: nat, sid: nat, j: nat)
    requires LinksOk(p) && LinksOk(q) && OnlyAt(p, q, i, sid) && j < |p.slots| && j != i
    requires sid < |p.sessions| ==> p.sessions[sid].slot == i
    ensures q.slots[j] == p.slots[j] && Owed(q, j) == Owed(p, j)
  {
  }

  lemma {:induction false} KeepIdle(p: Pool, q: Pool, i: nat, sid: nat)
    requires IdleOk(p) && i < |p.slots| && OnlyAt(p, q, i, sid) && q.idle == p.idle
    requires q.slots[i].session == p.slots[i].session && q.slots[i].failed == p.slots[i].failed
    requires q.slots[i].retired == p.slots[i].retired
    requires i in p.idle ==> q.slots[i].ready && q.slots[i].idle
    ensures IdleOk(q)
  {
  }

  // ----- Channels -----

  lemma {:induction false} SendsAppend(a: seq<ToWorker>, m: ToWorker)
    ensures Sends(a + [m]) == if m.Dispatch? then Sends(a) + [m.job] else Sends(a)
  {
    if a == [] {
      assert a + [m] == [m] && [m][1..] == [];
    } else {
      assert (a + [m])[1..] == a[1..] + [m];
      SendsAppend(a[1..], m);
    }
  }

  lemma {:induction false} RepliesAppend(a: seq<ToMain>, m: ToMain)
    ensures Replies(a + [m]) ==
            if Error !in a && m.Reply? then Replies(a) + [m.job] else Replies(a)
  {
    if a == [] {
      assert a + [m] == [m] && [m][1..] == [];
    } else {
      assert (a + [m])[1..] == a[1..] + [m];
      RepliesAppend(a[1..], m);
    }
  }

  lemma {:induction false} SendsDispatches(jobs: seq<Job>)
    ensures Sends(Dispatches(jobs)) == jobs
  {
    if jobs != [] {
      assert Dispatches(jobs)[1..] == Dispatches(jobs[1..]);
      SendsDispatches(jobs[1..]);
    }
  }

  // ----- Guest calls -----

  lemma {:induction false} OweSession(sid: nat, s: Session)
    requires HistoryOk(sid, s)
    ensures var t := s.(pending := s.pending + [s.dispatched], inflight := s.inflight + 1, dispatched := s.dispatched + 1);
            HistoryOk(sid, t) && OwedBy(sid, t) == OwedBy(sid, s) + [Job(sid, s.dispatched)]
  {
  }

  lemma {:induction false} OweOk(p: Pool, sid: nat)
    requires Inv(p) && Live(p, sid)
    ensures InvBut(Owe(p, sid), p.sessions[sid].slot)
    ensures Owed(Owe(p, sid), p.sessions[sid].slot) ==
            Owed(p, p.sessions[sid].slot) + [Job(sid, p.sessions[sid].dispatched)]
  {
    var q, i := Owe(p, sid), p.sessions[sid].slot;
    assert p.sessions[sid].id in p.live && Serves(p, i, sid);
    OweSession(sid, p.sessions[sid]);
    assert OnlyAt(p, q, i, sid);
    KeepLinks(p, q, i, sid);
    KeepIdle(p, q, i, sid);
    assert StopOk(q.slots[i]);
    Confined(p, q, i, sid);
  }

  /** The slot keeps its standing; only its channels, queue or flags change. */
  lemma {:induction false} SlotUpdateOk(p: Pool, i: nat, k: Slot)
    requires InvBut(p, i) && i < |p.slots|
    requires k.session == p.slots[i].session && k.failed == p.slots[i].failed && k.retired == p.slots[i].retired
    requires i in p.idle ==> k.ready && k.idle
    requires StopOk(k)
    ensures InvBut(p.(slots := p.slots[i := k]), i)
    ensures Owed(p.(slots := p.slots[i := k]), i) == Owed(p, i)
    ensures SlotOk(k, Owed(p, i)) ==> Inv(p.(slots := p.slots[i := k]))
  {
    var q := p.(slots := p.slots[i := k]);
    KeepLinks(p, q, i, |p.sessions|);
    KeepIdle(p, q, i, |p.sessions|);
    Confined(p, q, i, |p.sessions|);
  }

  lemma {:induction false} PostSlot(k: Slot, owed: seq<Job>, job: Job)
    requires SlotOk(k, owed) && !k.failed && !k.retired && k.ready
    ensures SlotOk(k.(toWorker := k.toWorker + [Dispatch(job)]), owed + [job])
  {
    SendsAppend(k.toWorker, Dispatch(job));
  }

  lemma {:induction false} EnqueueSlot(k: Slot, owed: seq<Job>, job: Job)
    requires SlotOk(k, owed) && !k.failed && !k.retired && !k.ready
    ensures SlotOk(k.(queued := k.queued + [job]), owed + [job])
  {
  }

  lemma {:induction false} DispatchOk(p: Pool, id: int, ok: bool, deferred: bool)
    requires Inv(p)
    ensures Inv(DispatchJob(p, id, ok, deferred))
  {
    if id in p.live {
      var sid := p.live[id];
      var i, job := p.sessions[sid].slot, Job(sid, p.sessions[sid].dispatched);
      var p1, k := Owe(p, sid), p.slots[i];
      assert Serves(p, i, sid) && SlotOk(k, Owed(p, i)) && StopOk(k);
      OweOk(p, sid);
      if !k.ready {
        EnqueueSlot(k, Owed(p, i), job);
        SlotUpdateOk(p1, i, k.(queued := k.queued + [job]));
      } else if ok {
        PostSlot(k, Owed(p, i), job);
        SlotUpdateOk(p1, i, k.(toWorker := k.toWorker + [Dispatch(job)]));
      } else {
        FailSlotOk(p1, i, deferred);
      }
    }
  }

  lemma {:induction false} FailuresOk(p: Pool, failures: set<int>)
    requires Inv(p)
    ensures Inv(p.(failures := failures))
  {
    var q := p.(failures := failures);
    assert LinksOk(q);
    forall i | 0 <= i < |q.slots|
      ensures SlotOk(q.slots[i], Owed(q, i))
    {
      assert Owed(q, i) == Owed(p, i);
    }
  }

  /** Session `sid` ends: its slot lets it go and what it owed is resolved. */
  lemma {:induction false} DetachOk(p: Pool, q: Pool, i: nat, sid: nat)
    requires Inv(p) && Serves(p, i, sid) && OnlyAt(p, q, i, sid)
    requires q.slots[i].session.None? && q.live == p.live - {p.sessions[sid].id}
    requires q.sessions[sid] == Abandon(p.sessions[sid])
    requires StopOk(q.slots[i]) && IdleOk(q)
    ensures InvBut(q, i) && Owed(q, i) == []
    ensures SlotOk(q.slots[i], []) ==> Inv(q)
  {
    AbandonOk(sid, p.sessions[sid]);
    DetachLinks(p, q, i, sid);
    Confined(p, q, i, sid);
  }

  lemma {:induction false} ReuseIdle(p: Pool, q: Pool, i: nat, sid: nat)
    requires IdleOk(p) && Serves(p, i, sid) && OnlyAt(p, q, i, sid)
    requires q.idle == p.idle + [i] && |p.idle| < IDLE_MAX
    requires q.slots[i] == p.slots[i].(session := None) && p.slots[i].ready && p.slots[i].idle
    ensures IdleOk(q)
  {
    assert i !in p.idle;
    assert forall j :: j in q.idle <==> j in p.idle || j == i;
  }

  lemma {:induction false} RetireIdle(p: Pool, q: Pool, i: nat, sid: nat)
    requires IdleOk(p) && Serves(p, i, sid) && OnlyAt(p, q, i, sid)
    requires q.idle == p.idle && q.slots[i].retired
    ensures IdleOk(q)
  {
  }

  /** A slot that is retired while its worker can still be asked to close. */
  lemma {:induction false} RetireSlot(k: Slot, owed: seq<Job>)
    requires SlotOk(k, owed) && StopOk(k) && !k.failed && !k.retired && k.session.Some?
    ensures var r := k.(session := None, retired := true, finish := true);
            && (!k.ready ==> SlotOk(r.(terminateWhenReady := true), []) && StopOk(r.(terminateWhenReady := true)))
            && (k.ready ==> StopOk(r.(closed := true)))
            && (k.ready ==> SlotOk(r.(closed := true, toWorker := k.toWorker + [Term]), []))
            && (k.ready ==> forall d :: SlotOk(KillSlot(r, d), []) && StopOk(KillSlot(r, d)))
  {
  }

  lemma {:induction false} ReuseOk(p: Pool, p1: Pool, sid: nat)
    requires Inv(p) && Live(p, sid)
    requires p1 == p.(failures := p1.failures, live := p.live - {p.sessions[sid].id},
                      sessions := p.sessions[sid := Abandon(p.sessions[sid])])
    requires Reusable(p, p.slots[p.sessions[sid].slot], p.sessions[sid])
    ensures var i := p.sessions[sid].slot;
            Inv(p1.(slots := p.slots[i := p.slots[i].(session := None)], idle := p.idle + [i]))
  {
    var i := p.sessions[sid].slot;
    assert Serves(p, i, sid) && SlotOk(p.slots[i], Owed(p, i)) && StopOk(p.slots[i]);
    assert p.sessions[sid].pending == [] && Owed(p, i) == [];
    var q := p1.(slots := p.slots[i := p.slots[i].(session := None)], idle := p.idle + [i]);
    ReuseIdle(p, q, i, sid);
    DetachOk(p, q, i, sid);
  }

  lemma {:induction false} TerminateOk(p: Pool, id: int, ok: bool, deferred: bool)
    requires Inv(p)
    ensures Inv(Terminate(p, id, ok, deferred))
  {
    if id !in p.live {
      FailuresOk(p, p.failures - {id});
    } else {
      var sid := p.live[id];
      var s := p.sessions[sid];
      assert Serves(p, s.slot, sid);
      var p1 := p.(failures := p.failures - {id}, live := p.live - {id}, sessions := p.sessions[sid := Abandon(s)]);
      if Reusable(p, p.slots[s.slot], s) {
        ReuseOk(p, p1, sid);
      } else {
        RetireOk(p, p1, sid, ok, deferred);
      }
    }
  }

  lemma {:induction false} RetireOk(p: Pool, p1: Pool, sid: nat, ok: bool, deferred: bool)
    requires Inv(p) && Live(p, sid)
    requires p1 == p.(failures := p1.failures, live := p.live - {p.sessions[sid].id},
                      sessions := p.sessions[sid := Abandon(p.sessions[sid])])
    ensures Linked(p1) && Inv(Retire(p1, p.sessions[sid].slot, p.sessions[sid].inflight, ok, deferred))
  {
    var s := p.sessions[sid];
    var i := s.slot;
    var k := p.slots[i];
    assert Serves(p, i, sid) && SlotOk(k, Owed(p, i)) && StopOk(k);
    RetireSlot(k, Owed(p, i));
    var r := k.(session := None, retired := true, finish := true);
    var k' := if !k.ready then r.(terminateWhenReady := true)
              else if s.inflight != 0 then KillSlot(r, deferred)
              else if ok then r.(closed := true, toWorker := k.toWorker + [Term])
              else r.(closed := true);
    var q := p1.(slots := p.slots[i := k']);
    RetireIdle(p, q, i, sid);
    DetachOk(p, q, i, sid);
    if k.ready && s.inflight == 0 {
      var p2 := p1.(slots := p.slots[i := r.(closed := true)]);
      if ok {
        PostUpdated(p1, i, r.(closed := true), Term);
      } else {
        FailSlotOk(p2, i, deferred);
      }
    }
  }

  // ----- Spawning -----

  lemma {:induction false} AttachLinks(p: Pool, id: int, oneShot: bool, i: nat)
    requires LinksOk(p) && id > 0 && IsI32(id) && id !in p.live && i <= |p.slots|
    requires i < |p.slots| ==> p.slots[i].session.None? && !p.slots[i].failed && !p.slots[i].retired
    ensures LinksOk(Attach(p, id, oneShot, i))
  {
    var q := Attach(p, id, oneShot, i);
    assert Linked(q);
    assert SlotLinks(q) by {
      forall j {:trigger q.slots[j]} | 0 <= j < |q.slots| && q.slots[j].session.Some?
        ensures Serves(q, j, q.slots[j].session.value)
      {
        if j != i {
          assert Serves(p, j, p.slots[j].session.value);
        }
      }
    }
    assert HandleLinks(q) by {
      forall x {:trigger x in q.live} | x in q.live
        ensures x > 0 && q.sessions[q.live[x]].id == x && Serves(q, q.sessions[q.live[x]].slot, q.live[x])
      {
        if x != id {
          assert Serves(p, p.sessions[p.live[x]].slot, p.live[x]);
        }
      }
    }
  }

  lemma {:induction false} AttachHistories(p: Pool, id: int, oneShot: bool, i: nat)
    requires LinksOk(p) && HistoriesOk(p) && id !in p.live && i <= |p.slots|
    ensures HistoriesOk(Attach(p, id, oneShot, i))
  {
    var q := Attach(p, id, oneShot, i);
    forall sid {:trigger q.sessions[sid]} | 0 <= sid < |p.sessions|
      ensures q.sessions[sid] == p.sessions[sid] && Live(q, sid) == Live(p, sid)
    {
    }
  }

  /** Slot `i` takes up a new session; `p0` is the pool before the slot left the idle list. */
  lemma {:induction false} AttachOk(p0: Pool, p: Pool, id: int, oneShot: bool, i: nat)
    requires Inv(p0) && id > 0 && IsI32(id) && id !in p.live && p == p0.(idle := p.idle)
    requires if i == |p.slots| then p == p0 && p.idle == [] else p0.idle == p.idle + [i]
    ensures i <= |p.slots| && InvBut(Attach(p, id, oneShot, i), i) && Owed(Attach(p, id, oneShot, i), i) == []
    ensures SlotOk(Attach(p, id, oneShot, i).slots[i], [])
  {
    AttachCore(p0, p, id, oneShot, i);
    var q := Attach(p, id, oneShot, i);
    forall j | 0 <= j < |q.slots| && j != i
      ensures SlotOk(q.slots[j], Owed(q, j))
    {
      AttachOther(p0, p, id, oneShot, i, j);
    }
    AttachSelf(p0, p, id, oneShot, i);
  }

  lemma {:induction false} AttachCore(p0: Pool, p: Pool, id: int, oneShot: bool, i: nat)
    requires Core(p0) && id > 0 && IsI32(id) && id !in p.live && p == p0.(idle := p.idle)
    requires if i == |p.slots| then p == p0 && p.idle == [] else p0.idle == p.idle + [i]
    ensures i <= |p.slots| && Core(Attach(p, id, oneShot, i)) && Linked(Attach(p, id, oneShot, i))
    ensures i < |p.slots| ==> i in p0.idle && p0.slots[i].session.None?
  {
    if i != |p.slots| {
      assert p0.idle[|p.idle|] == i && i in p0.idle;
      LeavesIdle(p0.idle, p.idle, i);
    }
    AttachLinks(p, id, oneShot, i);
    AttachHistories(p, id, oneShot, i);
    AttachIdle(p0, p, id, oneShot, i);
  }

  lemma {:induction false} AttachOther(p0: Pool, p: Pool, id: int, oneShot: bool, i: nat, j: nat)
    requires Inv(p0) && p == p0.(idle := p.idle) && i <= |p.slots| && j < |p.slots| && j != i
    requires Linked(Attach(p, id, oneShot, i))
    ensures var q := Attach(p, id, oneShot, i); SlotOk(q.slots[j], Owed(q, j))
  {
    assert SameSlot(p0, Attach(p, id, oneShot, i), j);
    assert SlotOk(p0.slots[j], Owed(p0, j));
  }

  /** The slot that gets a session owes nothing yet. */
  lemma {:induction false} AttachSelf(p0: Pool, p: Pool, id: int, oneShot: bool, i: nat)
    requires Inv(p0) && p == p0.(idle := p.idle) && i <= |p.slots|
    requires i < |p.slots| ==> i in p0.idle && p0.slots[i].session.None?
    requires Linked(Attach(p, id, oneShot, i))
    ensures Owed(Attach(p, id, oneShot, i), i) == [] && SlotOk(Attach(p, id, oneShot, i).slots[i], [])
  {
    if i < |p.slots| {
      assert SlotOk(p0.slots[i], Owed(p0, i)) && Owed(p0, i) == [];
    } else {
      assert Sends([]) == [] && Replies([]) == [];
    }
  }

  lemma {:induction false} LeavesIdle(before: seq<nat>, after: seq<nat>, i: nat)
    requires before == after + [i]
    requires forall x, y :: 0 <= x < y < |before| ==> before[x] != before[y]
    ensures forall j :: j in after ==> j in before && j != i
    ensures forall j :: j in before ==> j in after || j == i
    ensures forall x :: 0 <= x < |after| ==> after[x] == before[x]
  {
    forall j | j in after
      ensures j in before && j != i
    {
      var x :| 0 <= x < |after| && after[x] == j;
      assert before[x] == j && before[|after|] == i;
    }
  }

  lemma {:induction false} AttachIdle(p0: Pool, p: Pool, id: int, oneShot: bool, i: nat)
    requires IdleOk(p0) && i <= |p.slots| && p == p0.(idle := p.idle)
    requires if i == |p.slots| then p == p0 && p.idle == [] else p0.idle == p.idle + [i]
    ensures IdleOk(Attach(p, id, oneShot, i))
  {
    if i < |p.slots| {
      LeavesIdle(p0.idle, p.idle, i);
    }
  }

  lemma {:induction false} PostUpdated(p: Pool, i: nat, k: Slot, m: ToWorker)
    requires i < |p.slots|
    ensures Post(p.(slots := p.slots[i := k]), i, m) ==
            p.(slots := p.slots[i := k.(toWorker := k.toWorker + [m])])
  {
    assert p.slots[i := k][i := k.(toWorker := k.toWorker + [m])] ==
           p.slots[i := k.(toWorker := k.toWorker + [m])];
  }

  lemma {:induction false} InitSlot(k: Slot, owed: seq<Job>)
    requires SlotOk(k, owed) && !k.failed && !k.hasWorker
    ensures SlotOk(k.(hasWorker := true, toWorker := k.toWorker + [Init]), owed)
  {
    assert k.toWorker + [Init] == [Init] && [Init][1..] == [];
  }

  lemma {:induction false} FinishSpawnOk(p: Pool, i: nat, ok: bool, deferred: bool)
    requires Inv(p) && i < |p.slots| && !p.slots[i].hasWorker && !p.slots[i].failed
    ensures Inv(FinishSpawn(p, i, ok, deferred))
  {
    var k := p.slots[i];
    assert SlotOk(k, Owed(p, i)) && StopOk(k);
    if ok {
      InitSlot(k, Owed(p, i));
      PostUpdated(p, i, k.(hasWorker := true), Init);
      SlotUpdateOk(p, i, k.(hasWorker := true, toWorker := k.toWorker + [Init]));
    } else {
      SlotUpdateOk(p, i, k.(hasWorker := true));
      FailSlotOk(p.(slots := p.slots[i := k.(hasWorker := true)]), i, deferred);
    }
  }

  lemma {:induction false} LaunchOk(p: Pool, i: nat, how: Start, ok: bool, deferred: bool)
    requires Inv(p) && i < |p.slots| && !p.slots[i].hasWorker && !p.slots[i].failed
    ensures Inv(Launch(p, i, how, ok, deferred))
  {
    match how
    case Later =>
    case Throws => FailSlotOk(p, i, deferred);
    case Now => FinishSpawnOk(p, i, ok, deferred);
  }

  lemma {:induction false} SpawnOk(p: Pool, id: int, oneShot: bool, how: Start, ok: bool, deferred: bool)
    requires Inv(p) && id >= 0 && IsI32(id) && id !in p.live
    ensures Inv(Spawn(p, id, oneShot, how, ok, deferred))
  {
    if id == 0 {
    } else if p.idle == [] {
      AttachOk(p, p, id, oneShot, |p.slots|);
      LaunchOk(Attach(p, id, oneShot, |p.slots|), |p.slots|, how, ok, deferred);
    } else {
      var last := |p.idle| - 1;
      var i := p.idle[last];
      assert i in p.idle;
      var p0 := p.(idle := p.idle[..last]);
      AttachOk(p, p0, id, oneShot, i);
      var q := Attach(p0, id, oneShot, i);
      if ok {
        ResetOk(q, i);
      } else {
        FailSlotOk(q, i, deferred);
      }
    }
  }

  lemma {:induction false} ResetSlot(k: Slot, owed: seq<Job>)
    requires SlotOk(k, owed) && !k.failed && k.ready
    ensures SlotOk(k.(toWorker := k.toWorker + [Reset]), owed)
  {
    SendsAppend(k.toWorker, Reset);
  }

  lemma {:induction false} ResetOk(q: Pool, i: nat)
    requires InvBut(q, i) && i < |q.slots| && SlotOk(q.slots[i], Owed(q, i))
    requires q.slots[i].session.Some? && q.slots[i].ready
    ensures Inv(Post(q, i, Reset))
  {
    var k := q.slots[i];
    assert StopOk(k);
    ResetSlot(k, Owed(q, i));
    SlotUpdateOk(q, i, k.(toWorker := k.toWorker + [Reset]));
  }

  // ----- Slot events -----

  lemma {:induction false} Shift(a: seq<Job>, job: Job, b: seq<Job>, c: seq<Job>)
    ensures a + ([job] + b) + c == (a + [job]) + b + c
    ensures a + [job] <= a + ([job] + b) + c
  {
  }

  lemma {:induction false} AnswerAligned(toMain: seq<ToMain>, toWorker: seq<ToWorker>, queued: seq<Job>, owed: seq<Job>, answer: ToMain)
    requires Aligned(toMain, toWorker, queued, owed) && toWorker != []
    requires answer.Error? || (answer.Reply? <==> toWorker[0].Dispatch?)
    requires answer.Reply? ==> answer.job == toWorker[0].job
    ensures Aligned(toMain + [answer], toWorker[1..], queued, owed)
  {
    RepliesAppend(toMain, answer);
    if answer.Error? {
      assert Error in toMain + [answer];
    } else if Error in toMain {
      assert Error in toMain + [answer];
    } else if answer.Reply? {
      assert Sends(toWorker) == [answer.job] + Sends(toWorker[1..]);
      Shift(Replies(toMain), answer.job, Sends(toWorker[1..]), queued);
    } else {
      assert Sends(toWorker) == Sends(toWorker[1..]);
    }
  }

  lemma {:induction false} WorkWire(k: Slot, owed: seq<Job>, throws: bool, stack: nat, idle: bool)
    requires Wire(k, owed) && k.toWorker != []
    ensures Aligned(k.toMain + Answer(k.toWorker[0], throws, stack, idle), k.toWorker[1..], k.queued, owed)
  {
    var answer := Answer(k.toWorker[0], throws, stack, idle);
    if answer == [] {
      assert k.toMain + answer == k.toMain;
      assert Sends(k.toWorker) == Sends(k.toWorker[1..]);
    } else {
      assert answer == [answer[0]];
      AnswerAligned(k.toMain, k.toWorker, k.queued, owed, answer[0]);
    }
  }

  lemma {:induction false} WorkSlot(k: Slot, owed: seq<Job>, throws: bool, stack: nat, idle: bool)
    requires SlotOk(k, owed) && k.toWorker != []
    ensures SlotOk(k.(toWorker := k.toWorker[1..],
                      toMain := k.toMain + Answer(k.toWorker[0], throws, stack, idle)), owed)
  {
    if !k.failed && !k.retired {
      WorkWire(k, owed, throws, stack, idle);
    }
  }

  lemma {:induction false} WorkOk(p: Pool, i: nat, throws: bool, stack: nat, idle: bool)
    requires Inv(p) && i < |p.slots|
    ensures Inv(SlotStep(p, i, Work(throws, stack, idle), false))
  {
    var k := p.slots[i];
    if k.toWorker != [] {
      assert SlotOk(k, Owed(p, i)) && StopOk(k);
      WorkSlot(k, Owed(p, i), throws, stack, idle);
      SlotUpdateOk(p, i, k.(toWorker := k.toWorker[1..],
                            toMain := k.toMain + Answer(k.toWorker[0], throws, stack, idle)));
    }
  }

  lemma {:induction false} ReadySlot(k: Slot, owed: seq<Job>, stack: nat)
    requires SlotOk(k, owed) && StopOk(k) && !k.failed && k.toMain != [] && k.toMain[0] == Ready(stack)
    ensures !k.ready && k.toWorker == [] && k.toMain[1..] == []
    ensures StopOk(k.(toMain := k.toMain[1..], ready := true, stack := stack, bootTimer := false))
    ensures k.terminateWhenReady == k.retired
    ensures !k.retired ==> owed == k.queued
    ensures k.retired ==> forall d ::
              var r := KillSlot(k.(toMain := k.toMain[1..], ready := true, stack := stack, bootTimer := false,
                                   queued := []), d);
              SlotOk(r, owed) && StopOk(r)
  {
    assert k.toMain == [Ready(stack)] && k.toMain[1..] == [];
    if !k.retired {
      assert Replies(k.toMain) == [] && Sends(k.toWorker) == [];
    }
  }

  /** What is left on a slot's channels once its oldest message has been taken off. */
  lemma {:induction false} PopAligned(toMain: seq<ToMain>, toWorker: seq<ToWorker>, queued: seq<Job>, owed: seq<Job>)
    requires Aligned(toMain, toWorker, queued, owed) && toMain != [] && !toMain[0].Error?
    ensures toMain[0].Reply? ==> owed != [] && owed[0] == toMain[0].job
    ensures Aligned(toMain[1..], toWorker, queued, if toMain[0].Reply? then owed[1..] else owed)
  {
    var m, rest := toMain[0], toMain[1..];
    if m.Reply? {
      assert Replies(toMain) == [m.job] + Replies(rest);
      assert Replies(toMain)[0] == m.job && Replies(toMain)[1..] == Replies(rest);
      if Error !in rest {
        assert toMain == [m] + rest;
        assert owed == [m.job] + (Replies(rest) + Sends(toWorker) + queued);
      }
    } else {
      assert Replies(toMain) == Replies(rest) && toMain == [m] + rest;
    }
  }

  lemma {:induction false} FlushedSlot(k: Slot, owed: seq<Job>)
    requires !k.failed && !k.retired && k.killed == Running && !k.terminateWhenReady && !k.closed
    requires k.hasWorker && k.ready && !k.bootTimer && k.toMain == [] && k.toWorker == [] && owed == k.queued
    ensures SlotOk(k.(queued := [], toWorker := k.toWorker + Dispatches(k.queued)), owed)
  {
    SendsDispatches(k.queued);
    assert k.toWorker + Dispatches(k.queued) == Dispatches(k.queued);
  }

  /** Whatever the message, taking it off the channel disturbs at most slot `i`. */
  lemma {:induction false} PopOk(p: Pool, i: nat)
    requires Inv(p) && i < |p.slots| && p.slots[i].toMain != []
    ensures InvBut(Pop(p, i), i) && Owed(Pop(p, i), i) == Owed(p, i)
    ensures p.slots[i].failed ==> Inv(Pop(p, i))
  {
    var k := p.slots[i];
    assert StopOk(k);
    SlotUpdateOk(p, i, k.(toMain := k.toMain[1..]));
  }

  lemma {:induction false} ReadyOk(p: Pool, i: nat, accepts: nat, deferred: bool)
    requires Inv(p) && i < |p.slots| && !p.slots[i].failed
    requires p.slots[i].toMain != [] && p.slots[i].toMain[0].Ready?
    ensures Linked(Pop(p, i)) && Inv(OnReady(Pop(p, i), i, p.slots[i].toMain[0].stack, accepts, deferred))
  {
    var k := p.slots[i];
    var stack := k.toMain[0].stack;
    assert SlotOk(k, Owed(p, i)) && StopOk(k);
    assert i !in p.idle;
    ReadySlot(k, Owed(p, i), stack);
    PopOk(p, i);
    var r := k.(toMain := k.toMain[1..], ready := true, stack := stack, bootTimer := false);
    if k.retired {
      SlotUpdateOk(Pop(p, i), i, KillSlot(r.(queued := []), deferred));
    } else {
      FlushOk(Pop(p, i), i, r, accepts, deferred);
    }
  }

  lemma {:induction false} FlushOk(p: Pool, i: nat, r: Slot, accepts: nat, deferred: bool)
    requires InvBut(p, i) && i < |p.slots| && i !in p.idle
    requires r.session == p.slots[i].session && !p.slots[i].failed && !p.slots[i].retired
    requires !r.failed && !r.retired && r.killed == Running && !r.terminateWhenReady && !r.closed
    requires r.hasWorker && r.ready && !r.bootTimer && r.toMain == [] && r.toWorker == []
    requires r.queued == Owed(p, i) && StopOk(r)
    ensures Linked(p.(slots := p.slots[i := r]))
    ensures Inv(Flush(p.(slots := p.slots[i := r]), i, accepts, deferred))
  {
    SlotUpdateOk(p, i, r);
    var p1 := p.(slots := p.slots[i := r]);
    var sent := if accepts >= |r.queued| then r.queued else r.queued[..accepts];
    var f := r.(queued := [], toWorker := r.toWorker + Dispatches(sent));
    if accepts >= |r.queued| {
      FlushedSlot(r, Owed(p, i));
    }
    SlotUpdateOk(p1, i, f);
    if accepts < |r.queued| {
      FailSlotOk(p1.(slots := p1.slots[i := f]), i, deferred);
    }
  }

  lemma {:induction false} SettleOk(sid: nat, s: Session)
    requires HistoryOk(sid, s) && s.pending != [] && s.inflight == |s.pending|
    ensures HistoryOk(sid, Settle(s, Job(sid, s.pending[0])))
    ensures Settle(s, Job(sid, s.pending[0])).inflight == |Settle(s, Job(sid, s.pending[0])).pending|
    ensures OwedBy(sid, Settle(s, Job(sid, s.pending[0]))) == OwedBy(sid, s)[1..]
  {
  }

  /** The oldest reply of a slot that serves session `sid` is for its oldest pending dispatch. */
  lemma {:induction false} ReplyMatches(p: Pool, i: nat)
    requires Inv(p) && i < |p.slots| && !p.slots[i].failed && p.slots[i].session.Some?
    requires p.slots[i].toMain != [] && p.slots[i].toMain[0].Reply?
    ensures var sid := p.slots[i].session.value;
            && Serves(p, i, sid) && p.sessions[sid].pending != []
            && p.slots[i].toMain[0].job == Job(sid, p.sessions[sid].pending[0])
            && SlotOk(p.slots[i].(toMain := p.slots[i].toMain[1..]), Owed(p, i)[1..])
  {
    var k := p.slots[i];
    assert Serves(p, i, k.session.value) && SlotOk(k, Owed(p, i));
    PopAligned(k.toMain, k.toWorker, k.queued, Owed(p, i));
    assert Owed(p, i)[0] == k.toMain[0].job;
  }

  lemma {:induction false} ReceiveBut(p: Pool, i: nat, sid: nat, idle: bool)
    requires InvBut(p, i) && Serves(p, i, sid) && p.sessions[sid].pending != []
    ensures var q := Receive(p, i, Job(sid, p.sessions[sid].pending[0]), idle);
            InvBut(q, i) && Owed(q, i) == Owed(p, i)[1..]
  {
    var q := Receive(p, i, Job(sid, p.sessions[sid].pending[0]), idle);
    SettleOk(sid, p.sessions[sid]);
    assert StopOk(p.slots[i]) && OnlyAt(p, q, i, sid);
    KeepLinks(p, q, i, sid);
    KeepIdle(p, q, i, sid);
    Confined(p, q, i, sid);
  }

  /** A delivered reply settles the dispatch it was made for. */
  lemma {:induction false} ReplySettles(p: Pool, i: nat, idle: bool)
    requires Inv(p) && i < |p.slots| && !p.slots[i].failed && p.slots[i].session.Some?
    requires p.slots[i].toMain != [] && p.slots[i].toMain[0].Reply?
    ensures Linked(Pop(p, i)) && Inv(Receive(Pop(p, i), i, p.slots[i].toMain[0].job, idle))
  {
    ReplyMatches(p, i);
    PopOk(p, i);
    ReceiveBut(Pop(p, i), i, p.slots[i].session.value, idle);
  }

  lemma {:induction false} StrayReplyOk(p: Pool, i: nat, idle: bool)
    requires Inv(p) && i < |p.slots| && !p.slots[i].failed && p.slots[i].session.None?
    requires p.slots[i].toMain != [] && p.slots[i].toMain[0].Reply?
    ensures Inv(Pop(p, i).(slots := Pop(p, i).slots[i := Pop(p, i).slots[i].(idle := idle)]))
  {
    var k := p.slots[i];
    assert SlotOk(k, Owed(p, i)) && StopOk(k);
    assert k.retired by {
      if !k.retired {
        PopAligned(k.toMain, k.toWorker, k.queued, Owed(p, i));
      }
    }
    PopOk(p, i);
    SlotUpdateOk(Pop(p, i), i, k.(toMain := k.toMain[1..], idle := idle));
  }

  lemma {:induction false} ReplyOk(p: Pool, i: nat, ok: bool, deferred: bool)
    requires Inv(p) && i < |p.slots| && !p.slots[i].failed
    requires p.slots[i].toMain != [] && p.slots[i].toMain[0].Reply?
    ensures Linked(Pop(p, i))
    ensures Inv(OnReply(Pop(p, i), i, p.slots[i].toMain[0].job, p.slots[i].toMain[0].idle, ok, deferred))
  {
    var k, m := p.slots[i], p.slots[i].toMain[0];
    PopOk(p, i);
    if k.session.None? {
      StrayReplyOk(p, i, m.idle);
    } else {
      ReplySettles(p, i, m.idle);
      var s := p.sessions[k.session.value];
      if s.oneShot {
        TerminateOk(Receive(Pop(p, i), i, m.job, m.idle), s.id, ok, deferred);
      }
    }
  }

  lemma {:induction false} ClosedSlot(k: Slot, owed: seq<Job>, deferred: bool)
    requires SlotOk(k, owed) && StopOk(k) && !k.failed && k.toMain != [] && k.toMain[0].Closed?
    ensures var k0 := k.(toMain := k.toMain[1..]);
            var k1 := if k.closed then KillSlot(k0, deferred) else k0;
            SlotOk(k1, owed) && StopOk(k1)
  {
    if !k.retired {
      PopAligned(k.toMain, k.toWorker, k.queued, owed);
    }
  }

  lemma {:induction false} ClosedOk(p: Pool, i: nat, deferred: bool)
    requires Inv(p) && i < |p.slots| && !p.slots[i].failed
    requires p.slots[i].toMain != [] && p.slots[i].toMain[0].Closed?
    ensures Inv(OnClosed(Pop(p, i), i, deferred))
  {
    var k := p.slots[i];
    assert SlotOk(k, Owed(p, i)) && StopOk(k);
    ClosedSlot(k, Owed(p, i), deferred);
    PopOk(p, i);
    if k.closed {
      SlotUpdateOk(Pop(p, i), i, KillSlot(k.(toMain := k.toMain[1..]), deferred));
    }
  }

  lemma {:induction false} DeliverOk(p: Pool, i: nat, accepts: nat, ok: bool, deferred: bool)
    requires Inv(p) && i < |p.slots|
    ensures Inv(SlotStep(p, i, Deliver(accepts, ok), deferred))
  {
    var k := p.slots[i];
    if k.toMain != [] {
      PopOk(p, i);
      if !k.failed {
        match k.toMain[0]
        case Ready(_) => ReadyOk(p, i, accepts, deferred);
        case Reply(_, _) => ReplyOk(p, i, ok, deferred);
        case Closed => ClosedOk(p, i, deferred);
        case Error => FailSlotOk(Pop(p, i), i, deferred);
      }
    }
  }

  lemma {:induction false} StopDoneOk(p: Pool, i: nat)
    requires Inv(p) && i < |p.slots| && p.slots[i].killed == Stopping
    ensures Inv(p.(slots := p.slots[i := ReleaseStack(p.slots[i].(killed := Stopped))]))
  {
    var k := p.slots[i];
    assert SlotOk(k, Owed(p, i)) && StopOk(k);
    SlotUpdateOk(p, i, ReleaseStack(k.(killed := Stopped)));
  }

  lemma {:induction false} FinishOk(p: Pool, i: nat)
    requires Inv(p) && i < |p.slots| && p.slots[i].killed == Stopped
    ensures Inv(p.(slots := p.slots[i := p.slots[i].(finish := false)]))
  {
    var k := p.slots[i];
    assert SlotOk(k, Owed(p, i)) && StopOk(k);
    SlotUpdateOk(p, i, k.(finish := false));
  }

  // ----- Every step, every run -----

  lemma {:induction false} SlotStepOk(p: Pool, i: nat, what: SlotEvent, deferred: bool)
    requires Inv(p) && i < |p.slots|
    ensures Inv(SlotStep(p, i, what, deferred))
  {
    match what
    case Created(how, ok) =>
      if !p.slots[i].hasWorker && !p.slots[i].failed {
        LaunchOk(p, i, how, ok, deferred);
      }
    case Deliver(accepts, ok) => DeliverOk(p, i, accepts, ok, deferred);
    case Work(throws, stack, idle) => WorkOk(p, i, throws, stack, idle);
    case Fault => FailSlotOk(p, i, deferred);
    case StopDone =>
      if p.slots[i].killed == Stopping {
        StopDoneOk(p, i);
      }
    case Finish =>
      if p.slots[i].killed == Stopped {
        FinishOk(p, i);
      }
  }

  lemma {:induction false} StepOk(p: Pool, e: Event)
    requires Inv(p)
    ensures Inv(Step(p, e))
  {
    match e
    case EvSpawn(id, oneShot, how, ok, deferred) =>
      if id >= 0 && IsI32(id) && id !in p.live {
        SpawnOk(p, id, oneShot, how, ok, deferred);
      }
    case EvDispatch(id, ok, deferred) => DispatchOk(p, id, ok, deferred);
    case EvTerminate(id, ok, deferred) => TerminateOk(p, id, ok, deferred);
    case EvSlot(i, what, deferred) =>
      if i < |p.slots| {
        SlotStepOk(p, i, what, deferred);
      }
  }

  const START := Pool(map[], [], [], [], {})

  function Run(es: seq<Event>): (p: Pool)
    ensures Linked(p)
    decreases |es|, 0
  {
    if es == [] then START
    else
      var before := Run(es[..|es| - 1]);
      RunOk(es[..|es| - 1]);
      StepOk(before, es[|es| - 1]);
      Step(before, es[|es| - 1])
  }

  /** The invariant holds in every run. */
  lemma {:induction false} RunOk(es: seq<Event>)
    ensures Inv(Run(es))
    decreases |es|, 1
  {
    if es != [] {
      RunOk(es[..|es| - 1]);
      StepOk(Run(es[..|es| - 1]), es[|es| - 1]);
    }
  }

  lemma {:induction false} RunSnoc(es: seq<Event>, more: seq<Event>)
    requires more != []
    ensures var n := |more| - 1;
            Run(es + more) == Step(Run(es + more[..n]), more[n])
  {
    var n := |more| - 1;
    assert (es + more)[..|es + more| - 1] == es + more[..n];
  }

  /** One more event takes a good pool to a good pool. */
  lemma {:induction false} RunStep(es: seq<Event>, e: Event)
    ensures Inv(Run(es)) && Run(es + [e]) == Step(Run(es), e) && Inv(Run(es + [e]))
  {
    RunOk(es);
    RunOk(es + [e]);
    assert es + [e][..0] == es;
    RunSnoc(es, [e]);
  }

  /** Reply routing: in every run a dispatch resolved by a reply got the reply computed for it,
  replies come in dispatch order, and the next reply to be handled on a slot is the one its
  session has waited for longest, so no earlier session's reply reaches a later session. */
  lemma {:induction false} RepliesAreRouted(es: seq<Event>, sid: nat, n: nat)
    requires sid < |Run(es).sessions|
    ensures var s := Run(es).sessions[sid];
            n < |s.done| && s.done[n].outcome.Replied? ==> s.done[n] == Settlement(n, Replied(Job(sid, n)))
    ensures var p := Run(es);
            forall i {:trigger p.slots[i]} :: 0 <= i < |p.slots| && p.slots[i].session == Some(sid) && Replies(p.slots[i].toMain) != [] ==>
              p.sessions[sid].pending != [] && Replies(p.slots[i].toMain)[0] == Job(sid, p.sessions[sid].pending[0])
  {
    RunOk(es);
    var p := Run(es);
    forall i {:trigger p.slots[i]} | 0 <= i < |p.slots| && p.slots[i].session == Some(sid) && Replies(p.slots[i].toMain) != []
      ensures p.sessions[sid].pending != [] && Replies(p.slots[i].toMain)[0] == Job(sid, p.sessions[sid].pending[0])
    {
      assert SlotOk(p.slots[i], Owed(p, i)) && Serves(p, i, sid);
      assert Owed(p, i)[0] == Replies(p.slots[i].toMain)[0];
    }
  }

  /** Exactly-once settlement: dispatch number `n` of a session is settled once and for all as entry
  `n` of its settlements, or waits exactly once in the pending list of a live session whose slot
  has not failed; a slot that has not booted has its boot timer armed. */
  lemma {:induction false} SettledOnceOrPending(es: seq<Event>, sid: nat, n: nat)
    requires sid < |Run(es).sessions| && n < Run(es).sessions[sid].dispatched
    ensures var p := Run(es);
            var s := p.sessions[sid];
            if n < |s.done| then
              && s.done[n].number == n && n !in s.pending
              && (forall x :: 0 <= x < |s.done| && s.done[x].number == n ==> x == n)
            else
              && Live(p, sid) && s.slot < |p.slots| && p.slots[s.slot].session == Some(sid) && !p.slots[s.slot].failed
              && (p.slots[s.slot].ready || p.slots[s.slot].bootTimer)
              && s.inflight == |s.pending| && n - |s.done| < |s.pending| && s.pending[n - |s.done|] == n
              && (forall x :: 0 <= x < |s.pending| && s.pending[x] == n ==> x == n - |s.done|)
              && (forall x :: 0 <= x < |s.done| ==> s.done[x].number != n)
  {
    RunOk(es);
    var p := Run(es);
    var s := p.sessions[sid];
    assert HistoryOk(sid, s);
    if n >= |s.done| {
      assert Live(p, sid) && Serves(p, s.slot, sid);
      assert SlotOk(p.slots[s.slot], Owed(p, s.slot));
    }
  }

  // ----- Settlements are final, and only a reply answers -----

  /** What is settled stays settled in the same way, and dispatches are not forgotten. */
  predicate Later(s: Session, t: Session) {
    s.done <= t.done && s.dispatched <= t.dispatched && s.id == t.id && s.slot == t.slot && s.oneShot == t.oneShot
  }

  /** Whatever has been settled in between was settled with the empty string. */
  ghost predicate Quiet(s: Session, t: Session) {
    Later(s, t) && forall x :: |s.done| <= x < |t.done| ==> t.done[x].outcome.Unanswered?
  }

  /** The next dispatch was resolved with the reply made for `job`, anything after it with the empty string. */
  ghost predicate Answered(s: Session, t: Session, job: Job) {
    && Later(s, t) && |s.done| < |t.done| && t.done[|s.done|] == Settlement(|s.done|, Replied(job))
    && forall x :: |s.done| < x < |t.done| ==> t.done[x].outcome.Unanswered?
  }

  ghost predicate PoolLater(p: Pool, q: Pool) {
    && |p.sessions| <= |q.sessions|
    && forall sid {:trigger p.sessions[sid]} {:trigger q.sessions[sid]} :: 0 <= sid < |p.sessions| ==>
         Later(p.sessions[sid], q.sessions[sid])
  }

  ghost predicate PoolQuiet(p: Pool, q: Pool) {
    && |p.sessions| <= |q.sessions|
    && forall sid {:trigger p.sessions[sid]} {:trigger q.sessions[sid]} :: 0 <= sid < |p.sessions| ==>
         Quiet(p.sessions[sid], q.sessions[sid])
  }

  lemma {:induction false} LaterTrans(p: Pool, q: Pool, r: Pool)
    requires PoolLater(p, q) && PoolLater(q, r)
    ensures PoolLater(p, r)
  {
    forall sid | 0 <= sid < |p.sessions| ensures Later(p.sessions[sid], r.sessions[sid]) {
      assert Later(p.sessions[sid], q.sessions[sid]) && Later(q.sessions[sid], r.sessions[sid]);
    }
  }

  lemma {:induction false} QuietTrans(p: Pool, q: Pool, r: Pool)
    requires PoolQuiet(p, q) && PoolQuiet(q, r)
    ensures PoolQuiet(p, r)
  {
    forall sid | 0 <= sid < |p.sessions| ensures Quiet(p.sessions[sid], r.sessions[sid]) {
      assert Quiet(p.sessions[sid], q.sessions[sid]) && Quiet(q.sessions[sid], r.sessions[sid]);
    }
  }

  lemma {:induction false} FailQuiet(p: Pool, i: nat, deferred: bool)
    requires Linked(p) && i < |p.slots|
    ensures PoolQuiet(p, FailSlot(p, i, deferred))
  {
  }

  lemma {:induction false} SendQuiet(p: Pool, i: nat, m: ToWorker, ok: bool, deferred: bool)
    requires Linked(p) && i < |p.slots|
    ensures PoolQuiet(p, Send(p, i, m, ok, deferred))
  {
    FailQuiet(p, i, deferred);
  }

  lemma {:induction false} DispatchQuiet(p: Pool, id: int, ok: bool, deferred: bool)
    requires Linked(p)
    ensures PoolQuiet(p, DispatchJob(p, id, ok, deferred))
  {
    if id in p.live {
      var sid := p.live[id];
      var i, p1 := p.sessions[sid].slot, Owe(p, sid);
      assert PoolQuiet(p, p1) && Linked(p1);
      if p.slots[i].ready {
        var m := Dispatch(Job(sid, p.sessions[sid].dispatched));
        SendQuiet(p1, i, m, ok, deferred);
        QuietTrans(p, p1, Send(p1, i, m, ok, deferred));
      }
    }
  }

  lemma {:induction false} RetireQuiet(p: Pool, i: nat, inflight: int, ok: bool, deferred: bool)
    requires Linked(p) && i < |p.slots|
    ensures PoolQuiet(p, Retire(p, i, inflight, ok, deferred))
  {
    var k := p.slots[i].(session := None, retired := true, finish := true);
    if k.ready && inflight == 0 {
      SendQuiet(p.(slots := p.slots[i := k.(closed := true)]), i, Term, ok, deferred);
    }
  }

  lemma {:induction false} TerminateQuiet(p: Pool, id: int, ok: bool, deferred: bool)
    requires Linked(p)
    ensures PoolQuiet(p, Terminate(p, id, ok, deferred))
  {
    if id in p.live {
      var sid := p.live[id];
      var s := p.sessions[sid];
      var p1 := p.(failures := p.failures - {id}, live := p.live - {id}, sessions := p.sessions[sid := Abandon(s)]);
      assert PoolQuiet(p, p1);
      if !p.slots[s.slot].failed && !Reusable(p, p.slots[s.slot], s) {
        RetireQuiet(p1, s.slot, s.inflight, ok, deferred);
        QuietTrans(p, p1, Retire(p1, s.slot, s.inflight, ok, deferred));
      }
    }
  }

  lemma {:induction false} LaunchQuiet(p: Pool, i: nat, how: Start, ok: bool, deferred: bool)
    requires Linked(p) && i < |p.slots|
    ensures PoolQuiet(p, Launch(p, i, how, ok, deferred))
  {
    FailQuiet(p, i, deferred);
    SendQuiet(p.(slots := p.slots[i := p.slots[i].(hasWorker := true)]), i, Init, ok, deferred);
  }

  lemma {:induction false} AttachQuiet(p: Pool, id: int, oneShot: bool, i: nat)
    requires Linked(p) && IsI32(id) && i <= |p.slots|
    ensures PoolQuiet(p, Attach(p, id, oneShot, i)) && Linked(Attach(p, id, oneShot, i))
  {
  }

  lemma {:induction false} SpawnQuiet(p: Pool, id: int, oneShot: bool, how: Start, ok: bool, deferred: bool)
    requires Linked(p) && IsI32(id)
    ensures PoolQuiet(p, Spawn(p, id, oneShot, how, ok, deferred))
  {
    if id == 0 {
    } else if p.idle == [] {
      var q := Attach(p, id, oneShot, |p.slots|);
      AttachQuiet(p, id, oneShot, |p.slots|);
      LaunchQuiet(q, |p.slots|, how, ok, deferred);
      QuietTrans(p, q, Launch(q, |p.slots|, how, ok, deferred));
    } else {
      ReuseQuiet(p, id, oneShot, how, ok, deferred);
    }
  }

  lemma {:induction false} ReuseQuiet(p: Pool, id: int, oneShot: bool, how: Start, ok: bool, deferred: bool)
    requires Linked(p) && IsI32(id) && id != 0 && p.idle != []
    ensures PoolQuiet(p, Spawn(p, id, oneShot, how, ok, deferred))
  {
    var last := |p.idle| - 1;
    assert p.idle[last] in p.idle && forall i :: i in p.idle[..last] ==> i in p.idle;
    var p0 := p.(idle := p.idle[..last]);
    var q := Attach(p0, id, oneShot, p.idle[last]);
    AttachQuiet(p0, id, oneShot, p.idle[last]);
    SendQuiet(q, p.idle[last], Reset, ok, deferred);
    QuietTrans(p, q, Send(q, p.idle[last], Reset, ok, deferred));
  }

  lemma {:induction false} ReadyQuiet(p: Pool, i: nat, stack: nat, accepts: nat, deferred: bool)
    requires Linked(p) && i < |p.slots|
    ensures PoolQuiet(p, OnReady(p, i, stack, accepts, deferred))
  {
    var k := p.slots[i].(ready := true, stack := stack, bootTimer := false);
    if !k.terminateWhenReady && accepts < |k.queued| {
      FailQuiet(p.(slots := p.slots[i := k.(queued := [], toWorker := k.toWorker + Dispatches(k.queued[..accepts]))]), i, deferred);
      assert p.slots[i := k][i := k.(queued := [], toWorker := k.toWorker + Dispatches(k.queued[..accepts]))] ==
             p.slots[i := k.(queued := [], toWorker := k.toWorker + Dispatches(k.queued[..accepts]))];
    }
  }

  lemma {:induction false} SlotStepQuiet(p: Pool, i: nat, what: SlotEvent, deferred: bool)
    requires Linked(p) && i < |p.slots|
    requires what.Deliver? && p.slots[i].toMain != [] ==> !p.slots[i].toMain[0].Reply?
    ensures PoolQuiet(p, SlotStep(p, i, what, deferred))
  {
    match what
    case Created(how, ok) => LaunchQuiet(p, i, how, ok, deferred);
    case Deliver(accepts, ok) =>
      if p.slots[i].toMain != [] {
        match p.slots[i].toMain[0]
        case Ready(stack) => ReadyQuiet(Pop(p, i), i, stack, accepts, deferred);
        case Error => FailQuiet(Pop(p, i), i, deferred);
        case Closed =>
      }
    case Fault => FailQuiet(p, i, deferred);
    case _ =>
  }

  /** The event hands the main thread a reply from the worker of slot `i`. */
  predicate DeliversReply(p: Pool, i: nat, e: Event) {
    && e.EvSlot? && e.what.Deliver? && i == e.slot < |p.slots|
    && p.slots[i].toMain != [] && p.slots[i].toMain[0].Reply?
  }

  lemma {:induction false} StepQuiet(p: Pool, e: Event)
    requires Linked(p) && (e.EvSlot? ==> !DeliversReply(p, e.slot, e))
    ensures PoolQuiet(p, Step(p, e))
  {
    match e
    case EvSpawn(id, oneShot, how, ok, deferred) =>
      if IsI32(id) {
        SpawnQuiet(p, id, oneShot, how, ok, deferred);
      }
    case EvDispatch(id, ok, deferred) => DispatchQuiet(p, id, ok, deferred);
    case EvTerminate(id, ok, deferred) => TerminateQuiet(p, id, ok, deferred);
    case EvSlot(i, what, deferred) =>
      if i < |p.slots| {
        SlotStepQuiet(p, i, what, deferred);
      }
  }

  lemma {:induction false} ReplyLater(p: Pool, i: nat, job: Job, idle: bool, ok: bool, deferred: bool)
    requires Linked(p) && i < |p.slots|
    ensures PoolLater(p, OnReply(p, i, job, idle, ok, deferred))
  {
    if p.slots[i].session.Some? {
      var p1 := Receive(p, i, job, idle);
      assert PoolLater(p, p1) && Linked(p1);
      var id := p.sessions[p.slots[i].session.value].id;
      TerminateQuiet(p1, id, ok, deferred);
      LaterTrans(p, p1, Terminate(p1, id, ok, deferred));
    }
  }

  lemma {:induction false} StepLater(p: Pool, e: Event)
    requires Linked(p)
    ensures PoolLater(p, Step(p, e))
  {
    if e.EvSlot? && DeliversReply(p, e.slot, e) {
      var i, m := e.slot, p.slots[e.slot].toMain[0];
      ReplyLater(Pop(p, i), i, m.job, m.idle, e.what.ok, e.deferred);
    } else {
      StepQuiet(p, e);
    }
  }

  /** The reply made for `job` resolves the dispatch that has waited longest. */
  lemma {:induction false} ReceiveAnswers(p: Pool, i: nat, sid: nat, job: Job, idle: bool)
    requires Linked(p) && i < |p.slots| && p.slots[i].session == Some(sid)
    requires HistoryOk(sid, p.sessions[sid]) && p.sessions[sid].pending != []
    ensures Linked(Receive(p, i, job, idle))
    ensures Answered(p.sessions[sid], Receive(p, i, job, idle).sessions[sid], job)
    ensures forall x :: 0 <= x < |p.sessions| && x != sid ==> Receive(p, i, job, idle).sessions[x] == p.sessions[x]
  {
  }

  lemma {:induction false} AnsweredQuietly(p: Pool, p1: Pool, q: Pool, sid: nat, job: Job)
    requires PoolQuiet(p1, q) && |p1.sessions| == |p.sessions| && sid < |p.sessions|
    requires Answered(p.sessions[sid], p1.sessions[sid], job)
    requires forall x :: 0 <= x < |p.sessions| && x != sid ==> p1.sessions[x] == p.sessions[x]
    ensures |p.sessions| <= |q.sessions| && Answered(p.sessions[sid], q.sessions[sid], job)
    ensures forall x :: 0 <= x < |p.sessions| && x != sid ==> Quiet(p.sessions[x], q.sessions[x])
  {
    assert Quiet(p1.sessions[sid], q.sessions[sid]);
    forall x | 0 <= x < |p.sessions| && x != sid
      ensures Quiet(p.sessions[x], q.sessions[x])
    {
      assert Quiet(p1.sessions[x], q.sessions[x]);
    }
  }

  /** A delivered reply answers the dispatch it was made for, which is the oldest one its session still
  waits for; every other settlement of the event is with the empty string. */
  lemma {:induction false} ReplyAnswers(p: Pool, i: nat, accepts: nat, ok: bool, deferred: bool)
    requires Inv(p) && i < |p.slots| && !p.slots[i].failed && p.slots[i].session.Some?
    requires p.slots[i].toMain != [] && p.slots[i].toMain[0].Reply?
    ensures var q, sid, job := Step(p, EvSlot(i, Deliver(accepts, ok), deferred)), p.slots[i].session.value,
                               p.slots[i].toMain[0].job;
            && |p.sessions| <= |q.sessions|
            && job == Job(sid, |p.sessions[sid].done|) && Answered(p.sessions[sid], q.sessions[sid], job)
            && (forall x :: 0 <= x < |p.sessions| && x != sid ==> Quiet(p.sessions[x], q.sessions[x]))
  {
    var sid, m, p0 := p.slots[i].session.value, p.slots[i].toMain[0], Pop(p, i);
    ReplyMatches(p, i);
    ReceiveAnswers(p0, i, sid, m.job, m.idle);
    var p1 := Receive(p0, i, m.job, m.idle);
    if p.sessions[sid].oneShot {
      TerminateQuiet(p1, p.sessions[sid].id, ok, deferred);
      AnsweredQuietly(p, p1, Terminate(p1, p.sessions[sid].id, ok, deferred), sid, m.job);
    }
  }

  /** A reply that no session waits for settles nothing. */
  lemma {:induction false} StrayReplyQuiet(p: Pool, i: nat, accepts: nat, ok: bool, deferred: bool)
    requires Inv(p) && i < |p.slots| && (p.slots[i].failed || p.slots[i].session.None?)
    requires p.slots[i].toMain != [] && p.slots[i].toMain[0].Reply?
    ensures PoolQuiet(p, Step(p, EvSlot(i, Deliver(accepts, ok), deferred)))
  {
  }

  /** In every run, what a delivered message does to the settlements: if it is a reply for a session, the
  oldest dispatch of that session, which is the one the reply was made for, is resolved with it; nothing
  else that happens in any event resolves a dispatch with a reply. */
  lemma {:induction false} DeliveredReplyResolves(es: seq<Event>, e: Event)
    ensures |Run(es).sessions| <= |Run(es + [e]).sessions|
    ensures forall sid {:trigger Run(es).sessions[sid]} :: 0 <= sid < |Run(es).sessions| ==>
              var p, s, t := Run(es), Run(es).sessions[sid], Run(es + [e]).sessions[sid];
              if e.EvSlot? && DeliversReply(p, e.slot, e) && p.slots[e.slot].session == Some(sid) && !p.slots[e.slot].failed
              then p.slots[e.slot].toMain[0].job == Job(sid, |s.done|) && Answered(s, t, Job(sid, |s.done|))
              else Quiet(s, t)
  {
    var p := Run(es);
    RunStep(es, e);
    if !e.EvSlot? || !DeliversReply(p, e.slot, e) {
      StepQuiet(p, e);
    } else if p.slots[e.slot].failed || p.slots[e.slot].session.None? {
      StrayReplyQuiet(p, e.slot, e.what.accepts, e.what.ok, e.deferred);
    } else {
      ReplyAnswers(p, e.slot, e.what.accepts, e.what.ok, e.deferred);
    }
  }

  /** Whatever follows, a session stays on record with the dispatches it was given, and a dispatch that has
  been settled is neither settled again nor settled otherwise. */
  lemma {:induction false} SettlementsAreFinal(es: seq<Event>, more: seq<Event>)
    ensures PoolLater(Run(es), Run(es + more))
    decreases |more|
  {
    if more == [] {
      assert es + more == es;
    } else {
      var n := |more| - 1;
      var p := Run(es + more[..n]);
      SettlementsAreFinal(es, more[..n]);
      StepLater(p, more[n]);
      RunSnoc(es, more);
      LaterTrans(Run(es), p, Step(p, more[n]));
    }
  }

  /** A dispatch that is settled in a run is settled at the same place and with the same outcome in every
  continuation of the run, and nowhere else. */
  lemma {:induction false} SettledOnceAndForAll(es: seq<Event>, more: seq<Event>, sid: nat, n: nat)
    requires sid < |Run(es).sessions| && n < |Run(es).sessions[sid].done|
    ensures sid < |Run(es + more).sessions|
    ensures var s, t := Run(es).sessions[sid], Run(es + more).sessions[sid];
            && n < |t.done| && t.done[n] == s.done[n] && t.done[n].number == n && n !in t.pending
            && (forall x :: 0 <= x < |t.done| && t.done[x].number == n ==> x == n)
  {
    SettlementsAreFinal(es, more);
    RunOk(es + more);
    assert Later(Run(es).sessions[sid], Run(es + more).sessions[sid]);
    assert HistoryOk(sid, Run(es + more).sessions[sid]);
  }

  /** Slot partition: a slot that has not failed serves the live session that points back to it,
  or is on the idle list once and can serve at once, or is retired; never two of these. */
  lemma {:induction false} SlotsArePartitioned(es: seq<Event>, i: nat)
    requires i < |Run(es).slots| && !Run(es).slots[i].failed
    ensures var p := Run(es);
            var k := p.slots[i];
            && (k.session.Some? <==> !k.retired && i !in p.idle)
            && (k.retired <==> k.session.None? && i !in p.idle)
            && (k.session.Some? ==> Serves(p, i, k.session.value))
            && |p.idle| <= IDLE_MAX && multiset(p.idle)[i] <= 1
            && (i in p.idle ==> k.ready && k.idle && k.queued == [] && Replies(k.toMain) == [] && Sends(k.toWorker) == [])
            && (k.killed != Running ==> k.ready)
  {
    RunOk(es);
    var p := Run(es);
    assert SlotOk(p.slots[i], Owed(p, i)) && StopOk(p.slots[i]);
    MultisetOnce(p.idle, i);
  }

  lemma {:induction false} MultisetOnce(s: seq<nat>, x: nat)
    requires forall a, b :: 0 <= a < b < |s| ==> s[a] != s[b]
    ensures multiset(s)[x] <= 1
  {
    if s != [] {
      MultisetOnce(s[1..], x);
      assert s == [s[0]] + s[1..];
      assert s[0] !in s[1..];
    }
  }

  /** A guest stack is freed at most once, and only when its worker has stopped. */
  lemma {:induction false} StacksAreFreedOnce(es: seq<Event>, i: nat)
    requires i < |Run(es).slots|
    ensures var k := Run(es).slots[i];
            && k.freed <= 1
            && (k.freed == 1 ==> k.killed == Stopped && k.stack == 0)
            && (k.killed == Stopped ==> k.stack == 0)
            && (k.retired && !k.finish ==> k.killed == Stopped)
  {
    RunOk(es);
    assert StopOk(Run(es).slots[i]);
  }
}
