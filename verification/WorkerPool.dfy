/** The worker pool (`makeWorkerModule`) together with its worker threads, as one state machine.

A session is served by one slot; a slot owns one worker thread and two FIFO channels.  Every
event the main thread can see (calls from the guest, delivered messages, crashes, timeouts, a
stop that completes) and every step of a worker's serial loop is an `Event`; the choices the
platform makes (whether `postMessage` throws, whether `terminate` finishes at once, what a worker
answers) are fields of the event.  `Step` is total, so a run is any sequence of events.

The k-th dispatch made to session object `sid` is `Job(sid, k)`.  Messages carry the job they
stem from, and each session records its settlements in order, so that routing can be stated.
 */
module WorkerPool {
  import opened Containers
  import opened SessionTable

  const IDLE_MAX := 64

  datatype Job = Job(sid: nat, number: nat)

  /** How a dispatch was resolved: with the reply computed for `to`, or with the empty string. */
  datatype Outcome = Replied(to: Job) | Unanswered

  datatype Settlement = Settlement(number: nat, outcome: Outcome)

  datatype ToWorker = Init | Reset | Dispatch(job: Job) | Term

  datatype ToMain = Ready(stack: nat) | Reply(job: Job, idle: bool) | Error | Closed

  datatype Session = Session(
    slot: nat, oneShot: bool, id: int, pending: seq<nat>, inflight: int,
    dispatched: nat, done: seq<Settlement>)

  datatype Kill = Running | Stopping | Stopped

  /** `freed` counts how often the slot's guest stack was returned to the heap. */
  datatype Slot = Slot(
    hasWorker: bool, session: Option<nat>, ready: bool, queued: seq<Job>, stack: nat, idle: bool,
    failed: bool, retired: bool, killed: Kill, finish: bool, bootTimer: bool,
    terminateWhenReady: bool, closed: bool, freed: nat,
    toWorker: seq<ToWorker>, toMain: seq<ToMain>)

  datatype Pool = Pool(
    live: map<int, nat>, sessions: seq<Session>, slots: seq<Slot>, idle: seq<nat>, failures: set<int>)

  // ----- Slot and session updates -----

  function ReleaseStack(k: Slot): Slot {
    k.(stack := 0, freed := k.freed + if k.stack != 0 then 1 else 0)
  }

  /** Stops the worker once; `deferred` means that `terminate` answered with a promise. */
  function KillSlot(k: Slot, deferred: bool): Slot {
    if k.killed != Running then k
    else if k.hasWorker && deferred then k.(killed := Stopping)
    else ReleaseStack(k.(killed := Stopped))
  }

  function Unresolved(pending: seq<nat>): seq<Settlement> {
    seq(|pending|, x requires 0 <= x < |pending| => Settlement(pending[x], Unanswered))
  }

  /** Resolves everything the session still owes with the empty string. */
  function Abandon(s: Session): Session {
    s.(pending := [], done := s.done + Unresolved(s.pending))
  }

  function Without(s: seq<nat>, x: nat): seq<nat> {
    if s == [] then [] else if s[0] == x then s[1..] else [s[0]] + Without(s[1..], x)
  }

  lemma {:induction false} WithoutMembers(s: seq<nat>, x: nat)
    ensures forall y :: y in Without(s, x) ==> y in s
  {
    if s != [] {
      WithoutMembers(s[1..], x);
    }
  }

  /** Every slot and session that is referred to exists, and handles are 32-bit integers. */
  ghost predicate Linked(p: Pool) {
    && (forall i {:trigger p.slots[i]} :: 0 <= i < |p.slots| && p.slots[i].session.Some? ==>
          p.slots[i].session.value < |p.sessions|)
    && (forall id :: id in p.live ==> p.live[id] < |p.sessions|)
    && (forall sid {:trigger p.sessions[sid]} :: 0 <= sid < |p.sessions| ==>
          p.sessions[sid].slot < |p.slots| && IsI32(p.sessions[sid].id))
    && (forall i :: i in p.idle ==> i < |p.slots|)
  }

  function Failed(k: Slot, deferred: bool): Slot {
    KillSlot(k.(failed := true, bootTimer := false, queued := [], terminateWhenReady := false,
                closed := false, session := None), deferred)
  }

  function FailSlot(p: Pool, i: nat, deferred: bool): (q: Pool)
    requires Linked(p) && i < |p.slots|
    ensures Linked(q) && |q.slots| == |p.slots|
  {
    var k := p.slots[i];
    if k.failed then p
    else
      WithoutMembers(p.idle, i);
      var p' := p.(slots := p.slots[i := Failed(k, deferred)], idle := Without(p.idle, i));
      if k.session.None? || k.retired then p'
      else
        var s := p.sessions[k.session.value];
        p'.(live := p.live - {s.id}, failures := p.failures + {s.id},
            sessions := p.sessions[k.session.value := Abandon(s)])
  }

  function Post(p: Pool, i: nat, m: ToWorker): (q: Pool)
    requires i < |p.slots|
    ensures Linked(p) ==> Linked(q)
  {
    p.(slots := p.slots[i := p.slots[i].(toWorker := p.slots[i].toWorker + [m])])
  }

  /** `postMessage`; when it throws, the slot fails. */
  function Send(p: Pool, i: nat, m: ToWorker, ok: bool, deferred: bool): Pool
    requires Linked(p) && i < |p.slots|
  {
    if ok then Post(p, i, m) else FailSlot(p, i, deferred)
  }

  // ----- Calls from the guest -----

  /** Registers a dispatch: its resolver is queued and the job counts as in flight. */
  function Owe(p: Pool, sid: nat): Pool
    requires sid < |p.sessions|
  {
    var s := p.sessions[sid];
    p.(sessions := p.sessions[sid := s.(pending := s.pending + [s.dispatched],
                                        inflight := s.inflight + 1, dispatched := s.dispatched + 1)])
  }

  function Enqueue(p: Pool, i: nat, job: Job): Pool
    requires i < |p.slots|
  {
    p.(slots := p.slots[i := p.slots[i].(queued := p.slots[i].queued + [job])])
  }

  function DispatchJob(p: Pool, id: int, ok: bool, deferred: bool): Pool
    requires Linked(p)
  {
    if id !in p.live then p
    else
      var sid := p.live[id];
      var s := p.sessions[sid];
      var job := Job(sid, s.dispatched);
      if p.slots[s.slot].ready then Send(Owe(p, sid), s.slot, Dispatch(job), ok, deferred)
      else Enqueue(Owe(p, sid), s.slot, job)
  }

  predicate Reusable(p: Pool, k: Slot, s: Session) {
    k.hasWorker && k.ready && k.idle && s.inflight == 0 && |p.idle| < IDLE_MAX
  }

  /** The slot leaves its session for good. */
  function Retire(p: Pool, i: nat, inflight: int, ok: bool, deferred: bool): Pool
    requires Linked(p) && i < |p.slots|
  {
    var k := p.slots[i].(session := None, retired := true, finish := true);
    if !k.ready then p.(slots := p.slots[i := k.(terminateWhenReady := true)])
    else if inflight == 0 then Send(p.(slots := p.slots[i := k.(closed := true)]), i, Term, ok, deferred)
    else p.(slots := p.slots[i := KillSlot(k, deferred)])
  }

  function Terminate(p: Pool, id: int, ok: bool, deferred: bool): Pool
    requires Linked(p)
  {
    if id !in p.live then p.(failures := p.failures - {id})
    else
      var sid := p.live[id];
      var s := p.sessions[sid];
      var k := p.slots[s.slot];
      var p1 := p.(failures := p.failures - {id}, live := p.live - {id}, sessions := p.sessions[sid := Abandon(s)]);
      if k.failed then p1
      else if Reusable(p, k, s) then
        p1.(slots := p.slots[s.slot := k.(session := None)], idle := p.idle + [s.slot])
      else Retire(p1, s.slot, s.inflight, ok, deferred)
  }

  datatype Start = Now | Throws | Later

  const FRESH_SLOT :=
    Slot(false, None, false, [], 0, true, false, false, Running, false, true, false, false, 0, [], [])

  /** The worker object exists: its handlers are attached and `init` is posted. */
  function FinishSpawn(p: Pool, i: nat, ok: bool, deferred: bool): Pool
    requires Linked(p) && i < |p.slots|
  {
    Send(p.(slots := p.slots[i := p.slots[i].(hasWorker := true)]), i, Init, ok, deferred)
  }

  function Launch(p: Pool, i: nat, how: Start, ok: bool, deferred: bool): Pool
    requires Linked(p) && i < |p.slots|
  {
    match how
    case Later => p
    case Throws => FailSlot(p, i, deferred)
    case Now => FinishSpawn(p, i, ok, deferred)
  }

  /** The session object `sid` is registered under `id` and tied to slot `i`, which may be new. */
  function Attach(p: Pool, id: int, oneShot: bool, i: nat): Pool
    requires i <= |p.slots|
  {
    var sid := |p.sessions|;
    var slots := if i < |p.slots| then p.slots[i := p.slots[i].(session := Some(sid))]
                 else p.slots + [FRESH_SLOT.(session := Some(sid))];
    p.(live := p.live[id := sid], slots := slots,
       sessions := p.sessions + [Session(i, oneShot, id, [], 0, 0, [])])
  }

  function Spawn(p: Pool, id: int, oneShot: bool, how: Start, ok: bool, deferred: bool): Pool
    requires Linked(p) && IsI32(id)
  {
    if id == 0 then p
    else if p.idle == [] then Launch(Attach(p, id, oneShot, |p.slots|), |p.slots|, how, ok, deferred)
    else
      var last := |p.idle| - 1;
      assert p.idle[last] in p.idle && forall i :: i in p.idle[..last] ==> i in p.idle;
      Send(Attach(p.(idle := p.idle[..last]), id, oneShot, p.idle[last]), p.idle[last], Reset, ok, deferred)
  }

  // ----- Messages from a worker -----

  function Dispatches(jobs: seq<Job>): seq<ToWorker> {
    seq(|jobs|, x requires 0 <= x < |jobs| => Dispatch(jobs[x]))
  }

  /** Posts the queued jobs in order; the platform accepts the first `accepts` of them. */
  function Flush(p: Pool, i: nat, accepts: nat, deferred: bool): Pool
    requires Linked(p) && i < |p.slots|
  {
    var k := p.slots[i];
    var jobs := k.queued;
    if accepts >= |jobs| then
      p.(slots := p.slots[i := k.(queued := [], toWorker := k.toWorker + Dispatches(jobs))])
    else
      FailSlot(p.(slots := p.slots[i := k.(queued := [], toWorker := k.toWorker + Dispatches(jobs[..accepts]))]),
               i, deferred)
  }

  function OnReady(p: Pool, i: nat, stack: nat, accepts: nat, deferred: bool): Pool
    requires Linked(p) && i < |p.slots|
  {
    var k := p.slots[i].(ready := true, stack := stack, bootTimer := false);
    if k.terminateWhenReady then p.(slots := p.slots[i := KillSlot(k.(queued := []), deferred)])
    else Flush(p.(slots := p.slots[i := k]), i, accepts, deferred)
  }

  /** Resolves the oldest owed dispatch with the reply made for `job`. */
  function Settle(s: Session, job: Job): Session {
    var s' := s.(inflight := s.inflight - 1);
    if s.pending == [] then s'
    else s'.(pending := s.pending[1..], done := s.done + [Settlement(s.pending[0], Replied(job))])
  }

  /** The session of slot `i` takes the reply made for `job`. */
  function Receive(p: Pool, i: nat, job: Job, idle: bool): Pool
    requires Linked(p) && i < |p.slots| && p.slots[i].session.Some?
  {
    var sid := p.slots[i].session.value;
    p.(slots := p.slots[i := p.slots[i].(idle := idle)],
       sessions := p.sessions[sid := Settle(p.sessions[sid], job)])
  }

  function OnReply(p: Pool, i: nat, job: Job, idle: bool, ok: bool, deferred: bool): Pool
    requires Linked(p) && i < |p.slots|
  {
    if p.slots[i].session.None? then p.(slots := p.slots[i := p.slots[i].(idle := idle)])
    else
      var s := p.sessions[p.slots[i].session.value];
      var p1 := Receive(p, i, job, idle);
      if s.oneShot then Terminate(p1, s.id, ok, deferred) else p1
  }

  function OnClosed(p: Pool, i: nat, deferred: bool): Pool
    requires i < |p.slots|
  {
    if p.slots[i].closed then p.(slots := p.slots[i := KillSlot(p.slots[i], deferred)]) else p
  }

  function OnMessage(p: Pool, i: nat, m: ToMain, accepts: nat, ok: bool, deferred: bool): Pool
    requires Linked(p) && i < |p.slots|
  {
    var k := p.slots[i];
    if k.failed then p
    else match m
      case Ready(stack) => OnReady(p, i, stack, accepts, deferred)
      case Closed => OnClosed(p, i, deferred)
      case Reply(job, idle) => OnReply(p, i, job, idle, ok, deferred)
      case Error => FailSlot(p, i, deferred)
  }

  // ----- Events -----

  /** What can happen to one slot. */
  datatype SlotEvent =
      // The first Node spawn waits for an import; the worker is created when it resolves.
    | Created(how: Start, ok: bool)
      // The main thread handles the oldest message of the slot's worker.
    | Deliver(accepts: nat, ok: bool)
      // The worker's serial loop finishes its oldest message, failing when `throws`.
    | Work(throws: bool, stack: nat, idle: bool)
      // Crash, exit, undeserializable message, or the boot timer.
    | Fault
      // The promise of `terminate` settles.
    | StopDone
      // The continuation of a completed stop.
    | Finish

  datatype Event =
    | EvSpawn(id: int, oneShot: bool, how: Start, ok: bool, deferred: bool)
    | EvDispatch(id: int, ok: bool, deferred: bool)
    | EvTerminate(id: int, ok: bool, deferred: bool)
    | EvSlot(slot: nat, what: SlotEvent, deferred: bool)

  /** The worker's answer to `m`, if it posts one. */
  function Answer(m: ToWorker, throws: bool, stack: nat, idle: bool): seq<ToMain> {
    if throws then [Error]
    else match m
      case Init => [Ready(stack)]
      case Reset => []
      case Dispatch(job) => [Reply(job, idle)]
      case Term => [Closed]
  }

  /** Takes the oldest message off the slot's channel to the main thread. */
  function Pop(p: Pool, i: nat): Pool
    requires i < |p.slots| && p.slots[i].toMain != []
  {
    p.(slots := p.slots[i := p.slots[i].(toMain := p.slots[i].toMain[1..])])
  }

  function SlotStep(p: Pool, i: nat, what: SlotEvent, deferred: bool): Pool
    requires Linked(p) && i < |p.slots|
  {
    var k := p.slots[i];
    match what
    case Created(how, ok) =>
      if k.hasWorker || k.failed then p else Launch(p, i, how, ok, deferred)
    case Deliver(accepts, ok) =>
      if k.toMain == [] then p
      else OnMessage(Pop(p, i), i, k.toMain[0], accepts, ok, deferred)
    case Work(throws, stack, idle) =>
      if k.toWorker == [] then p
      else p.(slots := p.slots[i := k.(toWorker := k.toWorker[1..],
                                       toMain := k.toMain + Answer(k.toWorker[0], throws, stack, idle))])
    case Fault => FailSlot(p, i, deferred)
    case StopDone =>
      if k.killed != Stopping then p
      else p.(slots := p.slots[i := ReleaseStack(k.(killed := Stopped))])
    case Finish =>
      if k.killed != Stopped then p
      else p.(slots := p.slots[i := k.(finish := false)])
  }

  /** One event; an event that is not enabled changes nothing.  A new session's handle is whatever
  the table issues: zero, or a positive handle that is not live. */
  function Step(p: Pool, e: Event): Pool
    requires Linked(p)
  {
    match e
    case EvSpawn(id, oneShot, how, ok, deferred) =>
      if id < 0 || !IsI32(id) || id in p.live then p else Spawn(p, id, oneShot, how, ok, deferred)
    case EvDispatch(id, ok, deferred) => DispatchJob(p, id, ok, deferred)
    case EvTerminate(id, ok, deferred) => Terminate(p, id, ok, deferred)
    case EvSlot(i, what, deferred) => if i < |p.slots| then SlotStep(p, i, what, deferred) else p
  }
}
