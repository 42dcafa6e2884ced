/** The job loop of a streaming audio decoder (`makeAudioDecoderModule`).

A stream has at most one request in its worker; calls made meanwhile set the next request.  Each
reposition call gets a number.  `position` is the number of the last reposition the worker was sent,
and every request remembers the number that was current when it was issued.
 */
module DecodeStream {

  datatype Kind = NONE | READ | REPOSITION

  /** A request in the worker: issued after `issued` reposition calls, with the decoder at `position`. */
  datatype Request = Request(kind: Kind, issued: nat, position: nat)

  /** A result made visible after `published` reposition calls; `answered` unless the worker was lost. */
  datatype Result = Result(request: Request, answered: bool, status: int, published: nat)

  /** What happened so far.  `inflight` is posted to the worker and not answered, `pushed` and `sent` are
  the encoded bytes taken in and handed to the worker since the last reposition call, `parked` and
  `woken` count waiters. */
  datatype History = History(
    inflight: seq<Request>, repositions: nat, position: nat, results: seq<Result>,
    pushed: seq<int>, sent: seq<int>, finishes: nat, finishesSent: nat, parked: nat, woken: nat)

  datatype Stream = Stream(
    closed: bool, running: bool, busy: bool, request: Kind, current: Kind, discard: bool,
    finishPending: bool, finished: bool, input: seq<int>, operation: Kind, ready: bool, readyKind: Kind, status: int,
    waiter: bool, failed: bool, closes: nat, past: History)

  const OPENED :=
    Stream(false, false, false, NONE, NONE, false, false, false, [], NONE, false, NONE, 0,
           false, false, 0, History([], 0, 0, [], [], [], 0, 0, 0, 0))

  /** Wakes the waiter, if there is one. */
  function Wake(s: Stream): Stream {
    if s.waiter then s.(waiter := false, past := s.past.(woken := s.past.woken + 1)) else s
  }

  function Publish(s: Stream, kind: Kind): Stream {
    var s1 := s.(ready := true, readyKind := kind);
    if s.operation == kind then Wake(s1) else s1
  }

  /** Posts the next request: a read takes the queued input along, a reposition drops it. */
  function Issue(s: Stream): Stream {
    var read := s.request == READ;
    var position := if read || s.failed then s.past.position else s.past.repositions;
    s.(current := s.request, request := NONE, busy := true, discard := false, finishPending := false, input := [],
       past := s.past.(
         position := position, sent := if read then s.past.sent + s.input else s.past.sent,
         finishesSent := if read && s.finishPending then s.past.finishesSent + 1 else s.past.finishesSent,
         inflight := s.past.inflight + [Request(s.request, s.past.repositions, position)]))
  }

  /** The head of the job loop. */
  function LoopHead(s: Stream): Stream {
    if s.closed || s.request == NONE then
      var s1 := Wake(s.(running := false));
      if s.closed then s1.(closes := s1.closes + 1) else s1
    else Issue(s)
  }

  function Schedule(s: Stream): Stream {
    if s.running then s else if s.failed then s.(request := NONE) else LoopHead(s.(running := true))
  }

  /** A read that produced nothing although there is more input is repeated at once. */
  predicate Repeats(s: Stream, status: int) {
    s.current == READ && status == 0 && !s.discard && s.request == NONE && (s.input != [] || s.finishPending)
  }

  /** The worker no longer holds the oldest request. */
  function Answered(s: Stream): Stream
    requires s.past.inflight != []
  {
    s.(past := s.past.(inflight := s.past.inflight[1..]))
  }

  /** What the guest is told of a request of kind `kind`: a lost worker counts as an empty answer to a
  reposition and as a failed read. */
  function Told(kind: Kind, answered: bool, status: int): int {
    if answered then status else if kind == READ then -2 else 0
  }

  /** Takes the oldest request off the worker and makes its result visible unless it is discarded. */
  function Accept(s: Stream, answered: bool, status: int): Stream
    requires s.past.inflight != []
  {
    var s0 := Answered(s).(busy := false);
    if s.discard then s0
    else
      var result := Result(s.past.inflight[0], answered, status, s.past.repositions);
      Publish(s0.(status := status, past := s0.past.(results := s0.past.results + [result])), s.current)
  }

  /** The worker's answer to the oldest request arrives, or it is lost. */
  function Reply(s: Stream, answered: bool, answer: int): Stream
    requires s.past.inflight != []
  {
    var status := Told(s.current, answered, answer);
    if Repeats(s, status) then LoopHead(Answered(s).(request := READ))
    else LoopHead(Accept(s, answered, status))
  }

  datatype Event =
    | Push(bytes: seq<int>)   // bytes there is room for; others are refused and change nothing
    | Finish
    | Read
    | Reposition
    | Wait
    | TakeResult
    | Close
    | Answer(status: int)
    | Fail                     // the worker is lost; it answers nothing from here on

  /** A call of the guest or an answer of the worker; calls on a closed stream find no stream. */
  function Step(s: Stream, e: Event): Stream {
    match e
    case Answer(status) => if s.past.inflight == [] then s else Reply(s, !s.failed, status)
    case Fail => s.(failed := true)
    case _ => if s.closed then s else Call(s, e)
  }

  function PushBytes(s: Stream, bytes: seq<int>): Stream {
    if s.finished then s else s.(input := s.input + bytes, past := s.past.(pushed := s.past.pushed + bytes))
  }

  /** A read is already on its way, or its result is waiting. */
  predicate ReadPending(s: Stream) {
    (s.ready && s.readyKind == READ) || s.request == READ || (s.busy && s.current == READ && !s.discard)
  }

  function ReadNext(s: Stream): Stream {
    var s1 := s.(operation := READ);
    if ReadPending(s) then s1 else Schedule(s1.(ready := false, request := READ))
  }

  function Repositioned(s: Stream): Stream {
    s.(operation := REPOSITION, ready := false, discard := s.running, input := [], finished := false,
       finishPending := false, request := REPOSITION,
       past := s.past.(repositions := s.past.repositions + 1, pushed := [], sent := [], finishes := 0, finishesSent := 0))
  }

  function WaitReady(s: Stream): Stream {
    if (s.ready && s.readyKind == s.operation) || !s.running then s
    else
      var s1 := Wake(s);
      s1.(waiter := true, past := s1.past.(parked := s1.past.parked + 1))
  }

  /** The status handed out when the result of the present operation is taken. */
  function Words(s: Stream): int {
    if s.ready && s.readyKind == s.operation then s.status else if s.operation == READ then -2 else 0
  }

  /** Claims the result; after a chunk the next one is read ahead. */
  function Claim(s: Stream): Stream {
    var s1 := s.(ready := false, operation := NONE);
    if s.ready && s.readyKind == READ && s.status == 1 then Schedule(s1.(request := READ)) else s1
  }

  function CloseStream(s: Stream): Stream {
    var s1 := s.(closed := true, request := NONE);
    if s.running then s1 else s1.(closes := s1.closes + 1)
  }

  function Call(s: Stream, e: Event): Stream
    requires !e.Answer? && !e.Fail?
  {
    match e
    case Push(bytes) => PushBytes(s, bytes)
    case Finish => s.(finished := true, finishPending := true, past := s.past.(finishes := s.past.finishes + 1))
    case Read => ReadNext(s)
    case Reposition => Schedule(Repositioned(s))
    case Wait => WaitReady(s)
    case TakeResult => Claim(s)
    case Close => CloseStream(s)
  }

  // ----- What every run keeps -----

  /** No result was published under a later reposition than it was issued under. */
  ghost predicate Current(results: seq<Result>) {
    forall i :: 0 <= i < |results| ==> results[i].request.issued == results[i].published
  }

  ghost predicate Inv(s: Stream) {
    && |s.past.inflight| == (if s.running then 1 else 0)
    && (s.running ==> s.past.inflight[0].kind == s.current && s.current != NONE && (s.busy || s.closed))
    && (s.running && !s.discard ==> s.past.inflight[0].issued == s.past.repositions)
    && (!s.running && !s.closed ==> s.request == NONE && !s.busy)
    && (s.waiter ==> s.running)
    && s.past.parked == s.past.woken + (if s.waiter then 1 else 0)
    && s.closes == (if s.closed && !s.running then 1 else 0)
    && Current(s.past.results)
    && s.past.position <= s.past.repositions
    && (s.request == REPOSITION ==> s.running && s.discard && s.past.position < s.past.repositions && !s.ready && !s.closed)
  }

  /** What holds when the job loop comes round, before it decides how to go on. */
  ghost predicate AtHead(s: Stream) {
    && s.running && s.past.inflight == [] && s.closes == 0
    && s.past.parked == s.past.woken + (if s.waiter then 1 else 0)
    && Current(s.past.results)
    && s.past.position <= s.past.repositions
    && (s.request == REPOSITION ==> !s.closed)
    && (!s.closed && s.request == NONE ==> !s.busy)
  }

  lemma {:induction false} IssueOk(s: Stream)
    requires AtHead(s) && !s.closed && s.request != NONE
    ensures Inv(Issue(s))
  {
  }

  lemma {:induction false} LoopHeadOk(s: Stream)
    requires AtHead(s)
    ensures Inv(LoopHead(s))
  {
    if !s.closed && s.request != NONE {
      IssueOk(s);
    }
  }

  lemma {:induction false} ScheduleOk(s: Stream)
    requires if s.running then Inv(s) else AtHead(s.(running := true)) && !s.waiter && !s.closed && !s.busy
    ensures Inv(Schedule(s))
  {
    if !s.running && !s.failed {
      LoopHeadOk(s.(running := true));
    }
  }

  lemma {:induction false} AcceptOk(s: Stream, answered: bool, status: int)
    requires Inv(s) && s.past.inflight != []
    ensures AtHead(Accept(s, answered, status))
  {
  }

  lemma {:induction false} ReplyOk(s: Stream, answered: bool, answer: int)
    requires Inv(s) && s.past.inflight != []
    ensures Inv(Reply(s, answered, answer))
  {
    var status := Told(s.current, answered, answer);
    if Repeats(s, status) {
      LoopHeadOk(Answered(s).(request := READ));
    } else {
      AcceptOk(s, answered, status);
      LoopHeadOk(Accept(s, answered, status));
    }
  }

  lemma {:induction false} ReadOk(s: Stream)
    requires Inv(s) && !s.closed
    ensures Inv(ReadNext(s))
  {
    if !ReadPending(s) {
      ScheduleOk(s.(operation := READ, ready := false, request := READ));
    }
  }

  lemma {:induction false} RepositionOk(s: Stream)
    requires Inv(s) && !s.closed
    ensures Inv(Schedule(Repositioned(s)))
  {
    ScheduleOk(Repositioned(s));
  }

  lemma {:induction false} ClaimOk(s: Stream)
    requires Inv(s) && !s.closed
    ensures Inv(Claim(s))
  {
    var s1 := s.(ready := false, operation := NONE);
    assert Inv(s1);
    if s.ready && s.readyKind == READ && s.status == 1 {
      PrefetchOk(s1);
    }
  }

  lemma {:induction false} PrefetchOk(s: Stream)
    requires Inv(s) && !s.closed
    ensures Inv(Schedule(s.(request := READ)))
  {
    ScheduleOk(s.(request := READ));
  }

  lemma {:induction false} CallOk(s: Stream, e: Event)
    requires Inv(s) && !s.closed && !e.Answer? && !e.Fail?
    ensures Inv(Call(s, e))
  {
    match e
    case Read => ReadOk(s);
    case Reposition => RepositionOk(s);
    case TakeResult => ClaimOk(s);
    case _ =>
  }

  lemma {:induction false} StepOk(s: Stream, e: Event)
    requires Inv(s)
    ensures Inv(Step(s, e))
  {
    match e
    case Answer(status) =>
      if s.past.inflight != [] {
        ReplyOk(s, !s.failed, status);
      }
    case Fail =>
    case _ =>
      if !s.closed {
        CallOk(s, e);
      }
  }

  function Run(es: seq<Event>): Stream {
    if es == [] then OPENED else Step(Run(es[..|es| - 1]), es[|es| - 1])
  }

  /** The invariant holds in every run. */
  lemma {:induction false} RunOk(es: seq<Event>)
    ensures Inv(Run(es))
  {
    if es != [] {
      RunOk(es[..|es| - 1]);
      StepOk(Run(es[..|es| - 1]), es[|es| - 1]);
    }
  }

  /** In every run: at most one request is in the worker, exactly while the loop runs; every result was
  published under the reposition it was issued under; a waiter is parked only while the loop runs and
  all others have been woken; a closed stream sends one close, once nothing is in the worker. */
  lemma {:induction false} JobLoopIsSafe(es: seq<Event>, i: nat)
    ensures var s := Run(es);
            && |s.past.inflight| <= 1 && (s.running <==> |s.past.inflight| == 1)
            && (i < |s.past.results| ==> s.past.results[i].request.issued == s.past.results[i].published)
            && (s.waiter ==> s.running) && s.past.parked == s.past.woken + (if s.waiter then 1 else 0)
            && s.closes <= 1 && (s.closes == 1 <==> s.closed && s.past.inflight == [])
  {
    RunOk(es);
  }

  // ----- Calls made while a reposition waits -----

  /** `e` does not interfere with a reposition that still waits for its turn. */
  predicate Patient(s: Stream, e: Event) {
    s.request == REPOSITION ==> !(e.Read? || e.Finish? || (e.Push? && e.bytes != []))
  }

  /** Every result that carries an answer was decoded where the last reposition pointed. */
  ghost predicate Positioned(results: seq<Result>) {
    forall i :: 0 <= i < |results| && results[i].answered ==> results[i].request.position == results[i].published
  }

  /** Results come from where the last reposition pointed; what was pushed since is sent once; an end of
  input given since is still queued or has been announced, and then nothing pushed is left behind. */
  ghost predicate Faithful(s: Stream) {
    && (s.closed || s.failed || s.request == REPOSITION || s.past.position == s.past.repositions)
    && (s.past.inflight != [] && !s.discard && !s.failed ==> s.past.inflight[0].position == s.past.repositions)
    && Positioned(s.past.results)
    && (s.request == REPOSITION ==> s.input == [] && !s.finishPending)
    && (!s.closed ==> s.past.pushed == s.past.sent + s.input)
    && (!s.closed && s.past.finishes > 0 ==> s.finished && (s.finishPending || s.past.finishesSent > 0))
    && (s.finishPending || s.past.finishesSent > 0 ==> s.past.finishes > 0)
    && (!s.closed && s.past.finishesSent > 0 ==> s.input == [])
  }

  lemma {:induction false} LoopHeadFaithful(s: Stream)
    requires AtHead(s) && Faithful(s)
    ensures Faithful(LoopHead(s))
  {
    if !s.closed && s.request == READ {
      assert s.past.sent + s.input + [] == s.past.sent + s.input;
    }
  }

  lemma {:induction false} AcceptFaithful(s: Stream, answered: bool, status: int)
    requires Inv(s) && Faithful(s) && s.past.inflight != [] && (s.failed ==> !answered)
    ensures Faithful(Accept(s, answered, status))
  {
    var s0 := Answered(s).(busy := false);
    AnsweredFaithful(s);
    if !s.discard {
      var result := Result(s.past.inflight[0], answered, status, s.past.repositions);
      assert result.answered ==> result.request.position == result.published;
      RecordFaithful(s0, status, result);
      PublishFaithful(s0.(status := status, past := s0.past.(results := s0.past.results + [result])), s.current);
    }
  }

  lemma {:induction false} AnsweredFaithful(s: Stream)
    requires Inv(s) && Faithful(s) && s.past.inflight != []
    ensures Faithful(Answered(s).(busy := false)) && Answered(s).past.inflight == []
  {
  }

  lemma {:induction false} RecordFaithful(s: Stream, status: int, result: Result)
    requires Faithful(s) && (result.answered ==> result.request.position == result.published)
    ensures Faithful(s.(status := status, past := s.past.(results := s.past.results + [result])))
  {
  }

  lemma {:induction false} PublishFaithful(s: Stream, kind: Kind)
    requires Faithful(s)
    ensures Faithful(Publish(s, kind))
  {
    var s1 := s.(ready := true, readyKind := kind);
    assert Faithful(s1);
    WakeFaithful(s1);
  }

  lemma {:induction false} WakeFaithful(s: Stream)
    requires Faithful(s)
    ensures Faithful(Wake(s))
  {
    if s.waiter {
      var past := s.past.(woken := s.past.woken + 1);
      assert Faithful(s.(waiter := false, past := past));
    }
  }

  lemma {:induction false} ReplyFaithful(s: Stream, answered: bool, answer: int)
    requires Inv(s) && Faithful(s) && s.past.inflight != [] && (s.failed ==> !answered)
    ensures Faithful(Reply(s, answered, answer))
  {
    var status := Told(s.current, answered, answer);
    if Repeats(s, status) {
      LoopHeadFaithful(Answered(s).(request := READ));
    } else {
      AcceptOk(s, answered, status);
      AcceptFaithful(s, answered, status);
      LoopHeadFaithful(Accept(s, answered, status));
    }
  }

  lemma {:induction false} ScheduleFaithful(s: Stream)
    requires Faithful(s) && (s.running || AtHead(s.(running := true)))
    ensures Faithful(Schedule(s))
  {
    if !s.running && !s.failed {
      LoopHeadFaithful(s.(running := true));
    }
  }

  lemma {:induction false} ReadFaithful(s: Stream)
    requires Inv(s) && Faithful(s) && !s.closed && s.request != REPOSITION
    ensures Faithful(ReadNext(s))
  {
    if !ReadPending(s) {
      ScheduleFaithful(s.(operation := READ, ready := false, request := READ));
    }
  }

  lemma {:induction false} RepositionFaithful(s: Stream)
    requires Inv(s) && Faithful(s) && !s.closed
    ensures Faithful(Schedule(Repositioned(s)))
  {
    ScheduleFaithful(Repositioned(s));
  }

  lemma {:induction false} ClaimFaithful(s: Stream)
    requires Inv(s) && Faithful(s) && !s.closed
    ensures Faithful(Claim(s))
  {
    if s.ready && s.readyKind == READ && s.status == 1 {
      ScheduleFaithful(s.(ready := false, operation := NONE, request := READ));
    }
  }

  lemma {:induction false} PushFaithful(s: Stream, bytes: seq<int>)
    requires Faithful(s) && (s.request == REPOSITION ==> bytes == [])
    ensures Faithful(PushBytes(s, bytes))
  {
    assert s.past.sent + s.input + bytes == s.past.sent + (s.input + bytes);
  }

  lemma {:induction false} CallFaithful(s: Stream, e: Event)
    requires Inv(s) && Faithful(s) && !s.closed && Patient(s, e) && !e.Answer? && !e.Fail?
    ensures Faithful(Call(s, e))
  {
    match e
    case Push(bytes) => PushFaithful(s, bytes);
    case Read => ReadFaithful(s);
    case Reposition => RepositionFaithful(s);
    case TakeResult => ClaimFaithful(s);
    case _ =>
  }

  lemma {:induction false} StepFaithful(s: Stream, e: Event)
    requires Inv(s) && Faithful(s) && Patient(s, e)
    ensures Faithful(Step(s, e))
  {
    match e
    case Answer(status) =>
      if s.past.inflight != [] {
        ReplyFaithful(s, !s.failed, status);
      }
    case Fail =>
    case _ =>
      if !s.closed {
        CallFaithful(s, e);
      }
  }

  ghost predicate PatientRun(es: seq<Event>) {
    es == [] || (PatientRun(es[..|es| - 1]) && Patient(Run(es[..|es| - 1]), es[|es| - 1]))
  }

  /** In every run that leaves waiting repositions alone, each result that carries an answer was decoded
  at the position of the last reposition before it was published, and the bytes pushed since the last
  reposition are those handed to the worker followed by those still queued.  An end of input given since
  then is still queued or has reached the worker, and it reaches the worker only with or after the last of
  the bytes. */
  lemma {:induction false} PatientRunsAreFaithful(es: seq<Event>, i: nat)
    requires PatientRun(es)
    ensures Faithful(Run(es))
    ensures var s := Run(es);
            && (i < |s.past.results| && s.past.results[i].answered ==> s.past.results[i].request.position == s.past.results[i].published)
            && (!s.closed ==> s.past.pushed == s.past.sent + s.input)
            && (!s.closed && s.past.finishes > 0 ==> s.finishPending || s.past.finishesSent > 0)
            && (s.past.finishesSent > 0 ==> s.past.finishes > 0)
            && (!s.closed && s.past.finishesSent > 0 ==> s.past.sent == s.past.pushed)
  {
    if es != [] {
      PatientRunsAreFaithful(es[..|es| - 1], 0);
      RunOk(es[..|es| - 1]);
      StepFaithful(Run(es[..|es| - 1]), es[|es| - 1]);
    }
  }

  /** Patience is needed.  A read, push or finish made while a reposition waits takes its place or is
  dropped: the next read is decoded at the old position, the bytes are never sent, the end of input is
  never announced. */
  lemma {:induction false} ImpatientReadLosesReposition(s: Stream, status: int)
    requires Inv(s) && s.request == REPOSITION && !s.failed
    ensures var t := Step(Step(Step(s, Read), Answer(status)), Answer(1));
            && |t.past.results| > 0
            && var last := t.past.results[|t.past.results| - 1];
               last.request.kind == READ && last.answered && last.status == 1 && last.request.position < last.published
  {
    var s1 := Step(s, Read);
    assert s1 == s.(operation := READ, ready := false, request := READ);
    var s2 := Step(s1, Answer(status));
    assert !Repeats(s1, status) && Accept(s1, true, status) == Answered(s1).(busy := false);
    assert s2.past.inflight == [Request(READ, s.past.repositions, s.past.position)] && s2.current == READ && !s2.discard;
    assert !Repeats(s2, 1);
  }

  lemma {:induction false} ImpatientPushIsLost(s: Stream, e: Event, status: int)
    requires Inv(s) && s.request == REPOSITION
    requires e.Finish? || (e.Push? && e.bytes != [] && !s.finished)
    ensures var t := Step(Step(s, e), Answer(status));
            && (e.Push? ==> |t.past.pushed| > |s.past.pushed| && t.past.sent == s.past.sent && t.input == [])
            && (e.Finish? ==> t.past.finishes > s.past.finishes && t.past.finishesSent == s.past.finishesSent && !t.finishPending)
  {
    var s1 := Step(s, e);
    assert !Repeats(s1, Told(s1.current, !s1.failed, status));
  }

  /** A reposition does come to wait, as soon as it is called while a read is in the worker. */
  lemma {:induction false} RepositionWaits()
    ensures Run([Read, Reposition]).request == REPOSITION && !Run([Read, Reposition]).failed
  {
    assert [Read, Reposition][..1] == [Read] && [Read][..0] == [];
    assert Run([Read]) == Step(Run([]), Read);
    assert Run([Read, Reposition]) == Step(Run([Read]), Reposition);
  }
}
