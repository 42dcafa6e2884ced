/** What the calls on a decode stream bring about: requests reach the worker, its answers become ready, and
reads and repositions are answered. */
module DecodeService {
  import opened DecodeStream

  lemma {:induction false} RunStep(es: seq<Event>, e: Event)
    ensures Inv(Run(es)) && Run(es + [e]) == Step(Run(es), e) && Inv(Run(es + [e]))
  {
    RunOk(es);
    RunOk(es + [e]);
    assert (es + [e])[..|es + [e]| - 1] == es;
  }

  // ----- Answers -----

  /** The answer to a read that found nothing although more input has come is not made visible. */
  predicate TriesAgain(s: Stream, status: int) {
    && s.current == READ && !s.failed && status == 0 && !s.discard && s.request == NONE
    && (s.input != [] || s.finishPending)
  }

  /** In every run the answer to a request that no reposition has overtaken becomes ready, with the status the
  worker gave, or that of a lost worker; whoever waits for that operation is woken.  An empty read is
  repeated with the input that has come meanwhile instead. */
  lemma {:induction false} AnswersBecomeReady(es: seq<Event>, status: int)
    requires Run(es).past.inflight != [] && !Run(es).discard
    ensures var s, q := Run(es), Run(es + [Answer(status)]);
            if TriesAgain(s, status) then
              && q.past.results == s.past.results
              && (!s.closed ==>
                    && q.past.inflight == [Request(READ, s.past.repositions, s.past.position)] && q.current == READ
                    && q.past.sent == s.past.sent + s.input && q.input == [] && !q.finishPending
                    && (s.finishPending ==> q.past.finishesSent == s.past.finishesSent + 1))
            else
              && q.ready && q.readyKind == s.current == s.past.inflight[0].kind
              && q.status == (if !s.failed then status else if s.current == READ then -2 else 0)
              && q.past.results ==
                   s.past.results + [Result(s.past.inflight[0], !s.failed, q.status, s.past.repositions)]
              && (s.operation == s.current ==> !q.waiter && q.past.woken == q.past.parked)
  {
    RunStep(es, Answer(status));
    var s := Run(es);
    if !TriesAgain(s, status) {
      PublishedIsReady(s, !s.failed, Told(s.current, !s.failed, status));
    }
  }

  lemma {:induction false} PublishedIsReady(s: Stream, answered: bool, status: int)
    requires Inv(s) && s.past.inflight != [] && !s.discard
    ensures var q := LoopHead(Accept(s, answered, status));
            && q.ready && q.readyKind == s.current && q.status == status
            && q.past.results == s.past.results + [Result(s.past.inflight[0], answered, status, s.past.repositions)]
            && (s.operation == s.current ==> !q.waiter && q.past.woken == q.past.parked)
  {
    AcceptOk(s, answered, status);
    LoopHeadOk(Accept(s, answered, status));
  }

  /** In every run, when the worker has answered, the request made meanwhile goes to it, a reposition to the
  position last asked for and a read with all the input that has come; without one the loop ends, and
  nobody is left waiting. */
  lemma {:induction false} NextRequestIsSent(es: seq<Event>, status: int)
    requires Run(es).past.inflight != [] && !TriesAgain(Run(es), status)
    ensures var s, q := Run(es), Run(es + [Answer(status)]);
            if s.closed || s.request == NONE then !q.running && q.past.inflight == [] && !q.waiter
            else
              && q.running && !q.discard && q.request == NONE && |q.past.inflight| == 1 && q.current == s.request
              && q.past.inflight[0].kind == s.request && q.past.inflight[0].issued == s.past.repositions
              && q.past.inflight[0].position ==
                   (if s.request == REPOSITION && !s.failed then s.past.repositions else s.past.position)
              && q.input == [] && q.past.sent == (if s.request == READ then s.past.sent + s.input else s.past.sent)
              && q.past.finishesSent == s.past.finishesSent + (if s.request == READ && s.finishPending then 1 else 0)
  {
    RunStep(es, Answer(status));
    var s := Run(es);
    AcceptOk(s, !s.failed, Told(s.current, !s.failed, status));
    AcceptKeeps(s, !s.failed, Told(s.current, !s.failed, status));
  }

  lemma {:induction false} AcceptKeeps(s: Stream, answered: bool, status: int)
    requires Inv(s) && s.past.inflight != []
    ensures var a := Accept(s, answered, status);
            && a.request == s.request && a.closed == s.closed && a.input == s.input && a.finishPending == s.finishPending
            && a.failed == s.failed && a.past.repositions == s.past.repositions && a.past.position == s.past.position
            && a.past.sent == s.past.sent && a.past.finishesSent == s.past.finishesSent && a.past.inflight == []
            && a.operation == s.operation
  {
    if !s.discard {
      var past := s.past.(inflight := s.past.inflight[1..],
                          results := s.past.results + [Result(s.past.inflight[0], answered, status, s.past.repositions)]);
      WakeKeeps(s.(busy := false, status := status, past := past, ready := true, readyKind := s.current));
    }
  }

  lemma {:induction false} WakeKeeps(s: Stream)
    ensures var a := Wake(s);
            && a.request == s.request && a.closed == s.closed && a.input == s.input && a.finishPending == s.finishPending
            && a.failed == s.failed && a.past.repositions == s.past.repositions && a.past.position == s.past.position
            && a.past.sent == s.past.sent && a.past.finishesSent == s.past.finishesSent && a.past.inflight == s.past.inflight
            && a.operation == s.operation
  {
  }

  // ----- Calls -----

  /** In every run a read of an open stream either finds a read under way or its result waiting, or goes to
  the worker at once with all the input that has come, or waits for the worker's next answer; only without
  a worker is it refused. */
  lemma {:induction false} ReadsAreSent(es: seq<Event>)
    requires !Run(es).closed
    ensures var s, q := Run(es), Run(es + [Read]);
            && q.operation == READ
            && (if (s.ready && s.readyKind == READ) || s.request == READ || (s.busy && s.current == READ && !s.discard) then
                  q == s.(operation := READ)
                else if s.running then !q.ready && q.request == READ && q.past == s.past
                else if s.failed then !q.ready && q.request == NONE && q.past == s.past
                else
                  && q.running && !q.ready && q.current == READ && !q.discard
                  && q.past.inflight == [Request(READ, s.past.repositions, s.past.position)]
                  && q.input == [] && q.past.sent == s.past.sent + s.input
                  && q.past.finishesSent == s.past.finishesSent + (if s.finishPending then 1 else 0))
  {
    RunStep(es, Read);
    var s := Run(es);
    if !s.running && !s.failed {
      assert Schedule(s.(operation := READ, ready := false, request := READ)) ==
             Issue(s.(operation := READ, ready := false, request := READ, running := true));
    }
  }

  /** In every run a reposition makes everything read, pushed or announced before it void, and goes to the
  worker at once or after its next answer, which will not be made visible. */
  lemma {:induction false} RepositionsAreSent(es: seq<Event>)
    requires !Run(es).closed
    ensures var s, q := Run(es), Run(es + [Reposition]);
            && q.operation == REPOSITION && !q.ready && q.past.repositions == s.past.repositions + 1
            && q.input == [] && q.past.pushed == [] && q.past.sent == [] && !q.finished && !q.finishPending
            && (if s.running then q.request == REPOSITION && q.discard && q.past.inflight == s.past.inflight
                else if s.failed then q.request == NONE && q.past.inflight == []
                else
                  && q.running && q.current == REPOSITION && !q.discard
                  && q.past.inflight == [Request(REPOSITION, s.past.repositions + 1, s.past.repositions + 1)])
  {
    RunStep(es, Reposition);
  }

  /** In every run bytes given to an open stream join the input, unless the end of input was given before. */
  lemma {:induction false} BytesAreTaken(es: seq<Event>, bytes: seq<int>)
    requires !Run(es).closed
    ensures var s, q := Run(es), Run(es + [Push(bytes)]);
            q == if s.finished then s else s.(input := s.input + bytes, past := s.past.(pushed := s.past.pushed + bytes))
  {
    RunStep(es, Push(bytes));
  }

  /** In every run the end of input is noted, to go to the worker with the next read, and a closed stream takes
  no further requests. */
  lemma {:induction false} EndsAreNoted(es: seq<Event>)
    requires !Run(es).closed
    ensures var s, q := Run(es), Run(es + [Finish]);
            q.finished && q.finishPending && q.past.finishes == s.past.finishes + 1 && q.input == s.input
    ensures Run(es + [Close]).closed && Run(es + [Close]).request == NONE
  {
    RunStep(es, Finish);
    RunStep(es, Close);
  }

  /** In every run a wait for what is ready, or for what will not come, returns at once; otherwise it takes
  the place of the wait before it, which returns. */
  lemma {:induction false} WaitsArePlaced(es: seq<Event>)
    requires !Run(es).closed
    ensures var s, q := Run(es), Run(es + [Wait]);
            if (s.ready && s.readyKind == s.operation) || !s.running then q == s
            else q.waiter && q.past.parked == s.past.parked + 1 && q.past.woken == s.past.parked
  {
    RunStep(es, Wait);
    var s := Run(es);
    assert s.past.parked == s.past.woken + (if s.waiter then 1 else 0);
    assert Wake(s).past.woken == s.past.parked && Wake(s).past.parked == s.past.parked;
  }

  /** What is ready is the last result there was. */
  ghost predicate Fresh(s: Stream) {
    s.ready ==>
      && s.past.results != []
      && var last := s.past.results[|s.past.results| - 1];
         last.request.kind == s.readyKind && last.status == s.status
  }

  /** The two streams show the guest the same result. */
  ghost predicate SameResult(s: Stream, t: Stream) {
    t.ready == s.ready && t.readyKind == s.readyKind && t.status == s.status && t.past.results == s.past.results
  }

  lemma {:induction false} WakeSame(s: Stream)
    ensures SameResult(s, Wake(s))
  {
  }

  lemma {:induction false} LoopHeadSame(s: Stream)
    ensures SameResult(s, LoopHead(s))
  {
    WakeSame(s.(running := false));
  }

  lemma {:induction false} ScheduleSame(s: Stream)
    ensures SameResult(s, Schedule(s))
  {
    LoopHeadSame(s.(running := true));
  }

  lemma {:induction false} AcceptFresh(s: Stream, answered: bool, status: int)
    requires Inv(s) && Fresh(s) && s.past.inflight != []
    ensures Fresh(Accept(s, answered, status))
  {
    if !s.discard {
      var past := s.past.(inflight := s.past.inflight[1..],
                          results := s.past.results + [Result(s.past.inflight[0], answered, status, s.past.repositions)]);
      WakeSame(s.(busy := false, status := status, past := past, ready := true, readyKind := s.current));
    }
  }

  lemma {:induction false} ReplyFresh(s: Stream, answered: bool, answer: int)
    requires Inv(s) && Fresh(s) && s.past.inflight != []
    ensures Fresh(Reply(s, answered, answer))
  {
    var status := Told(s.current, answered, answer);
    if Repeats(s, status) {
      LoopHeadSame(Answered(s).(request := READ));
    } else {
      AcceptFresh(s, answered, status);
      LoopHeadSame(Accept(s, answered, status));
    }
  }

  lemma {:induction false} CallFresh(s: Stream, e: Event)
    requires Fresh(s) && !e.Answer? && !e.Fail?
    ensures Fresh(Call(s, e))
  {
    match e
    case Read => ScheduleSame(s.(operation := READ, ready := false, request := READ));
    case Reposition => ScheduleSame(Repositioned(s));
    case Wait => WakeSame(s);
    case TakeResult => ScheduleSame(s.(ready := false, operation := NONE, request := READ));
    case _ =>
  }

  lemma {:induction false} ReadyIsLast(es: seq<Event>)
    ensures Fresh(Run(es))
  {
    if es != [] {
      var s, e := Run(es[..|es| - 1]), es[|es| - 1];
      ReadyIsLast(es[..|es| - 1]);
      RunOk(es[..|es| - 1]);
      if e.Answer? {
        if s.past.inflight != [] {
          ReplyFresh(s, !s.failed, e.status);
        }
      } else if !e.Fail? {
        CallFresh(s, e);
      }
    }
  }

  /** In every run taking a result hands out the status of the last result if it is one of the present
  operation, or that of a failed read or an empty reposition if it has not come; either way it is gone
  afterwards.  After a chunk the next is asked for at once. */
  lemma {:induction false} TakingAResult(es: seq<Event>)
    requires !Run(es).closed
    ensures var s, q := Run(es), Run(es + [TakeResult]);
            && !q.ready && q.operation == NONE
            && (if s.ready && s.readyKind == s.operation then
                  && s.past.results != []
                  && s.past.results[|s.past.results| - 1].request.kind == s.operation
                  && Words(s) == s.past.results[|s.past.results| - 1].status
                else Words(s) == if s.operation == READ then -2 else 0)
            && (if s.ready && s.readyKind == READ && s.status == 1 then
                  if s.running then q.request == READ && q.past == s.past
                  else if s.failed then q.request == NONE && q.past == s.past
                  else q.past.inflight == [Request(READ, s.past.repositions, s.past.position)] && q.past.sent == s.past.sent + s.input
                else q.past == s.past && q.request == s.request)
  {
    RunStep(es, TakeResult);
    ReadyIsLast(es);
  }

  // ----- Reads and repositions are answered -----

  /** The result the guest asked for last can be taken. */
  predicate CanTake(s: Stream, kind: Kind) {
    s.ready && s.readyKind == kind == s.operation
  }

  /** The next answer of the worker is the one asked for. */
  ghost predicate OneAway(s: Stream, kind: Kind) {
    && Inv(s) && s.running && !s.closed && s.operation == kind == s.current && !s.discard && s.request == NONE
    && (kind == READ ==> s.input == [] && !s.finishPending)
  }

  /** The next answer is the one asked for, or is followed by it. */
  ghost predicate TwoAway(s: Stream, kind: Kind) {
    && Inv(s) && s.running && !s.closed && s.operation == kind
    && (s.request == kind || (s.request == NONE && s.current == kind == READ && !s.discard))
  }

  lemma {:induction false} OneAnswer(s: Stream, kind: Kind, status: int)
    requires OneAway(s, kind)
    ensures CanTake(Step(s, Answer(status)), kind)
  {
    PublishedIsReady(s, !s.failed, Told(s.current, !s.failed, status));
    OperationStays(s, !s.failed, Told(s.current, !s.failed, status));
  }

  lemma {:induction false} OperationStays(s: Stream, answered: bool, status: int)
    requires Inv(s) && s.past.inflight != []
    ensures LoopHead(Accept(s, answered, status)).operation == s.operation
  {
    AcceptKeeps(s, answered, status);
    WakeKeeps(Accept(s, answered, status).(running := false));
  }

  lemma {:induction false} TwoAnswers(s: Stream, kind: Kind, status: int)
    requires TwoAway(s, kind) && kind != NONE
    ensures CanTake(Step(s, Answer(status)), kind) || OneAway(Step(s, Answer(status)), kind)
  {
    StepOk(s, Answer(status));
    var told := Told(s.current, !s.failed, status);
    if Repeats(s, told) {
    } else if s.request == kind {
      AcceptKeeps(s, !s.failed, told);
      OperationStays(s, !s.failed, told);
    } else {
      PublishedIsReady(s, !s.failed, told);
      OperationStays(s, !s.failed, told);
    }
  }

  lemma {:induction false} RequestLeads(s: Stream, e: Event, kind: Kind)
    requires Inv(s) && !s.closed && (s.running || !s.failed)
    requires (e.Read? && kind == READ) || (e.Reposition? && kind == REPOSITION)
    ensures CanTake(Step(s, e), kind) || OneAway(Step(s, e), kind) || TwoAway(Step(s, e), kind)
  {
    StepOk(s, e);
  }

  /** `s` is a state in which the result can be taken, or it can be after one more answer, or after two. */
  ghost predicate Soon(s: Stream, kind: Kind, a: int, b: int) {
    || CanTake(s, kind)
    || (s.past.inflight != [] && CanTake(Step(s, Answer(a)), kind))
    || (s.past.inflight != [] && Step(s, Answer(a)).past.inflight != [] && CanTake(Step(Step(s, Answer(a)), Answer(b)), kind))
  }

  lemma {:induction false} LeadsSoon(s: Stream, kind: Kind, a: int, b: int)
    requires kind != NONE && (CanTake(s, kind) || OneAway(s, kind) || TwoAway(s, kind))
    ensures Soon(s, kind, a, b)
  {
    if OneAway(s, kind) {
      OneAnswer(s, kind, a);
    } else if TwoAway(s, kind) {
      TwoAnswers(s, kind, a);
      if OneAway(Step(s, Answer(a)), kind) {
        OneAnswer(Step(s, Answer(a)), kind, b);
      }
    }
  }

  /** In every run the result of a read or a reposition of an open stream that has a worker, or a request in
  it, can be taken after at most two answers, if nothing else is asked for meanwhile. */
  lemma {:induction false} RequestsAreAnswered(es: seq<Event>, e: Event, a: int, b: int)
    requires !Run(es).closed && (e.Read? || e.Reposition?) && (Run(es).running || !Run(es).failed)
    ensures Soon(Run(es + [e]), if e.Read? then READ else REPOSITION, a, b)
  {
    RunStep(es, e);
    RequestLeads(Run(es), e, if e.Read? then READ else REPOSITION);
    LeadsSoon(Run(es + [e]), if e.Read? then READ else REPOSITION, a, b);
  }
}
