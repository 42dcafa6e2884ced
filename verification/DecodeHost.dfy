/** The streaming decoder module: stream records, the job loop that runs on each, and the calls that find
a record by its handle.  Every method is proved to be the step of `DecodeStream` it carries out.
 */
module DecodeHost {
  import opened Containers
  import opened DecodeStream

  /** The worker that all streams share. */
  class DecodeWorker {
    var available: bool

    constructor ()
      ensures available
    {
      available := true;
    }
  }

  function WithoutResult(s: Stream): Stream {
    s.(operation := REPOSITION, ready := false, discard := s.running, request := REPOSITION)
  }

  function WithoutInput(s: Stream): Stream {
    s.(input := [], finished := false, finishPending := false,
       past := s.past.(repositions := s.past.repositions + 1, pushed := [], sent := [], finishes := 0, finishesSent := 0))
  }

  lemma {:induction false} RepositionedIs(s: Stream)
    ensures Repositioned(s) == WithoutInput(WithoutResult(s))
  {
  }

  /** A call on an open stream is a step that keeps the invariant. */
  lemma {:induction false} CallIsStep(s: Stream, e: Event)
    requires Inv(s) && !s.closed && !e.Answer? && !e.Fail?
    ensures Step(s, e) == Call(s, e) && Inv(Call(s, e))
  {
    CallOk(s, e);
  }

  lemma {:induction false} ReadNextIs(s: Stream)
    ensures var s1 := s.(operation := READ);
            ReadNext(s) == if ReadPending(s) then s1 else Schedule(s1.(ready := false, request := READ))
  {
  }

  class StreamRecord {
    const worker: DecodeWorker
    var closed: bool
    var running: bool
    var busy: bool
    var request: Kind
    var current: Kind
    var discard: bool
    var finishPending: bool
    var finished: bool
    var input: seq<int>
    var operation: Kind
    var ready: bool
    var readyKind: Kind
    var status: int
    var waiter: bool
    /** Close messages sent to the worker. */
    ghost var closes: nat
    ghost var past: History

    ghost function Model(): Stream
      reads this, worker
    {
      Stream(closed, running, busy, request, current, discard, finishPending, finished, input, operation, ready,
             readyKind, status, waiter, !worker.available, closes, past)
    }

    constructor (worker: DecodeWorker)
      ensures this.worker == worker && Model() == OPENED.(failed := !worker.available)
    {
      this.worker := worker;
      closed, running, busy, request, current, discard := false, false, false, NONE, NONE, false;
      finishPending, finished, input, operation := false, false, [], NONE;
      ready, readyKind, status, waiter := false, NONE, 0, false;
      closes, past := 0, OPENED.past;
    }

    method Settle()
      modifies this`waiter, this`past
      ensures Model() == Wake(old(Model())) && closed == old(closed)
    {
      if waiter {
        waiter, past := false, past.(woken := past.woken + 1);
      }
    }

    method PublishResult(kind: Kind)
      modifies this
      ensures Model() == Publish(old(Model()), kind) && closed == old(closed)
    {
      ready, readyKind := true, kind;
      if operation == kind {
        Settle();
      }
    }

    /** Takes the next request to the worker. */
    method PostRequest()
      modifies this
      ensures Model() == Issue(old(Model())) && closed == old(closed)
    {
      var kind, finish, bytes := request, finishPending, input;
      StartRequest();
      ghost var position := if kind == READ || !worker.available then past.position else past.repositions;
      ghost var sent := if kind == READ then past.sent + bytes else past.sent;
      ghost var finishesSent := if kind == READ && finish then past.finishesSent + 1 else past.finishesSent;
      past := past.(position := position, sent := sent, finishesSent := finishesSent,
                    inflight := past.inflight + [Request(kind, past.repositions, position)]);
    }

    method StartRequest()
      modifies this`current, this`request, this`busy, this`discard, this`finishPending, this`input
      ensures Model() == old(Model()).(current := old(request), request := NONE, busy := true, discard := false,
                                       finishPending := false, input := [])
    {
      current, request := request, NONE;
      busy, discard, finishPending, input := true, false, false, [];
    }

    /** The job loop up to the point where it waits for the worker, or to its end. */
    method RunHead()
      modifies this
      ensures Model() == LoopHead(old(Model())) && closed == old(closed)
    {
      if closed || request == NONE {
        StopRun();
        if closed {
          SendClose();
        }
        return;
      }
      PostRequest();
    }

    method StopRun()
      modifies this`running, this`waiter, this`past
      ensures Model() == Wake(old(Model()).(running := false))
    {
      running := false;
      assert Model() == old(Model()).(running := false);
      Settle();
    }

    method SendClose()
      modifies this`closes
      ensures Model() == old(Model()).(closes := old(closes) + 1)
    {
      closes := closes + 1;
    }

    /** Makes the answer visible unless a reposition has overtaken its request. */
    method AcceptAnswer(ghost answered: bool, answer: int)
      requires past.inflight != []
      modifies this
      ensures Model() == Accept(old(Model()), answered, answer) && closed == old(closed)
    {
      ghost var result := Result(past.inflight[0], answered, answer, past.repositions);
      EndRequest();
      if !discard {
        KeepAnswer(answer, result);
        PublishResult(current);
      }
    }

    method EndRequest()
      requires past.inflight != []
      modifies this`busy, this`past
      ensures Model() == Answered(old(Model())).(busy := false)
    {
      busy, past := false, past.(inflight := past.inflight[1..]);
    }

    method KeepAnswer(answer: int, ghost result: Result)
      modifies this`status, this`past
      ensures Model() == old(Model()).(status := answer, past := old(past).(results := old(past).results + [result]))
    {
      status, past := answer, past.(results := past.results + [result]);
    }

    /** The job loop once the worker has answered, or has been lost. */
    method RunReply(answered: bool, answer: int)
      requires past.inflight != [] && current != NONE
      modifies this
      ensures Model() == Reply(old(Model()), answered, answer) && closed == old(closed)
    {
      var seen := if answered then answer else -2;
      if current == READ && seen == 0 && !discard && request == NONE && (|input| > 0 || finishPending) {
        request, past := READ, past.(inflight := past.inflight[1..]);
      } else if current == REPOSITION {
        AcceptAnswer(answered, if answered then answer else 0);
      } else {
        AcceptAnswer(answered, seen);
      }
      RunHead();
    }

    /** The worker answers, unless it is lost. */
    method OnAnswer(answer: int)
      requires Inv(Model()) && past.inflight != []
      modifies this
      ensures Model() == Step(old(Model()), Answer(answer)) && Inv(Model()) && closed == old(closed)
    {
      ghost var s := Model();
      ReplyOk(s, worker.available, answer);
      RunReply(worker.available, answer);
    }

    method ScheduleRun() returns (accepted: bool)
      modifies this
      ensures Model() == Schedule(old(Model())) && closed == old(closed)
      ensures accepted == old(running || worker.available)
    {
      if running {
        return true;
      }
      if !worker.available {
        request := NONE;
        return false;
      }
      running := true;
      RunHead();
      return true;
    }

    method Read() returns (accepted: bool)
      modifies this
      ensures Model() == ReadNext(old(Model())) && closed == old(closed)
      ensures accepted == old(ReadPending(Model()) || running || worker.available)
    {
      ReadNextIs(Model());
      SetOperation(READ);
      var pending := request == READ || (busy && current == READ && !discard);
      if (ready && readyKind == READ) || pending {
        return true;
      }
      accepted := StartRead();
    }

    method SetOperation(kind: Kind)
      modifies this`operation
      ensures Model() == old(Model()).(operation := kind)
    {
      operation := kind;
    }

    method StartRead() returns (accepted: bool)
      modifies this
      ensures Model() == Schedule(old(Model()).(ready := false, request := READ)) && closed == old(closed)
      ensures accepted == old(running || worker.available)
    {
      ready, request := false, READ;
      assert Model() == old(Model()).(ready := false, request := READ);
      accepted := ScheduleRun();
    }

    method Reposition() returns (accepted: bool)
      modifies this
      ensures Model() == Schedule(Repositioned(old(Model()))) && closed == old(closed)
      ensures accepted == old(running || worker.available)
    {
      RepositionedIs(Model());
      DropResult();
      DropInput();
      accepted := ScheduleRun();
    }

    /** A result, ready or under way, is of no use after a reposition. */
    method DropResult()
      modifies this`operation, this`ready, this`discard, this`request
      ensures Model() == WithoutResult(old(Model()))
    {
      operation, ready, discard, request := REPOSITION, false, running, REPOSITION;
    }

    /** Nor is what was pushed. */
    method DropInput()
      modifies this`input, this`finished, this`finishPending, this`past
      ensures Model() == WithoutInput(old(Model()))
    {
      input, finished, finishPending := [], false, false;
      past := past.(repositions := past.repositions + 1, pushed := [], sent := [], finishes := 0, finishesSent := 0);
    }

    method TakeBytes(bytes: seq<int>)
      modifies this`input, this`past
      ensures Model() == old(Model()).(input := old(input) + bytes, past := old(past).(pushed := old(past).pushed + bytes))
    {
      input, past := input + bytes, past.(pushed := past.pushed + bytes);
    }

    method TakeEnd()
      modifies this`finished, this`finishPending, this`past
      ensures Model() == old(Model()).(finished := true, finishPending := true, past := old(past).(finishes := old(past).finishes + 1))
    {
      finished, finishPending, past := true, true, past.(finishes := past.finishes + 1);
    }

    method Wait()
      modifies this
      ensures Model() == WaitReady(old(Model())) && closed == old(closed)
    {
      if (ready && readyKind == operation) || !running {
        return;
      }
      Settle();
      waiter, past := true, past.(parked := past.parked + 1);
    }

    /** Hands out the result of the present operation; if it is not there yet, a read reports a failure and
    anything else an empty result. */
    method TakeResult() returns (words: int)
      requires !closed
      modifies this
      ensures Model() == Claim(old(Model())) && closed == old(closed)
      ensures words == Words(old(Model()))
    {
      if !ready || readyKind != operation {
        words := if operation == READ then -2 else 0;
      } else {
        words := status;
      }
      var prefetch := ready && readyKind == READ && status == 1 && !closed;
      ready, operation := false, NONE;
      if prefetch {
        request := READ;
        var _ := ScheduleRun();
      }
    }

    method Close()
      modifies this
      ensures Model() == CloseStream(old(Model()))
    {
      closed, request := true, NONE;
      if !running {
        SendClose();
      }
    }
  }

  class DecoderModule {
    const streaming: DecodeWorker
    var streams: map<nat, StreamRecord>
    var nextHandle: nat

    /** Every handle stands for an open record of its own. */
    ghost predicate Valid()
      reads this, streaming, streams.Values
    {
      && (forall h :: h in streams ==>
            h < nextHandle && streams[h].worker == streaming && !streams[h].closed && Inv(streams[h].Model()))
      && (forall h, k :: h in streams && k in streams && h != k ==> streams[h] != streams[k])
    }

    constructor ()
      ensures Valid() && streams == map[]
    {
      streaming := new DecodeWorker();
      streams, nextHandle := map[], 1;
    }

    /** Opens a stream unless there is no worker; handle 0 means none. */
    method StreamOpen() returns (handle: nat)
      requires Valid()
      modifies this
      ensures Valid()
      ensures if old(streaming.available) then
                && handle !in old(streams) && handle in streams && fresh(streams[handle])
                && streams == old(streams)[handle := streams[handle]] && streams[handle].Model() == OPENED
              else handle == 0 && streams == old(streams)
    {
      if !streaming.available {
        return 0;
      }
      handle := nextHandle;
      nextHandle := nextHandle + 1;
      var s := new StreamRecord(streaming);
      streams := streams[handle := s];
    }

    /** `fits` says that the stream has room for the bytes. */
    method StreamPush(handle: nat, bytes: seq<int>, fits: bool) returns (accepted: bool)
      requires Valid()
      modifies if handle in streams then {streams[handle]} else {}
      ensures Valid() && accepted == (handle in streams && fits && !old(handle in streams && streams[handle].finished))
      ensures handle in streams && fits ==> streams[handle].Model() == Step(old(streams[handle].Model()), Push(bytes))
      ensures handle in streams && !fits ==> streams[handle].Model() == old(streams[handle].Model())
    {
      if handle !in streams {
        return false;
      }
      var s := streams[handle];
      if s.finished || !fits {
        return false;
      }
      CallIsStep(s.Model(), Push(bytes));
      s.TakeBytes(bytes);
      return true;
    }

    method StreamFinish(handle: nat)
      requires Valid()
      modifies if handle in streams then {streams[handle]} else {}
      ensures Valid()
      ensures handle in streams ==> streams[handle].Model() == Step(old(streams[handle].Model()), Finish)
    {
      if handle !in streams {
        return;
      }
      var s := streams[handle];
      CallIsStep(s.Model(), Finish);
      s.TakeEnd();
    }

    method StreamRead(handle: nat) returns (accepted: bool)
      requires Valid()
      modifies if handle in streams then {streams[handle]} else {}
      ensures Valid()
      ensures handle in streams ==> streams[handle].Model() == Step(old(streams[handle].Model()), DecodeStream.Read)
      ensures accepted == (handle in streams && old(ReadPending(streams[handle].Model()) || streams[handle].running || streaming.available))
    {
      if handle !in streams {
        return false;
      }
      CallIsStep(streams[handle].Model(), DecodeStream.Read);
      accepted := streams[handle].Read();
    }

    method StreamReposition(handle: nat) returns (accepted: bool)
      requires Valid()
      modifies if handle in streams then {streams[handle]} else {}
      ensures Valid()
      ensures handle in streams ==> streams[handle].Model() == Step(old(streams[handle].Model()), DecodeStream.Reposition)
      ensures accepted == (handle in streams && old(streams[handle].running || streaming.available))
    {
      if handle !in streams {
        return false;
      }
      CallIsStep(streams[handle].Model(), DecodeStream.Reposition);
      accepted := streams[handle].Reposition();
    }

    method StreamWait(handle: nat)
      requires Valid()
      modifies if handle in streams then {streams[handle]} else {}
      ensures Valid()
      ensures handle in streams ==> streams[handle].Model() == Step(old(streams[handle].Model()), DecodeStream.Wait)
    {
      if handle !in streams {
        return;
      }
      CallIsStep(streams[handle].Model(), DecodeStream.Wait);
      streams[handle].Wait();
    }

    /** The first of the words handed out, or none if there is no such stream. */
    method StreamResult(handle: nat) returns (words: Option<int>)
      requires Valid()
      modifies if handle in streams then {streams[handle]} else {}
      ensures Valid()
      ensures handle in streams ==> streams[handle].Model() == Step(old(streams[handle].Model()), DecodeStream.TakeResult)
      ensures words == if handle in streams then Some(Words(old(streams[handle].Model()))) else None
    {
      if handle !in streams {
        return None;
      }
      CallIsStep(streams[handle].Model(), DecodeStream.TakeResult);
      var status := streams[handle].TakeResult();
      return Some(status);
    }

    /** The record is no longer found; its loop, if it runs, ends by itself. */
    method StreamClose(handle: nat)
      requires Valid()
      modifies this`streams, if handle in streams then {streams[handle]} else {}
      ensures Valid() && streams == old(streams) - {handle}
      ensures handle in old(streams) ==>
                var s := old(streams)[handle];
                s.Model() == Step(old(s.Model()), DecodeStream.Close) && Inv(s.Model())
    {
      if handle !in streams {
        return;
      }
      var s := streams[handle];
      streams := streams - {handle};
      CallIsStep(s.Model(), DecodeStream.Close);
      s.Close();
    }

    /** The worker answers the request of a record, which may have been closed meanwhile. */
    method OnReply(s: StreamRecord, answer: int)
      requires Valid() && s.worker == streaming && Inv(s.Model()) && s.past.inflight != []
      modifies s
      ensures Valid() && s.Model() == Step(old(s.Model()), Answer(answer)) && Inv(s.Model())
    {
      s.OnAnswer(answer);
    }

    /** The worker is lost, for all streams at once. */
    method LoseWorker()
      requires Valid()
      modifies streaming
      ensures Valid()
      ensures forall h :: h in streams ==> streams[h].Model() == Step(old(streams[h].Model()), Fail)
    {
      forall h | h in streams ensures Inv(Step(streams[h].Model(), Fail)) {
        StepOk(streams[h].Model(), Fail);
      }
      streaming.available := false;
    }
  }
}
