/** The instance fields behind asynchronous imports, updated in place. */
module AsyncHost {
  import opened AsyncImport
  import RunLoopPump

  class HostCalls {
    const pump: RunLoopPump.PumpState
    /** The guest's futures, as its exports show them. */
    var frames: map<nat, Frame>
    var calls: seq<Call>
    var completions: map<nat, nat>
    var cancellations: map<nat, nat>
    var hostPending: int
    var hostErrors: set<nat>

    ghost function Model(): Bridge
      reads this, pump
    {
      Bridge(frames, calls, completions, cancellations, hostPending, hostErrors, pump.wakes)
    }

    constructor ()
      ensures pump.Valid() && fresh(pump) && Model() == START
    {
      pump := new RunLoopPump.PumpState();
      frames, calls, completions, cancellations, hostPending, hostErrors := map[], [], map[], map[], 0, {};
    }

    /** `__dream_resolve`, `__dream_host_pin` and `__dream_host_unpin` change one frame. */
    method SetFrame(a: nat, f: Frame)
      modifies `frames
      ensures frames == old(frames)[a := f]
    {
      frames := frames[a := f];
    }

    method Call(a: nat, stopsAtOnce: bool, nullOnReject: bool) returns (c: nat)
      requires a in frames
      modifies this
      ensures c == |old(calls)| && Model() == StartCall(old(Model()), a, stopsAtOnce, nullOnReject)
    {
      SetFrame(a, frames[a].(started := true, pins := frames[a].pins + 1));
      c := |calls|;
      calls := calls + [AsyncImport.Call(a, stopsAtOnce, nullOnReject, false, false, false, Waiting, 0, 0)];
      cancellations := cancellations[a := c];
      completions := completions[a := c];
      hostPending := hostPending + 1;
    }

    method SettleCall(c: nat, throws: bool)
      requires c < |calls| && pump.Valid()
      modifies this, pump
      ensures pump.Valid() && |calls| == |old(calls)| && Model() == Settle(old(Model()), c, throws)
    {
      if calls[c].settled {
        return;
      }
      var a := calls[c].future;
      calls := calls[c := calls[c].(settled := true, unpins := calls[c].unpins + 1)];
      completions := completions - {a};
      hostPending := hostPending - 1;
      cancellations := cancellations - {a};
      if a in frames {
        var f := frames[a];
        if f.status == 0 && !throws {
          f := f.(status := 1, resolutions := f.resolutions + 1);
          pump.PumpRunLoop();
        }
        // The pin is released whether or not the result could be converted.
        SetFrame(a, Unpin(f));
      }
    }

    method CancelCall(a: nat, throws: bool)
      requires pump.Valid()
      modifies this, pump
      ensures pump.Valid() && Model() == HostCancel(old(Model()), a, throws)
    {
      if a in cancellations && cancellations[a] < |calls| {
        var c := cancellations[a];
        var call := calls[c];
        calls := calls[c := call.(requested := true, cancels := if call.cancellable then call.cancels + 1 else call.cancels)];
        if call.cancellable && throws {
          return;
        }
        if call.stopsAtOnce {
          SettleCall(c, false);
        }
      }
    }

    method BeginWork(c: nat, cancellable: bool)
      requires c < |calls| && calls[c].phase == Waiting
      modifies `calls
      ensures Model() == Begin(old(Model()), c, cancellable)
    {
      var call := calls[c].(phase := Working);
      if !call.settled {
        call := call.(cancellable := cancellable);
        if cancellable && call.requested {
          call := call.(cancels := call.cancels + 1);
        }
      }
      calls := calls[c := call];
    }

    method FinishWork(c: nat, rejected: bool, throws: bool)
      requires c < |calls| && calls[c].phase == Working && pump.Valid()
      modifies this, pump
      ensures pump.Valid() && Model() == Finish(old(Model()), c, rejected, throws)
    {
      if rejected && !calls[c].requested && !calls[c].nullOnReject {
        hostErrors := hostErrors + {c};
      }
      SettleCall(c, throws);
      calls := calls[c := calls[c].(phase := Finished)];
    }
  }
}

/** The run-loop pump (`pumpRunLoop`): a drain is queued as a microtask, never started in place. */
module RunLoopPump {

  /** `scheduled` and `active` count the drains in the microtask queue and on the stack; `wakes`
  counts pump requests and `served` how many of them a started run loop has seen. */
  datatype Pump = Pump(running: bool, queued: bool, scheduled: nat, active: nat, wakes: nat, served: nat)

  const START := Pump(false, false, 0, 0, 0, 0)

  function Request(p: Pump): Pump {
    var p1 := p.(queued := true, wakes := p.wakes + 1);
    if p.running then p1 else p1.(running := true, scheduled := p1.scheduled + 1)
  }

  /** The end of a drain, with its `finally` part. */
  function EndDrain(p: Pump): Pump {
    var p1 := p.(running := false, active := if p.active > 0 then p.active - 1 else 0);
    if p1.queued then p1.(running := true, scheduled := p1.scheduled + 1) else p1
  }

  /** The head of the drain's loop: starts the run loop, or ends. */
  function LoopHead(p: Pump): Pump {
    if p.queued then p.(queued := false, served := p.wakes) else EndDrain(p)
  }

  datatype Event =
    | EvRequest                  // from anywhere, also from inside the run loop
    | EvMicrotask                // the queue may be flushed at any import boundary
    | EvLoopDone(throws: bool)   // the innermost run loop returns or throws

  function Step(p: Pump, e: Event): Pump {
    match e
    case EvRequest => Request(p)
    case EvMicrotask =>
      if p.scheduled == 0 then p else LoopHead(p.(scheduled := p.scheduled - 1, active := p.active + 1))
    case EvLoopDone(throws) => if p.active == 0 then p else if throws then EndDrain(p) else LoopHead(p)
  }

  function Run(es: seq<Event>): Pump {
    if es == [] then START else Step(Run(es[..|es| - 1]), es[|es| - 1])
  }

  /** At most one drain is scheduled or active, exactly while `running` is set, so drains never nest;
  a request no run loop has seen is still queued, and then a drain is on its way. */
  lemma {:induction false} PumpInvariant(es: seq<Event>)
    ensures var p := Run(es);
            && p.scheduled + p.active <= 1
            && (p.running <==> p.scheduled + p.active == 1)
            && (p.queued ==> p.running)
            && p.served <= p.wakes && (p.queued <==> p.served < p.wakes)
            && (p.scheduled == 1 ==> p.queued)
  {
    if es != [] {
      PumpInvariant(es[..|es| - 1]);
    }
  }

  lemma {:induction false} RunStep(es: seq<Event>, e: Event)
    ensures Run(es + [e]) == Step(Run(es), e)
  {
    assert (es + [e])[..|es + [e]| - 1] == es;
  }

  /** A run loop has started after the last request. */
  predicate Served(p: Pump) { p.served == p.wakes && !p.queued && p.active == 1 && p.running }

  /** No request waits for ever: in every run a request that no run loop has seen is served when the queue of
  microtasks is next flushed, or when the run loop under way returns, or, should that throw, when the queue
  is flushed after it.  A drain whose run loop returns with nothing left to serve ends. */
  lemma {:induction false} RequestsAreServed(es: seq<Event>, throws: bool)
    ensures var p := Run(es);
            && Run(es + [EvRequest]).queued && Run(es + [EvRequest]).wakes == p.wakes + 1
            && (p.queued && p.scheduled == 1 ==> Served(Run(es + [EvMicrotask])))
            && (p.queued && p.scheduled == 0 ==>
                  Served(if throws then Run(es + [EvLoopDone(true)] + [EvMicrotask]) else Run(es + [EvLoopDone(false)])))
            && (!p.queued && p.active == 1 ==>
                  !Run(es + [EvLoopDone(throws)]).running && Run(es + [EvLoopDone(throws)]).active == 0)
  {
    PumpInvariant(es);
    RunStep(es, EvRequest);
    RunStep(es, EvMicrotask);
    RunStep(es, EvLoopDone(throws));
    RunStep(es + [EvLoopDone(throws)], EvMicrotask);
  }

  /** One run of the scheduler: how often it asks for another pump, and whether it throws. */
  datatype LoopRun = LoopRun(requests: nat, throws: bool)

  class PumpState {
    var running: bool
    var queued: bool
    var scheduled: nat
    ghost var active: nat
    ghost var wakes: nat
    ghost var served: nat
    var failed: bool

    ghost function Model(): Pump
      reads this
    {
      Pump(running, queued, scheduled, active, wakes, served)
    }

    ghost predicate Valid()
      reads this
    {
      && scheduled + active <= 1 && (running <==> scheduled + active == 1)
      && (queued ==> running) && served <= wakes && (queued <==> served < wakes) && (scheduled == 1 ==> queued)
    }

    constructor ()
      ensures Valid() && Model() == START
    {
      running, queued, scheduled, failed := false, false, 0, false;
      active, wakes, served := 0, 0, 0;
    }

    method PumpRunLoop()
      requires Valid()
      modifies this
      ensures Valid() && Model() == Request(old(Model())) && failed == old(failed)
    {
      queued := true;
      wakes := wakes + 1;
      if running {
        return;
      }
      running := true;
      scheduled := scheduled + 1;
    }

    /** The scheduled drain runs; its n-th run loop behaves as `script[n]` says, later ones ask for
    nothing.  The drain ends with every request served, unless a run loop threw; requests left over
    by a throw have a new drain scheduled. */
    method Drain(script: seq<LoopRun>) returns (threw: bool)
      requires Valid() && scheduled == 1
      modifies this
      ensures Valid() && active == 0
      ensures served > old(served) && served >= old(wakes)
      ensures queued ==> threw && scheduled == 1
      ensures !queued ==> served == wakes && !running
      ensures failed == (old(failed) || threw)
    {
      scheduled := scheduled - 1;
      active := active + 1;
      threw := false;
      var n := 0;
      while queued && !threw
        invariant n <= |script| + 1 && scheduled == 0 && active == 1 && running && failed == old(failed)
        invariant served <= wakes && (queued <==> served < wakes) && wakes >= old(wakes)
        invariant if n == 0 then queued && !threw && served == old(served) else served > old(served) && served >= old(wakes)
        invariant n == |script| + 1 ==> !queued
        decreases |script| + 1 - n
      {
        queued := false;
        served := wakes;
        if n < |script| {
          for i := 0 to script[n].requests
            invariant Valid() && scheduled == 0 && active == 1 && failed == old(failed)
            invariant served > old(served) && served >= old(wakes) && wakes >= old(wakes)
          {
            PumpRunLoop();
          }
          threw := script[n].throws;
        }
        n := n + 1;
      }
      failed := failed || threw;
      running := false;
      active := active - 1;
      if queued {
        running := true;
        scheduled := scheduled + 1;
      }
    }
  }
}
