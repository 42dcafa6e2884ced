/** Asynchronous host imports (`startAsyncImport`): a host call pins the guest's future, races
fulfilment, rejection, cancellation and direct completion, and settles once.

Guest futures live at addresses that the guest reuses once a frame is free; a pinned frame is not
freed.  A call starts from its future's first poll, so at most once per frame.
 */
module AsyncImport {

  /** A guest future: status 0 is pending, 1 resolved, 2 cancelled.  `resolutions` counts how often
  the host resolved this frame. */
  datatype Frame = Frame(status: nat, started: bool, pins: nat, resolutions: nat)

  datatype Phase = Waiting | Working | Finished

  /** One host call.  `cancels` counts how often the work was asked to stop, `unpins` how often the
  call released its pin. */
  datatype Call = Call(
    future: nat, stopsAtOnce: bool, nullOnReject: bool, settled: bool, requested: bool, cancellable: bool,
    phase: Phase, cancels: nat, unpins: nat)

  /** `wakes` counts how often the run loop was asked to go on. */
  datatype Bridge = Bridge(
    frames: map<nat, Frame>, calls: seq<Call>, completions: map<nat, nat>, cancellations: map<nat, nat>,
    hostPending: int, hostErrors: set<nat>, wakes: nat)

  const START := Bridge(map[], [], map[], map[], 0, {}, 0)

  function Unpin(f: Frame): Frame { f.(pins := if f.pins > 0 then f.pins - 1 else 0) }

  /** Settles call `c` unless it is settled; `throws` says that converting the result fails. */
  function Settle(b: Bridge, c: nat, throws: bool): (r: Bridge)
    requires c < |b.calls|
    ensures |r.calls| == |b.calls|
  {
    var call := b.calls[c];
    var a := call.future;
    if call.settled then b
    else
      var b1 := b.(calls := b.calls[c := call.(settled := true, unpins := call.unpins + 1)],
                   completions := b.completions - {a}, cancellations := b.cancellations - {a},
                   hostPending := b.hostPending - 1);
      if a !in b.frames then b1
      else
        var f := b.frames[a];
        if f.status == 0 && !throws then
          b1.(frames := b.frames[a := Unpin(f.(status := 1, resolutions := f.resolutions + 1))], wakes := b.wakes + 1)
        else b1.(frames := b.frames[a := Unpin(f)])
  }

  /** The import is called with the guest's future as its first argument. */
  function StartCall(b: Bridge, a: nat, stopsAtOnce: bool, nullOnReject: bool): Bridge
    requires a in b.frames
  {
    var c := |b.calls|;
    b.(frames := b.frames[a := b.frames[a].(started := true, pins := b.frames[a].pins + 1)],
       calls := b.calls + [Call(a, stopsAtOnce, nullOnReject, false, false, false, Waiting, 0, 0)],
       completions := b.completions[a := c], cancellations := b.cancellations[a := c],
       hostPending := b.hostPending + 1)
  }

  /** The cancellation entry of call `c` runs; `throws` says that the work's own `cancel` fails. */
  function RequestCancel(b: Bridge, c: nat, throws: bool): Bridge
    requires c < |b.calls|
  {
    var call := b.calls[c];
    var b1 := b.(calls := b.calls[c := call.(requested := true,
                                             cancels := if call.cancellable then call.cancels + 1 else call.cancels)]);
    if call.stopsAtOnce && !(call.cancellable && throws) then Settle(b1, c, false) else b1
  }

  /** `asyncHostCancel`: finds the entry for the future, if there is one. */
  function HostCancel(b: Bridge, a: nat, throws: bool): Bridge {
    if a in b.cancellations && b.cancellations[a] < |b.calls| then RequestCancel(b, b.cancellations[a], throws) else b
  }

  /** The deferred start of the work; a call that is already settled does no work. */
  function Begin(b: Bridge, c: nat, cancellable: bool): Bridge
    requires c < |b.calls|
  {
    var call := b.calls[c];
    if call.phase != Waiting then b
    else if call.settled then b.(calls := b.calls[c := call.(phase := Working)])
    else
      b.(calls := b.calls[c := call.(phase := Working, cancellable := cancellable,
                                     cancels := if cancellable && call.requested then call.cancels + 1 else call.cancels)])
  }

  /** The promise of the work settles. */
  function Finish(b: Bridge, c: nat, rejected: bool, throws: bool): Bridge
    requires c < |b.calls|
  {
    var call := b.calls[c];
    if call.phase != Working then b
    else
      var errors := if rejected && !call.requested && !call.nullOnReject then b.hostErrors + {c} else b.hostErrors;
      var b1 := Settle(b.(hostErrors := errors), c, throws);
      b1.(calls := b1.calls[c := b1.calls[c].(phase := Finished)])
  }

  datatype Event =
    | Alloc(a: nat)
    | Free(a: nat)
    | Poll(a: nat, stopsAtOnce: bool, nullOnReject: bool)   // first poll of the future
    | GuestResolve(a: nat)
    | GuestCancel(a: nat, throws: bool)                     // marks the frame, then tells the host
    | CancelHost(a: nat, throws: bool)                      // tells the host again
    | Complete(a: nat, throws: bool)                        // direct completion by address
    | Started(c: nat, cancellable: bool)
    | Fulfilled(c: nat, throws: bool)
    | Rejected(c: nat, throws: bool)

  function Step(b: Bridge, e: Event): Bridge {
    match e
    case Alloc(a) => if a in b.frames then b else b.(frames := b.frames[a := Frame(0, false, 0, 0)])
    case Free(a) => if a in b.frames && b.frames[a].pins == 0 then b.(frames := b.frames - {a}) else b
    case Poll(a, atOnce, asNull) =>
      if a in b.frames && !b.frames[a].started then StartCall(b, a, atOnce, asNull) else b
    case GuestResolve(a) =>
      if a in b.frames && b.frames[a].status == 0 then b.(frames := b.frames[a := b.frames[a].(status := 1)]) else b
    case GuestCancel(a, throws) =>
      if a in b.frames && b.frames[a].status == 0 then
        HostCancel(b.(frames := b.frames[a := b.frames[a].(status := 2)]), a, throws)
      else b
    case CancelHost(a, throws) => HostCancel(b, a, throws)
    case Complete(a, throws) =>
      if a in b.completions && b.completions[a] < |b.calls| then Settle(b, b.completions[a], throws) else b
    case Started(c, cancellable) => if c < |b.calls| then Begin(b, c, cancellable) else b
    case Fulfilled(c, throws) => if c < |b.calls| then Finish(b, c, false, throws) else b
    case Rejected(c, throws) => if c < |b.calls| then Finish(b, c, true, throws) else b
  }

  // ----- The invariant -----

  function Unsettled(calls: seq<Call>): nat {
    if calls == [] then 0
    else Unsettled(calls[..|calls| - 1]) + if calls[|calls| - 1].settled then 0 else 1
  }

  /** The call keeps its books: one pin, released when it settles, and no cancel request lost. */
  predicate CallOk(call: Call) {
    && call.unpins == (if call.settled then 1 else 0)
    && (call.cancellable && call.requested ==> call.cancels >= 1)
    && (call.phase == Finished ==> call.settled)
    && (call.cancellable ==> call.phase != Waiting)
  }

  ghost predicate Tables(b: Bridge) {
    && b.completions == b.cancellations
    && (forall a :: a in b.completions ==>
          b.completions[a] < |b.calls| && b.calls[b.completions[a]].future == a && !b.calls[b.completions[a]].settled)
    && (forall c :: 0 <= c < |b.calls| && !b.calls[c].settled ==>
          b.calls[c].future in b.completions && b.completions[b.calls[c].future] == c)
  }

  ghost predicate Pins(b: Bridge) {
    && (forall a :: a in b.completions ==> a in b.frames)
    && (forall a :: a in b.frames ==>
          && b.frames[a].pins == (if a in b.completions then 1 else 0)
          && b.frames[a].resolutions <= 1
          && (b.frames[a].resolutions == 1 ==> b.frames[a].status == 1 && a !in b.completions)
          && (a in b.completions || b.frames[a].resolutions == 1 ==> b.frames[a].started))
  }

  ghost predicate Inv(b: Bridge) {
    && Tables(b) && Pins(b)
    && (forall c :: 0 <= c < |b.calls| ==> CallOk(b.calls[c]))
    && b.hostPending == Unsettled(b.calls)
  }

  lemma {:induction false} UnsettledUpdate(calls: seq<Call>, c: nat, call: Call)
    requires c < |calls|
    ensures Unsettled(calls[c := call]) ==
            Unsettled(calls) + (if call.settled then 0 else 1) - (if calls[c].settled then 0 else 1)
  {
    var last := |calls| - 1;
    var updated := calls[c := call];
    if c == last {
      assert updated[..last] == calls[..last];
    } else {
      assert updated[..last] == calls[..last][c := call];
      UnsettledUpdate(calls[..last], c, call);
    }
  }

  lemma {:induction false} SettleTables(b: Bridge, c: nat, throws: bool)
    requires Tables(b) && c < |b.calls|
    ensures Tables(Settle(b, c, throws))
  {
    assert !b.calls[c].settled ==> b.completions[b.calls[c].future] == c;
  }

  lemma {:induction false} SettlePins(b: Bridge, c: nat, throws: bool)
    requires Tables(b) && Pins(b) && c < |b.calls|
    ensures Pins(Settle(b, c, throws))
  {
    assert !b.calls[c].settled ==> b.calls[c].future in b.completions;
  }

  lemma {:induction false} SettleOk(b: Bridge, c: nat, throws: bool)
    requires Inv(b) && c < |b.calls|
    ensures Inv(Settle(b, c, throws)) && Settle(b, c, throws).calls[c].settled
  {
    SettleTables(b, c, throws);
    SettlePins(b, c, throws);
    if !b.calls[c].settled {
      var call := b.calls[c];
      UnsettledUpdate(b.calls, c, call.(settled := true, unpins := call.unpins + 1));
    }
  }

  /** The host resolves a frame only while it is pending. */
  lemma {:induction false} SettleResolves(b: Bridge, c: nat, throws: bool, a: nat)
    requires c < |b.calls| && a in b.frames
    ensures a in Settle(b, c, throws).frames
    ensures Settle(b, c, throws).frames[a].resolutions > b.frames[a].resolutions ==>
              b.frames[a].status == 0 && Settle(b, c, throws).frames[a].status == 1
  {
  }

  /** A call changes without settling or moving to another future. */
  lemma {:induction false} UpdateOk(b: Bridge, c: nat, call: Call)
    requires Inv(b) && c < |b.calls| && CallOk(call)
    requires call.future == b.calls[c].future && call.settled == b.calls[c].settled
    ensures Inv(b.(calls := b.calls[c := call]))
  {
    UnsettledUpdate(b.calls, c, call);
  }

  lemma {:induction false} RequestCancelOk(b: Bridge, c: nat, throws: bool)
    requires Inv(b) && c < |b.calls|
    ensures Inv(RequestCancel(b, c, throws))
  {
    var call := b.calls[c];
    var asked := call.(requested := true, cancels := if call.cancellable then call.cancels + 1 else call.cancels);
    UpdateOk(b, c, asked);
    if call.stopsAtOnce && !(call.cancellable && throws) {
      SettleOk(b.(calls := b.calls[c := asked]), c, false);
    }
  }

  lemma {:induction false} FinishOk(b: Bridge, c: nat, rejected: bool, throws: bool)
    requires Inv(b) && c < |b.calls|
    ensures Inv(Finish(b, c, rejected, throws))
  {
    var call := b.calls[c];
    if call.phase == Working {
      var errors := if rejected && !call.requested && !call.nullOnReject then b.hostErrors + {c} else b.hostErrors;
      SettleOk(b.(hostErrors := errors), c, throws);
      var b1 := Settle(b.(hostErrors := errors), c, throws);
      UpdateOk(b1, c, b1.calls[c].(phase := Finished));
    }
  }

  lemma {:induction false} StartOk(b: Bridge, a: nat, stopsAtOnce: bool, nullOnReject: bool)
    requires Inv(b) && a in b.frames && !b.frames[a].started
    ensures Inv(StartCall(b, a, stopsAtOnce, nullOnReject))
  {
    var b' := StartCall(b, a, stopsAtOnce, nullOnReject);
    assert a !in b.completions;
    assert b'.calls[..|b.calls|] == b.calls;
  }

  lemma {:induction false} FrameOk(b: Bridge, a: nat, f: Frame)
    requires Inv(b) && a in b.frames
    requires f == b.frames[a].(status := f.status) && (f.resolutions == 1 ==> f.status == 1)
    ensures Inv(b.(frames := b.frames[a := f]))
  {
  }

  lemma {:induction false} HostCancelOk(b: Bridge, a: nat, throws: bool)
    requires Inv(b)
    ensures Inv(HostCancel(b, a, throws))
  {
    if a in b.cancellations {
      RequestCancelOk(b, b.cancellations[a], throws);
    }
  }

  lemma {:induction false} GuestStepOk(b: Bridge, e: Event)
    requires Inv(b) && (e.Alloc? || e.Free? || e.Poll? || e.GuestResolve? || e.GuestCancel?)
    ensures Inv(Step(b, e))
  {
    match e
    case Alloc(a) =>
    case Free(a) =>
    case Poll(a, atOnce, asNull) =>
      if a in b.frames && !b.frames[a].started {
        StartOk(b, a, atOnce, asNull);
      }
    case GuestResolve(a) =>
      if a in b.frames && b.frames[a].status == 0 {
        FrameOk(b, a, b.frames[a].(status := 1));
      }
    case GuestCancel(a, throws) =>
      if a in b.frames && b.frames[a].status == 0 {
        FrameOk(b, a, b.frames[a].(status := 2));
        HostCancelOk(b.(frames := b.frames[a := b.frames[a].(status := 2)]), a, throws);
      }
  }

  lemma {:induction false} StepOk(b: Bridge, e: Event)
    requires Inv(b)
    ensures Inv(Step(b, e))
  {
    match e
    case CancelHost(a, throws) => HostCancelOk(b, a, throws);
    case Complete(a, throws) =>
      if a in b.completions {
        SettleOk(b, b.completions[a], throws);
      }
    case Started(c, cancellable) =>
      if c < |b.calls| && b.calls[c].phase == Waiting {
        UpdateOk(b, c, Begin(b, c, cancellable).calls[c]);
      }
    case Fulfilled(c, throws) =>
      if c < |b.calls| {
        FinishOk(b, c, false, throws);
      }
    case Rejected(c, throws) =>
      if c < |b.calls| {
        FinishOk(b, c, true, throws);
      }
    case _ => GuestStepOk(b, e);
  }

  function Run(es: seq<Event>): Bridge {
    if es == [] then START else Step(Run(es[..|es| - 1]), es[|es| - 1])
  }

  /** The invariant holds in every run. */
  lemma {:induction false} RunOk(es: seq<Event>)
    ensures Inv(Run(es))
  {
    if es != [] {
      RunOk(es[..|es| - 1]);
      StepOk(Run(es[..|es| - 1]), es[|es| - 1]);
    }
  }

  // ----- What every run keeps -----

  /** Conservation: a call releases its pin exactly once when it is settled and not before, the
  pending count is the number of unsettled calls, a frame is pinned exactly while an unsettled call
  holds it, the host resolves a frame at most once, and a cancel request that the work can act on has
  been passed on. */
  lemma {:induction false} CallsAreConserved(es: seq<Event>, c: nat, a: nat)
    requires c < |Run(es).calls|
    ensures var b := Run(es);
            var call := b.calls[c];
            && call.unpins == (if call.settled then 1 else 0)
            && b.hostPending == Unsettled(b.calls)
            && (!call.settled ==> call.future in b.frames && b.frames[call.future].pins == 1)
            && (a in b.frames && b.frames[a].pins > 0 ==>
                  a in b.completions && b.completions[a] < |b.calls| && !b.calls[b.completions[a]].settled)
            && (a in b.frames ==> b.frames[a].resolutions <= 1)
            && (call.cancellable && call.requested ==> call.cancels >= 1)
  {
    RunOk(es);
    assert CallOk(Run(es).calls[c]);
  }

  /** What a cancel request does to the call it reaches. */
  ghost predicate Asked(before: Call, after: Call, throws: bool) {
    && after.requested && after.cancels == before.cancels + (if before.cancellable then 1 else 0)
    && (after.settled <==> before.stopsAtOnce && !(before.cancellable && throws))
    && after == before.(requested := true, cancels := after.cancels, settled := after.settled, unpins := after.unpins)
  }

  lemma {:induction false} RequestAsks(b: Bridge, c: nat, throws: bool)
    requires c < |b.calls| && !b.calls[c].settled
    ensures var b' := RequestCancel(b, c, throws);
            && |b'.calls| == |b.calls| && Asked(b.calls[c], b'.calls[c], throws)
            && (forall other :: 0 <= other < |b.calls| && other != c ==> b'.calls[other] == b.calls[other])
  {
  }

  /** In every run a cancellation of a future reaches the unsettled call that holds it, and no other: the
  call has the request on record, its work is told once if it can be, and the call is settled at once
  exactly if its work stops at once and does not throw.  That holds of a host cancellation, and of a
  cancellation by the guest while the future is pending. */
  lemma {:induction false} CancelReachesCall(es: seq<Event>, c: nat, throws: bool)
    requires c < |Run(es).calls| && !Run(es).calls[c].settled
    ensures var b := Run(es);
            var a := b.calls[c].future;
            && a in b.frames
            && forall e :: e == CancelHost(a, throws) || (e == GuestCancel(a, throws) && b.frames[a].status == 0) ==>
                 var b' := Step(b, e);
                 && |b'.calls| == |b.calls| && Asked(b.calls[c], b'.calls[c], throws)
                 && (forall other :: 0 <= other < |b.calls| && other != c ==> b'.calls[other] == b.calls[other])
  {
    RunOk(es);
    var b := Run(es);
    var a := b.calls[c].future;
    assert b.cancellations[a] == c;
    RequestAsks(b, c, throws);
    RequestAsks(b.(frames := b.frames[a := b.frames[a].(status := 2)]), c, throws);
  }

  /** What a call has on record stays on record. */
  predicate Remembers(before: Call, after: Call) {
    && after.future == before.future && (before.requested ==> after.requested) && before.cancels <= after.cancels
    && (before.settled ==> after.settled) && before.unpins <= after.unpins
  }

  lemma {:induction false} StepRemembers(b: Bridge, e: Event, c: nat)
    requires c < |b.calls|
    ensures c < |Step(b, e).calls| && Remembers(b.calls[c], Step(b, e).calls[c])
  {
    match e
    case GuestCancel(a, throws) =>
      if a in b.frames && b.frames[a].status == 0 {
        CancelRemembers(b.(frames := b.frames[a := b.frames[a].(status := 2)]), a, throws, c);
      }
    case CancelHost(a, throws) => CancelRemembers(b, a, throws, c);
    case Fulfilled(d, throws) =>
      if d < |b.calls| {
        FinishRemembers(b, d, false, throws, c);
      }
    case Rejected(d, throws) =>
      if d < |b.calls| {
        FinishRemembers(b, d, true, throws, c);
      }
    case _ =>
  }

  lemma {:induction false} CancelRemembers(b: Bridge, a: nat, throws: bool, c: nat)
    requires c < |b.calls|
    ensures c < |HostCancel(b, a, throws).calls| && Remembers(b.calls[c], HostCancel(b, a, throws).calls[c])
  {
  }

  lemma {:induction false} FinishRemembers(b: Bridge, d: nat, rejected: bool, throws: bool, c: nat)
    requires c < |b.calls| && d < |b.calls|
    ensures c < |Finish(b, d, rejected, throws).calls| && Remembers(b.calls[c], Finish(b, d, rejected, throws).calls[c])
  {
  }

  lemma {:induction false} RunSnoc(es: seq<Event>, more: seq<Event>)
    requires more != []
    ensures var n := |more| - 1;
            Run(es + more) == Step(Run(es + more[..n]), more[n])
  {
    var n := |more| - 1;
    assert (es + more)[..|es + more| - 1] == es + more[..n];
  }

  lemma {:induction false} RemembersTrans(x: Call, y: Call, z: Call)
    requires Remembers(x, y) && Remembers(y, z)
    ensures Remembers(x, z)
  {
  }

  lemma {:induction false} RunRemembers(es: seq<Event>, more: seq<Event>, c: nat)
    requires c < |Run(es).calls|
    ensures c < |Run(es + more).calls| && Remembers(Run(es).calls[c], Run(es + more).calls[c])
    decreases |more|
  {
    if more == [] {
      assert es + more == es;
    } else {
      var n := |more| - 1;
      var b := Run(es + more[..n]);
      RunRemembers(es, more[..n], c);
      StepRemembers(b, more[n], c);
      RunSnoc(es, more);
      RemembersTrans(Run(es).calls[c], b.calls[c], Step(b, more[n]).calls[c]);
    }
  }

  /** Whatever follows, no request, no passed-on cancellation and no settlement of a call is taken back; a
  request made before the work starts is passed on when it starts, if the work can be cancelled. */
  lemma {:induction false} NoCancelIsLost(es: seq<Event>, more: seq<Event>, c: nat)
    requires c < |Run(es).calls|
    ensures c < |Run(es + more).calls| && Remembers(Run(es).calls[c], Run(es + more).calls[c])
    ensures Run(es).calls[c].requested && Run(es + more).calls[c].cancellable ==> Run(es + more).calls[c].cancels >= 1
  {
    RunRemembers(es, more, c);
    RunOk(es + more);
    assert CallOk(Run(es + more).calls[c]);
  }

  lemma {:induction false} StepResolves(b: Bridge, e: Event, a: nat)
    requires a in b.frames && a in Step(b, e).frames
    ensures Step(b, e).frames[a].resolutions > b.frames[a].resolutions ==>
              b.frames[a].status == 0 && Step(b, e).frames[a].status == 1
  {
    match e
    case Complete(at, throws) =>
      if at in b.completions && b.completions[at] < |b.calls| {
        SettleResolves(b, b.completions[at], throws, a);
      }
    case Fulfilled(c, throws) =>
      if c < |b.calls| {
        SettleResolves(b, c, throws, a);
      }
    case Rejected(c, throws) =>
      if c < |b.calls| {
        SettleResolves(b, c, throws, a);
      }
    case _ =>
  }

  /** The host resolves a frame only while it is pending, and never one it has resolved before. */
  lemma {:induction false} ResolvesOnlyPending(es: seq<Event>, e: Event, a: nat)
    requires a in Run(es).frames && a in Step(Run(es), e).frames
    requires Step(Run(es), e).frames[a].resolutions > Run(es).frames[a].resolutions
    ensures Run(es).frames[a].status == 0 && Run(es).frames[a].resolutions == 0
    ensures Step(Run(es), e).frames[a].status == 1
  {
    RunOk(es);
    StepResolves(Run(es), e, a);
  }

  lemma {:induction false} LateStepIsInert(b: Bridge, c: nat, e: Event)
    requires c < |b.calls| && b.calls[c].settled && (e.Started? || e.Fulfilled? || e.Rejected?) && e.c == c
    ensures |Step(b, e).calls| == |b.calls|
    ensures Step(b, e) == b.(calls := b.calls[c := Step(b, e).calls[c]], hostErrors := Step(b, e).hostErrors)
    ensures Step(b, e).calls[c].settled && (!e.Rejected? ==> Step(b, e).hostErrors == b.hostErrors)
  {
    assert Step(b, e).calls == b.calls[c := Step(b, e).calls[c]];
  }

  /** A call that has settled is beyond reach: completing it again, however late and whoever now uses
  its future's address, changes no frame, no table entry and no other call (a late rejection may
  still be recorded as a host error). */
  lemma {:induction false} LateCompletionIsInert(es: seq<Event>, c: nat, e: Event)
    requires c < |Run(es).calls| && Run(es).calls[c].settled
    requires (e.Started? || e.Fulfilled? || e.Rejected?) && e.c == c
    ensures var b, b' := Run(es), Step(Run(es), e);
            && b'.frames == b.frames && b'.completions == b.completions && b'.cancellations == b.cancellations
            && b'.hostPending == b.hostPending && |b'.calls| == |b.calls|
            && (forall other :: 0 <= other < |b.calls| && other != c ==> b'.calls[other] == b.calls[other])
            && b'.calls[c].settled && b'.calls[c].unpins == 1
  {
    RunOk(es);
    LateStepIsInert(Run(es), c, e);
    StepOk(Run(es), e);
  }

  /** Settling an unsettled call touches only its own future and its own entries. */
  lemma {:induction false} SettleIsLocal(es: seq<Event>, c: nat, throws: bool, other: nat, a: nat)
    requires c < |Run(es).calls| && other < |Run(es).calls| && other != c && a != Run(es).calls[c].future
    ensures var b := Run(es);
            var b' := Settle(b, c, throws);
            && b'.calls[other] == b.calls[other]
            && (a in b'.frames <==> a in b.frames) && (a in b.frames ==> b'.frames[a] == b.frames[a])
            && (a in b'.completions <==> a in b.completions) && (a in b'.cancellations <==> a in b.cancellations)
            && (a in b.completions ==> b'.completions[a] == b.completions[a])
            && (a in b.cancellations ==> b'.cancellations[a] == b.cancellations[a])
            && (!b.calls[other].settled && !b.calls[c].settled ==> b.calls[other].future != b.calls[c].future)
  {
    RunOk(es);
  }

  // ----- What has to happen -----

  /** The event brings unsettled call `c` to an end: its work is done, it is completed directly, or it is
  cancelled and its work stops at once. */
  predicate Concludes(b: Bridge, c: nat, e: Event)
    requires c < |b.calls|
  {
    var call := b.calls[c];
    && !call.settled
    && match e
       case Fulfilled(d, _) => d == c && call.phase.Working?
       case Rejected(d, _) => d == c && call.phase.Working?
       case Complete(a, _) => a == call.future
       case CancelHost(a, throws) => a == call.future && call.stopsAtOnce && !(call.cancellable && throws)
       case GuestCancel(a, throws) =>
         && a == call.future && call.stopsAtOnce && !(call.cancellable && throws)
         && a in b.frames && b.frames[a].status == 0
       case _ => false
  }

  /** The result cannot be handed over. */
  predicate Fails(e: Event) {
    (e.Fulfilled? || e.Rejected? || e.Complete?) && e.throws
  }

  /** The future a call has ended with: it is no longer pinned; if it was pending and there was a result to
  hand over, the guest has it now and the run loop has been woken. */
  ghost predicate HandedOver(b: Bridge, b': Bridge, a: nat, status: nat, fails: bool) {
    && a in b.frames && a in b'.frames && b'.frames[a].pins == 0 && b'.frames[a].started
    && (if status == 0 && !fails then
          b'.frames[a].status == 1 && b'.frames[a].resolutions == 1 && b'.wakes == b.wakes + 1
        else
          && b'.frames[a].status == status && b'.frames[a].resolutions == b.frames[a].resolutions
          && b'.wakes == b.wakes)
  }

  lemma {:induction false} SettleHandsOver(b: Bridge, c: nat, throws: bool)
    requires Inv(b) && c < |b.calls| && !b.calls[c].settled
    ensures var b', a := Settle(b, c, throws), b.calls[c].future;
            && a in b.frames && HandedOver(b, b', a, b.frames[a].status, throws)
            && b'.calls[c].settled && b'.hostPending == b.hostPending - 1
            && a !in b'.completions && a !in b'.cancellations
  {
    assert b.calls[c].future in b.completions;
  }

  /** In every run, an event that brings a call to an end settles it: its future is released and leaves the
  tables, and one call fewer is pending.  A future that was still pending is resolved, once, and the run loop
  woken, unless its result cannot be converted; a future that was not pending stays as it is, and one that
  the guest cancels ends as cancelled. */
  lemma {:induction false} CallsEndByHandingOver(es: seq<Event>, c: nat, e: Event)
    requires c < |Run(es).calls| && Concludes(Run(es), c, e)
    ensures var b, b', a := Run(es), Run(es + [e]), Run(es).calls[c].future;
            && |b'.calls| == |b.calls| && b'.calls[c].settled && b'.calls[c].unpins == 1
            && b'.hostPending == b.hostPending - 1 && a !in b'.completions && a !in b'.cancellations
            && a in b.frames && HandedOver(b, b', a, if e.GuestCancel? then 2 else b.frames[a].status, Fails(e))
  {
    var b := Run(es);
    RunOk(es);
    assert es + [e][..0] == es;
    RunSnoc(es, [e]);
    RunOk(es + [e]);
    assert b.calls[c].future in b.completions;
    match e
    case Fulfilled(_, throws) => SettleHandsOver(b, c, throws);
    case Rejected(_, throws) => RejectionHandsOver(b, c, throws);
    case Complete(_, throws) => SettleHandsOver(b, c, throws);
    case CancelHost(a, throws) => CancelHandsOver(b, c, throws);
    case GuestCancel(a, throws) => GuestCancelHandsOver(b, a, c, throws);
  }

  lemma {:induction false} RejectionHandsOver(b: Bridge, c: nat, throws: bool)
    requires Inv(b) && c < |b.calls| && !b.calls[c].settled && b.calls[c].phase == Working
    ensures var b', a := Finish(b, c, true, throws), b.calls[c].future;
            && a in b.frames && HandedOver(b, b', a, b.frames[a].status, throws)
            && |b'.calls| == |b.calls| && b'.calls[c].settled && b'.hostPending == b.hostPending - 1
            && a !in b'.completions && a !in b'.cancellations
  {
    SettleHandsOver(b, c, throws);
  }

  lemma {:induction false} CancelHandsOver(b: Bridge, c: nat, throws: bool)
    requires Inv(b) && c < |b.calls| && !b.calls[c].settled
    requires b.calls[c].stopsAtOnce && !(b.calls[c].cancellable && throws)
    ensures var b', a := RequestCancel(b, c, throws), b.calls[c].future;
            && a in b.frames && HandedOver(b, b', a, b.frames[a].status, false)
            && |b'.calls| == |b.calls| && b'.calls[c].settled && b'.hostPending == b.hostPending - 1
            && a !in b'.completions && a !in b'.cancellations
  {
    var call := b.calls[c];
    var asked := call.(requested := true, cancels := if call.cancellable then call.cancels + 1 else call.cancels);
    UpdateOk(b, c, asked);
    SettleHandsOver(b.(calls := b.calls[c := asked]), c, false);
  }

  lemma {:induction false} GuestCancelHandsOver(b: Bridge, a: nat, c: nat, throws: bool)
    requires Inv(b) && c < |b.calls| && !b.calls[c].settled && a == b.calls[c].future
    requires a in b.frames && b.frames[a].status == 0
    requires b.calls[c].stopsAtOnce && !(b.calls[c].cancellable && throws)
    ensures var b' := HostCancel(b.(frames := b.frames[a := b.frames[a].(status := 2)]), a, throws);
            && HandedOver(b, b', a, 2, false)
            && |b'.calls| == |b.calls| && b'.calls[c].settled && b'.hostPending == b.hostPending - 1
            && a !in b'.completions && a !in b'.cancellations
  {
    FrameOk(b, a, b.frames[a].(status := 2));
    assert b.completions[a] == c;
    CancelHandsOver(b.(frames := b.frames[a := b.frames[a].(status := 2)]), c, throws);
  }

  /** In every run the first poll of a future starts a call of its own, which holds the future; the work of a
  call that is not settled begins when its turn comes; and a rejection is reported unless it was asked for
  or the guest sees it as a null. */
  lemma {:induction false} CallsMakeProgress(es: seq<Event>, e: Event)
    ensures var b, b' := Run(es), Run(es + [e]);
            && (e.Poll? && e.a in b.frames && !b.frames[e.a].started ==>
                  && b'.calls == b.calls + [Call(e.a, e.stopsAtOnce, e.nullOnReject, false, false, false, Waiting, 0, 0)]
                  && e.a in b'.frames && b'.frames[e.a] == b.frames[e.a].(started := true, pins := 1)
                  && b'.hostPending == b.hostPending + 1
                  && e.a in b'.completions && b'.completions[e.a] == |b.calls| && b'.cancellations == b'.completions)
            && (e.Started? && e.c < |b.calls| && b.calls[e.c].phase == Waiting && !b.calls[e.c].settled ==>
                  && e.c < |b'.calls| && b'.calls[e.c].phase == Working && b'.calls[e.c].cancellable == e.cancellable
                  && !b'.calls[e.c].settled)
            && (e.Rejected? && e.c < |b.calls| && b.calls[e.c].phase == Working ==>
                  b'.hostErrors == b.hostErrors +
                    if b.calls[e.c].requested || b.calls[e.c].nullOnReject then {} else {e.c})
            && (!e.Rejected? ==> b'.hostErrors == b.hostErrors)
  {
    RunOk(es);
    assert es + [e][..0] == es;
    RunSnoc(es, [e]);
    RunOk(es + [e]);
  }
}
