/** Socket operations (`start` and the `netSocket...` calls): operation handles that own a socket until the
guest claims it.
 */
module SocketOperations {

  const MAX_OPERATIONS := 4096
  const LAST_ID := 2147483647

  /** One operation.  `owned` is the socket it will dispose of when released; `created` is the socket
  its work produced (0 for none), `claimed` says that the guest took that socket over, and
  `disposals` counts how often the operation disposed of it. */
  datatype Op = Op(
    owned: nat, released: bool, done: bool, aborted: bool, created: nat, claimed: bool, disposals: nat, result: Outcome)

  /** What the guest reads as the result. */
  datatype Outcome = Unfinished | Succeeded | Failed

  const FRESH := Op(0, false, false, false, 0, false, 0, Unfinished)

  /** Operation number n is `ops[n - 1]`; `table` holds the numbers the guest can still use. */
  datatype Host = Host(ops: seq<Op>, table: set<nat>)

  datatype Event =
    | Start
    | Complete(id: nat, owned: nat, ok: bool)   // the work ends, with a new socket or without one, or fails
    | Abort(id: nat)                  // the deadline passes or the guest cancels
    | Claim(id: nat)
    | Release(id: nat)

  function Dispose(op: Op): Op { op.(disposals := op.disposals + 1) }

  /** The end of the work, including its `finally` part; the socket stays owned when the result is an
  error because the operation was aborted meanwhile. */
  function CompleteOp(op: Op, owned: nat, ok: bool): Op {
    if op.done then op
    else
      var socket := if ok then owned else 0;
      var op1 := op.(done := true, owned := socket, created := socket,
                     result := if ok && !op.aborted then Succeeded else Failed);
      if op.released && socket != 0 then Dispose(op1) else op1
  }

  function ClaimOp(op: Op): Op { op.(owned := 0, claimed := op.claimed || op.owned != 0) }

  function ReleaseOp(op: Op): Op {
    var op1 := op.(released := true, aborted := true);
    if op.owned != 0 then Dispose(op1) else op1
  }

  predicate Known(h: Host, id: nat) { 1 <= id <= |h.ops| }

  function Put(h: Host, id: nat, op: Op): Host
    requires Known(h, id)
  {
    h.(ops := h.ops[id - 1 := op])
  }

  function Step(h: Host, e: Event): Host {
    match e
    case Start =>
      if |h.ops| >= LAST_ID || |h.table| >= MAX_OPERATIONS then h
      else Host(h.ops + [FRESH], h.table + {|h.ops| + 1})
    case Complete(id, owned, ok) => if Known(h, id) then Put(h, id, CompleteOp(h.ops[id - 1], owned, ok)) else h
    case Abort(id) => if Known(h, id) && id in h.table then Put(h, id, h.ops[id - 1].(aborted := true)) else h
    case Claim(id) => if Known(h, id) && id in h.table then Put(h, id, ClaimOp(h.ops[id - 1])) else h
    case Release(id) =>
      if Known(h, id) && id in h.table then Put(h, id, ReleaseOp(h.ops[id - 1])).(table := h.table - {id}) else h
  }

  /** The books of one operation: nothing is created before the work ends; from then on the socket is
  the operation's until it is claimed, and disposed of exactly when it is released unclaimed. */
  predicate OpOk(op: Op) {
    && (!op.done ==> op.owned == 0 && op.created == 0) && (op.result.Unfinished? <==> !op.done)
    && (op.released ==> op.aborted)
    && (op.created == 0 ==> !op.claimed)
    && op.owned == (if op.claimed then 0 else op.created)
    && op.disposals == (if op.created != 0 && op.released && !op.claimed then 1 else 0)
  }

  ghost predicate Inv(h: Host) {
    && (forall i :: 0 <= i < |h.ops| ==> OpOk(h.ops[i]))
    && (forall id :: id in h.table ==> Known(h, id))
    && (forall i :: 0 <= i < |h.ops| ==> (h.ops[i].released <==> i + 1 !in h.table))
  }

  lemma {:induction false} PutOk(h: Host, id: nat, op: Op)
    requires Inv(h) && Known(h, id) && OpOk(op) && op.released == h.ops[id - 1].released
    ensures Inv(Put(h, id, op))
  {
  }

  lemma {:induction false} ReleaseOk(h: Host, id: nat)
    requires Inv(h) && Known(h, id) && id in h.table
    ensures Inv(Step(h, Release(id)))
  {
    var q := Step(h, Release(id));
    assert OpOk(h.ops[id - 1]) && !h.ops[id - 1].released;
    assert OpOk(q.ops[id - 1]) && q.ops[id - 1].released;
  }

  lemma {:induction false} StepOk(h: Host, e: Event)
    requires Inv(h)
    ensures Inv(Step(h, e))
  {
    match e
    case Start =>
    case Complete(id, owned, ok) =>
      if Known(h, id) {
        PutOk(h, id, CompleteOp(h.ops[id - 1], owned, ok));
      }
    case Abort(id) =>
      if Known(h, id) {
        PutOk(h, id, h.ops[id - 1].(aborted := true));
      }
    case Claim(id) =>
      if Known(h, id) && id in h.table {
        PutOk(h, id, ClaimOp(h.ops[id - 1]));
      }
    case Release(id) =>
      if Known(h, id) && id in h.table {
        ReleaseOk(h, id);
      }
  }

  function Run(es: seq<Event>): Host {
    if es == [] then Host([], {}) else Step(Run(es[..|es| - 1]), es[|es| - 1])
  }

  /** The invariant holds in every run. */
  lemma {:induction false} RunOk(es: seq<Event>)
    ensures Inv(Run(es))
  {
    if es != [] {
      RunOk(es[..|es| - 1]);
      StepOk(Run(es[..|es| - 1]), es[|es| - 1]);
    }
  }

  /** For every order of completion, timeout, cancellation, claim and release, the socket an operation
  created is disposed of by it exactly once if it was released unclaimed, and otherwise never. */
  lemma {:induction false} SocketsAreOwnedOnce(es: seq<Event>, id: nat)
    requires Known(Run(es), id)
    ensures var op := Run(es).ops[id - 1];
            op.disposals == if op.created != 0 && op.released && !op.claimed then 1 else 0
  {
    RunOk(es);
    assert OpOk(Run(es).ops[id - 1]);
  }

  /** A claim is final exactly when the socket exists by then: claiming before the work ends has no
  effect, and a socket that arrives later is disposed of on release. */
  lemma {:induction false} ClaimCountsOnceDone(es: seq<Event>, id: nat, owned: nat)
    requires Known(Run(es), id) && id in Run(es).table && owned != 0
    ensures var h := Run(es);
            var claimed := Step(Step(Step(h, Claim(id)), Complete(id, owned, true)), Release(id)).ops[id - 1];
            claimed.disposals == if h.ops[id - 1].done then 0 else 1
  {
    RunOk(es);
    var op := Run(es).ops[id - 1];
    assert OpOk(op) && !op.released;
  }

  // ----- What has to happen -----

  lemma {:induction false} RunStep(es: seq<Event>, e: Event)
    ensures Inv(Run(es)) && Run(es + [e]) == Step(Run(es), e) && Inv(Run(es + [e]))
  {
    RunOk(es);
    RunOk(es + [e]);
    assert (es + [e])[..|es + [e]| - 1] == es;
  }

  /** In every run an operation starts under a new number, within the limits. */
  lemma {:induction false} OperationsStart(es: seq<Event>)
    ensures var h, q := Run(es), Run(es + [Start]);
            if |h.ops| >= LAST_ID || |h.table| >= MAX_OPERATIONS then q == h
            else
              && q.ops == h.ops + [FRESH] && q.table == h.table + {|h.ops| + 1} && |h.ops| + 1 !in h.table
  {
    RunStep(es, Start);
  }

  /** In every run the end of its work ends an operation, with a result that an aborted operation does not
  get, and with the socket its work made. */
  lemma {:induction false} OperationsEnd(es: seq<Event>, id: nat, owned: nat, ok: bool)
    requires Known(Run(es), id) && !Run(es).ops[id - 1].done
    ensures var op, q := Run(es).ops[id - 1], Run(es + [Complete(id, owned, ok)]);
            && Known(q, id) && q.ops[id - 1].done
            && q.ops[id - 1].result == (if ok && !op.aborted then Succeeded else Failed)
            && q.ops[id - 1].created == (if ok then owned else 0)
  {
    RunStep(es, Complete(id, owned, ok));
  }

  /** What an operation keeps, whatever happens. */
  predicate Keeps(op: Op, later: Op) {
    && (op.aborted ==> later.aborted) && (op.aborted && !op.done && later.done ==> later.result == Failed)
    && (op.done ==> later.done && later.result == op.result && later.created == op.created)
    && (op.claimed ==> later.claimed) && (op.released ==> later.released)
  }

  lemma {:induction false} StepKeeps(h: Host, e: Event, id: nat)
    requires Known(h, id)
    ensures Known(Step(h, e), id) && Keeps(h.ops[id - 1], Step(h, e).ops[id - 1])
  {
  }

  lemma {:induction false} KeepsTrans(x: Op, y: Op, z: Op)
    requires Keeps(x, y) && Keeps(y, z)
    ensures Keeps(x, z)
  {
  }

  lemma {:induction false} RunKeeps(es: seq<Event>, more: seq<Event>, id: nat)
    requires Known(Run(es), id)
    ensures Known(Run(es + more), id) && Keeps(Run(es).ops[id - 1], Run(es + more).ops[id - 1])
    decreases |more|
  {
    if more == [] {
      assert es + more == es;
    } else {
      var n := |more| - 1;
      RunKeeps(es, more[..n], id);
      assert (es + more)[..|es + more| - 1] == es + more[..n];
      StepKeeps(Run(es + more[..n]), more[n], id);
      KeepsTrans(Run(es).ops[id - 1], Run(es + more[..n]).ops[id - 1], Run(es + more).ops[id - 1]);
    }
  }

  /** Aborting is final: in every continuation an operation that was aborted, or released, before its work
  ended can only end as failed. */
  lemma {:induction false} AbortIsFinal(es: seq<Event>, e: Event, more: seq<Event>, id: nat)
    requires Known(Run(es), id) && id in Run(es).table && !Run(es).ops[id - 1].done
    requires e == Abort(id) || e == Release(id)
    ensures var q := Run(es + [e] + more);
            Known(q, id) && q.ops[id - 1].aborted && (q.ops[id - 1].done ==> q.ops[id - 1].result == Failed)
  {
    RunStep(es, e);
    AbortMarks(Run(es), e, id);
    RunKeeps(es + [e], more, id);
  }

  lemma {:induction false} AbortMarks(h: Host, e: Event, id: nat)
    requires Inv(h) && Known(h, id) && id in h.table && !h.ops[id - 1].done && (e == Abort(id) || e == Release(id))
    ensures Known(Step(h, e), id) && Step(h, e).ops[id - 1].aborted && !Step(h, e).ops[id - 1].done
  {
  }

  /** Claiming is final: in every continuation the socket of an operation that was claimed when it was done
  is never disposed of by it. */
  lemma {:induction false} ClaimIsFinal(es: seq<Event>, more: seq<Event>, id: nat)
    requires Known(Run(es), id) && id in Run(es).table && Run(es).ops[id - 1].done
    ensures var q := Run(es + [Claim(id)] + more);
            && Known(q, id) && q.ops[id - 1].disposals == 0 && q.ops[id - 1].owned == 0
            && q.ops[id - 1].created == Run(es).ops[id - 1].created
  {
    RunStep(es, Claim(id));
    ClaimMarks(Run(es), id);
    RunKeeps(es + [Claim(id)], more, id);
    RunOk(es + [Claim(id)] + more);
    NeverDisposes(Run(es + [Claim(id)]).ops[id - 1], Run(es + [Claim(id)] + more).ops[id - 1]);
  }

  lemma {:induction false} ClaimMarks(h: Host, id: nat)
    requires Inv(h) && Known(h, id) && id in h.table && h.ops[id - 1].done
    ensures var q := Step(h, Claim(id));
            && Known(q, id) && q.ops[id - 1].done && (q.ops[id - 1].claimed || q.ops[id - 1].created == 0)
            && q.ops[id - 1].created == h.ops[id - 1].created
  {
    assert OpOk(h.ops[id - 1]);
  }

  lemma {:induction false} NeverDisposes(op: Op, later: Op)
    requires op.done && (op.claimed || op.created == 0) && Keeps(op, later) && OpOk(later)
    ensures later.disposals == 0 && later.owned == 0 && later.created == op.created
  {
  }

  class SocketHost {
    var ops: seq<Op>
    var table: set<nat>

    ghost function Model(): Host
      reads this
    {
      Host(ops, table)
    }

    constructor ()
      ensures Model() == Host([], {})
    {
      ops, table := [], {};
    }

    /** Zero when there are too many operations; otherwise the number of the new one. */
    method StartOperation() returns (id: nat)
      modifies this
      ensures Model() == Step(old(Model()), Start)
      ensures id == if |old(ops)| >= LAST_ID || |old(table)| >= MAX_OPERATIONS then 0 else |old(ops)| + 1
    {
      if |ops| >= LAST_ID || |table| >= MAX_OPERATIONS {
        return 0;
      }
      ops := ops + [FRESH];
      id := |ops|;
      table := table + {id};
    }

    /** The work ends; a socket it made stays owned even if the operation has been aborted. */
    method FinishWork(id: nat, owned: nat, ok: bool)
      requires 1 <= id <= |ops| && !ops[id - 1].done
      modifies `ops
      ensures Model() == Step(old(Model()), Complete(id, owned, ok))
    {
      var op := ops[id - 1].(result := Failed);
      if ok {
        op := op.(owned := owned, created := owned);
        if !op.aborted {
          op := op.(result := Succeeded);
        }
      } else {
        op := op.(owned := 0, created := 0);
      }
      op := op.(done := true);
      if op.released && op.owned != 0 {
        op := Dispose(op);
      }
      ops := ops[id - 1 := op];
    }

    method ReleaseOperation(id: nat)
      requires Inv(Model())
      modifies this
      ensures Model() == Step(old(Model()), Release(id))
    {
      if id !in table {
        return;
      }
      var op := ops[id - 1].(released := true, aborted := true);
      if op.owned != 0 {
        op := Dispose(op);
      }
      ops := ops[id - 1 := op];
      table := table - {id};
    }

    /** The guest cancels, or the deadline passes. */
    method AbortOperation(id: nat)
      requires Inv(Model())
      modifies `ops
      ensures Model() == Step(old(Model()), Abort(id))
    {
      if id in table {
        ops := ops[id - 1 := ops[id - 1].(aborted := true)];
      }
    }

    method ClaimOperation(id: nat)
      requires Inv(Model())
      modifies `ops
      ensures Model() == Step(old(Model()), Claim(id))
    {
      if id in table {
        var op := ops[id - 1];
        ops := ops[id - 1 := op.(owned := 0, claimed := op.claimed || op.owned != 0)];
      }
    }
  }
}
