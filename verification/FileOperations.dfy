/** File operations, which own the file they open until the guest takes it, and the Node descriptors behind
file handles.
 */
module FileOperations {

  const MAX_OPERATIONS := 132

  /** An open file.  `pending` counts the asynchronous reads and writes under way, `closes` how often
  the descriptor was closed; `listed` says that the guest's handle still finds it. */
  datatype File = File(listed: bool, pending: nat, closing: bool, closes: nat)

  /** One operation; `file` is the file a read or write works on, or the one an open produced.  `waits` and
  `woken` count those who have waited for it and those who go on. */
  datatype Op = Op(
    opens: bool, file: int, done: bool, claimed: bool, released: bool, tracked: bool, disposals: nat, waits: nat, woken: nat)

  const OPENING := Op(true, -1, false, false, false, false, 0, 0, 0)
  const FAILING := Op(false, -1, false, false, false, false, 0, 0, 0)

  datatype Host = Host(ops: seq<Op>, table: set<nat>, files: seq<File>, pendingOperations: int)

  datatype Event =
    | StartOpen(refused: bool)         // an unknown mode is refused at once
    | StartIo(file: nat, refused: bool)
    | Opened(op: nat, ok: bool)
    | IoDone(op: nat)
    | TakeResult(op: nat)
    | Wait(op: nat)
    | Release(op: nat)
    | Close(file: nat)

  /** `fileHandleClose`: forgets the handle, and closes the descriptor now or when the last read or write ends. */
  function CloseFile(f: File): File {
    if !f.listed then f
    else if f.pending > 0 then f.(listed := false, closing := true)
    else f.(listed := false, closes := f.closes + 1)
  }

  /** A tracked read or write ends. */
  function EndIo(f: File): File {
    var f1 := f.(pending := if f.pending > 0 then f.pending - 1 else 0);
    if f1.closing && f1.pending == 0 then f1.(closes := f1.closes + 1) else f1
  }

  /** Disposes of the file that operation `n` opened, unless it was claimed. */
  function ReleaseResult(h: Host, n: nat): Host
    requires n < |h.ops|
  {
    var op := h.ops[n];
    if op.opens && 0 <= op.file < |h.files| && !op.claimed then
      h.(ops := h.ops[n := op.(disposals := op.disposals + 1)], files := h.files[op.file := CloseFile(h.files[op.file])])
    else h
  }

  /** The operation is done, and everybody who waits for it goes on. */
  function Finished(op: Op, file: int): Op { op.(done := true, file := file, tracked := false, woken := op.waits) }

  /** Operation `n` is done; a released one disposes of its result. */
  function FinishOp(h: Host, n: nat, file: int): Host
    requires n < |h.ops|
  {
    var h1 := h.(ops := h.ops[n := Finished(h.ops[n], file)], pendingOperations := h.pendingOperations - 1);
    if h.ops[n].released then ReleaseResult(h1, n) else h1
  }

  /** Waiting for an operation that is done takes no time. */
  function AwaitOp(op: Op): Op { op.(waits := op.waits + 1, woken := if op.done then op.woken + 1 else op.woken) }

  function Begin(h: Host, op: Op): Host {
    Host(h.ops + [op], h.table + {|h.ops|}, h.files, h.pendingOperations + 1)
  }

  predicate Full(h: Host) { |h.table| >= MAX_OPERATIONS || h.pendingOperations >= MAX_OPERATIONS }

  function Step(h: Host, e: Event): Host {
    match e
    case StartOpen(refused) =>
      if Full(h) then h
      else
        var h1 := Begin(h, OPENING);
        if refused then FinishOp(h1, |h.ops|, -1) else h1
    case StartIo(file, refused) =>
      if Full(h) then h
      else if refused || file >= |h.files| || !h.files[file].listed then
        FinishOp(Begin(h, FAILING), |h.ops|, -1)
      else
        var h1 := Begin(h, Op(false, file, false, false, false, true, 0, 0, 0));
        h1.(files := h.files[file := h.files[file].(pending := h.files[file].pending + 1)])
    case Opened(n, ok) =>
      if n >= |h.ops| || h.ops[n].done || !h.ops[n].opens then h
      else if !ok then FinishOp(h, n, -1)
      else FinishOp(h.(files := h.files + [File(true, 0, false, 0)]), n, |h.files|)
    case IoDone(n) =>
      if n >= |h.ops| || !h.ops[n].tracked || !(0 <= h.ops[n].file < |h.files|) then h
      else
        var file := h.ops[n].file;
        FinishOp(h.(files := h.files[file := EndIo(h.files[file])]), n, file)
    case TakeResult(n) =>
      if n < |h.ops| && n in h.table && h.ops[n].done then h.(ops := h.ops[n := h.ops[n].(claimed := true)]) else h
    case Wait(n) => if n < |h.ops| && n in h.table then h.(ops := h.ops[n := AwaitOp(h.ops[n])]) else h
    case Release(n) =>
      if n >= |h.ops| || n !in h.table then h
      else
        var h1 := h.(ops := h.ops[n := h.ops[n].(released := true)], table := h.table - {n});
        if h.ops[n].done then ReleaseResult(h1, n) else h1
    case Close(file) =>
      if file < |h.files| then h.(files := h.files[file := CloseFile(h.files[file])]) else h
  }

  // ----- What every run keeps -----

  /** The reads and writes under way on `file`. */
  function Outstanding(ops: seq<Op>, file: nat): nat {
    if ops == [] then 0
    else Outstanding(ops[..|ops| - 1], file) +
         if ops[|ops| - 1].tracked && ops[|ops| - 1].file == file then 1 else 0
  }

  predicate FileOk(f: File) {
    && f.closes <= 1
    && (f.listed ==> !f.closing && f.closes == 0)
    && (!f.listed && f.closes == 0 ==> f.closing && f.pending > 0)
    && (f.closes == 1 ==> f.pending == 0)
  }

  predicate OpOk(op: Op, files: nat) {
    && op.file < files && (op.tracked ==> !op.opens && !op.done && op.file >= 0)
    && (op.opens && !op.done ==> op.file == -1)
    && (op.claimed ==> op.done) && op.woken == (if op.done then op.waits else 0)
    && op.disposals == (if op.opens && op.file >= 0 && op.released && !op.claimed then 1 else 0)
  }

  ghost predicate Inv(h: Host) {
    && (forall i :: 0 <= i < |h.files| ==> FileOk(h.files[i]) && h.files[i].pending == Outstanding(h.ops, i))
    && (forall n :: 0 <= n < |h.ops| ==> OpOk(h.ops[n], |h.files|) && (h.ops[n].released <==> n !in h.table))
    && (forall n :: n in h.table ==> n < |h.ops|)
  }

  lemma {:induction false} OutstandingUpdate(ops: seq<Op>, n: nat, op: Op, file: nat)
    requires n < |ops|
    ensures Outstanding(ops[n := op], file) ==
            Outstanding(ops, file) + (if op.tracked && op.file == file then 1 else 0)
                                   - (if ops[n].tracked && ops[n].file == file then 1 else 0)
  {
    var last := |ops| - 1;
    if n == last {
      assert ops[n := op][..last] == ops[..last];
    } else {
      assert ops[n := op][..last] == ops[..last][n := op];
      OutstandingUpdate(ops[..last], n, op, file);
    }
  }

  lemma {:induction false} OutstandingNone(ops: seq<Op>, file: nat)
    requires forall n :: 0 <= n < |ops| ==> ops[n].file != file
    ensures Outstanding(ops, file) == 0
  {
    if ops != [] {
      OutstandingNone(ops[..|ops| - 1], file);
    }
  }

  /** The invariant, except that operation `n` may still have to dispose of its result. */
  ghost predicate InvDue(h: Host, n: nat) {
    && n < |h.ops| && h.ops[n].disposals == 0 && h.ops[n].released
    && (forall i :: 0 <= i < |h.files| ==> FileOk(h.files[i]) && h.files[i].pending == Outstanding(h.ops, i))
    && (forall m :: 0 <= m < |h.ops| ==>
          && (h.ops[m].released <==> m !in h.table)
          && OpOk(if m == n then DisposedOnce(h.ops[m]) else h.ops[m], |h.files|))
    && (forall m :: m in h.table ==> m < |h.ops|)
  }

  /** The operation as it should be once it has disposed of an unclaimed file. */
  function DisposedOnce(op: Op): Op {
    op.(disposals := if op.opens && op.file >= 0 && op.released && !op.claimed then 1 else 0)
  }

  lemma {:induction false} ReleaseResultOk(h: Host, n: nat)
    requires InvDue(h, n)
    ensures Inv(ReleaseResult(h, n))
  {
    var q := ReleaseResult(h, n);
    forall i | 0 <= i < |h.files|
      ensures Outstanding(q.ops, i) == Outstanding(h.ops, i)
    {
      if q != h {
        OutstandingUpdate(h.ops, n, q.ops[n], i);
      }
    }
    assert OpOk(DisposedOnce(h.ops[n]), |h.files|);
  }

  lemma {:induction false} UpdateOk(h: Host, n: nat, op: Op)
    requires Inv(h) && n < |h.ops| && OpOk(op, |h.files|) && op.released == h.ops[n].released
    requires op.tracked == h.ops[n].tracked && op.file == h.ops[n].file
    ensures Inv(h.(ops := h.ops[n := op]))
  {
    forall i | 0 <= i < |h.files|
      ensures Outstanding(h.ops[n := op], i) == Outstanding(h.ops, i)
    {
      OutstandingUpdate(h.ops, n, op, i);
    }
  }

  /** What holds when operation `n` is about to finish with `file`: if it was tracked, its file already
  counts one operation less. */
  ghost predicate Finishing(h: Host, n: nat, file: int) {
    && n < |h.ops| && !h.ops[n].done && file < |h.files| && (h.ops[n].tracked ==> file == h.ops[n].file)
    && (forall i :: 0 <= i < |h.files| ==>
          FileOk(h.files[i]) &&
          h.files[i].pending == Outstanding(h.ops, i) - if h.ops[n].tracked && h.ops[n].file == i then 1 else 0)
    && (forall m :: 0 <= m < |h.ops| ==> OpOk(h.ops[m], |h.files|) && (h.ops[m].released <==> m !in h.table))
    && (forall m :: m in h.table ==> m < |h.ops|)
  }

  lemma {:induction false} FinishOk(h: Host, n: nat, file: int)
    requires Finishing(h, n, file) && file >= -1
    ensures Inv(FinishOp(h, n, file))
  {
    var done := Finished(h.ops[n], file);
    var h1 := h.(ops := h.ops[n := done], pendingOperations := h.pendingOperations - 1);
    forall i | 0 <= i < |h.files|
      ensures h1.files[i].pending == Outstanding(h1.ops, i)
    {
      OutstandingUpdate(h.ops, n, done, i);
    }
    if h.ops[n].released {
      ReleaseResultOk(h1, n);
    }
  }

  lemma {:induction false} BeginOk(h: Host, op: Op)
    requires Inv(h) && OpOk(op, |h.files|) && !op.released && !op.tracked
    ensures Inv(Begin(h, op))
  {
    assert Begin(h, op).ops[..|h.ops|] == h.ops;
  }

  /** An operation that fails as soon as it has begun. */
  lemma {:induction false} RefusedOk(h: Host, op: Op)
    requires Inv(h) && OpOk(op, |h.files|) && !op.released && !op.tracked && !op.done
    ensures Inv(FinishOp(Begin(h, op), |h.ops|, -1))
  {
    BeginOk(h, op);
    FinishOk(Begin(h, op), |h.ops|, -1);
  }

  lemma {:induction false} StartIoOk(h: Host, file: nat)
    requires Inv(h) && file < |h.files| && h.files[file].listed
    ensures Inv(Begin(h, Op(false, file, false, false, false, true, 0, 0, 0)).(
                  files := h.files[file := h.files[file].(pending := h.files[file].pending + 1)]))
  {
    var op := Op(false, file, false, false, false, true, 0, 0, 0);
    assert (h.ops + [op])[..|h.ops|] == h.ops;
  }

  lemma {:induction false} OpenedOk(h: Host, n: nat)
    requires Inv(h) && n < |h.ops| && !h.ops[n].done && h.ops[n].opens
    ensures Inv(FinishOp(h.(files := h.files + [File(true, 0, false, 0)]), n, |h.files|))
  {
    OutstandingNone(h.ops, |h.files|);
    FinishOk(h.(files := h.files + [File(true, 0, false, 0)]), n, |h.files|);
  }

  lemma {:induction false} OutstandingSome(ops: seq<Op>, n: nat)
    requires n < |ops| && ops[n].tracked && ops[n].file >= 0
    ensures Outstanding(ops, ops[n].file) > 0
  {
    if n < |ops| - 1 {
      OutstandingSome(ops[..|ops| - 1], n);
    }
  }

  lemma {:induction false} IoDoneOk(h: Host, n: nat)
    requires Inv(h) && n < |h.ops| && h.ops[n].tracked && 0 <= h.ops[n].file < |h.files|
    ensures var file := h.ops[n].file;
            Inv(FinishOp(h.(files := h.files[file := EndIo(h.files[file])]), n, file))
  {
    var file := h.ops[n].file;
    OutstandingSome(h.ops, n);
    FinishOk(h.(files := h.files[file := EndIo(h.files[file])]), n, file);
  }

  lemma {:induction false} ReleaseOk(h: Host, n: nat)
    requires Inv(h) && n < |h.ops| && n in h.table
    ensures Inv(Step(h, Release(n)))
  {
    var op := h.ops[n].(released := true);
    var h1 := h.(ops := h.ops[n := op], table := h.table - {n});
    forall i | 0 <= i < |h.files|
      ensures Outstanding(h1.ops, i) == Outstanding(h.ops, i)
    {
      OutstandingUpdate(h.ops, n, op, i);
    }
    if h.ops[n].done {
      ReleaseResultOk(h1, n);
    }
  }

  lemma {:induction false} OpenFailedOk(h: Host, n: nat)
    requires Inv(h) && n < |h.ops| && !h.ops[n].done && h.ops[n].opens
    ensures Inv(FinishOp(h, n, -1))
  {
    FinishOk(h, n, -1);
  }

  lemma {:induction false} CloseOk(h: Host, file: nat)
    requires Inv(h) && file < |h.files|
    ensures Inv(h.(files := h.files[file := CloseFile(h.files[file])]))
  {
  }

  lemma {:induction false} StepOk(h: Host, e: Event)
    requires Inv(h)
    ensures Inv(Step(h, e))
  {
    match e
    case StartOpen(refused) =>
      if !Full(h) {
        var op := OPENING;
        BeginOk(h, op);
        if refused {
          RefusedOk(h, op);
        }
      }
    case StartIo(file, refused) =>
      if !Full(h) {
        if refused || file >= |h.files| || !h.files[file].listed {
          RefusedOk(h, FAILING);
        } else {
          StartIoOk(h, file);
        }
      }
    case Opened(n, ok) =>
      if n < |h.ops| && !h.ops[n].done && h.ops[n].opens {
        if ok {
          OpenedOk(h, n);
        } else {
          OpenFailedOk(h, n);
        }
      }
    case IoDone(n) =>
      if n < |h.ops| && h.ops[n].tracked {
        IoDoneOk(h, n);
      }
    case TakeResult(n) =>
      if n < |h.ops| && n in h.table && h.ops[n].done {
        UpdateOk(h, n, h.ops[n].(claimed := true));
      }
    case Wait(n) =>
      if n < |h.ops| && n in h.table {
        UpdateOk(h, n, AwaitOp(h.ops[n]));
      }
    case Release(n) =>
      if n < |h.ops| && n in h.table {
        ReleaseOk(h, n);
      }
    case Close(file) =>
      if file < |h.files| {
        CloseOk(h, file);
      }
  }

  function Run(es: seq<Event>): Host {
    if es == [] then Host([], {}, [], 0) else Step(Run(es[..|es| - 1]), es[|es| - 1])
  }

  /** The invariant holds in every run. */
  lemma {:induction false} RunOk(es: seq<Event>)
    ensures Inv(Run(es))
  {
    if es != [] {
      RunOk(es[..|es| - 1]);
      StepOk(Run(es[..|es| - 1]), es[|es| - 1]);
    }
  }

  lemma {:induction false} RunStep(es: seq<Event>, e: Event)
    ensures Inv(Run(es)) && Run(es + [e]) == Step(Run(es), e) && Inv(Run(es + [e]))
  {
    RunOk(es);
    RunOk(es + [e]);
    assert (es + [e])[..|es + [e]| - 1] == es;
  }

  lemma {:induction false} RunSnoc(es: seq<Event>, more: seq<Event>)
    requires more != []
    ensures Run(es + more) == Step(Run(es + more[..|more| - 1]), more[|more| - 1])
  {
    assert (es + more)[..|es + more| - 1] == es + more[..|more| - 1];
  }

  // ----- Files belong to their operations, or to the guest -----

  /** Different operations opened different files, and what an operation disposed of is no longer listed. */
  ghost predicate Owned(h: Host) {
    && (forall m, n :: 0 <= m < n < |h.ops| && h.ops[m].opens && h.ops[n].opens && h.ops[m].file >= 0 ==>
          h.ops[m].file != h.ops[n].file)
    && (forall n :: 0 <= n < |h.ops| && h.ops[n].disposals > 0 ==>
          0 <= h.ops[n].file < |h.files| && !h.files[h.ops[n].file].listed)
  }

  lemma {:induction false} ReleaseResultOwned(h: Host, n: nat)
    requires Owned(h) && n < |h.ops|
    ensures Owned(ReleaseResult(h, n))
  {
  }

  lemma {:induction false} FinishOwned(h: Host, n: nat, file: int)
    requires Owned(h) && n < |h.ops| && h.ops[n].disposals == 0
    requires h.ops[n].opens && file >= 0 ==> forall m :: 0 <= m < |h.ops| && m != n && h.ops[m].opens ==> h.ops[m].file != file
    ensures Owned(FinishOp(h, n, file))
  {
    var h1 := h.(ops := h.ops[n := Finished(h.ops[n], file)], pendingOperations := h.pendingOperations - 1);
    assert Owned(h1);
    ReleaseResultOwned(h1, n);
  }

  lemma {:induction false} BeginOwned(h: Host, op: Op)
    requires Inv(h) && Owned(h) && (op.opens ==> op.file == -1) && op.disposals == 0
    ensures Owned(Begin(h, op))
  {
  }

  lemma {:induction false} OpenedOwned(h: Host, n: nat)
    requires Inv(h) && Owned(h) && n < |h.ops| && !h.ops[n].done && h.ops[n].opens
    ensures Owned(FinishOp(h.(files := h.files + [File(true, 0, false, 0)]), n, |h.files|))
  {
    var h1 := h.(files := h.files + [File(true, 0, false, 0)]);
    assert OpOk(h.ops[n], |h.files|);
    forall m | 0 <= m < |h.ops|
      ensures h.ops[m].file < |h.files|
    {
      assert OpOk(h.ops[m], |h.files|);
    }
    FinishOwned(h1, n, |h.files|);
  }

  lemma {:induction false} IoDoneOwned(h: Host, n: nat)
    requires Inv(h) && Owned(h) && n < |h.ops| && h.ops[n].tracked && 0 <= h.ops[n].file < |h.files|
    ensures Owned(FinishOp(h.(files := h.files[h.ops[n].file := EndIo(h.files[h.ops[n].file])]), n, h.ops[n].file))
  {
    assert OpOk(h.ops[n], |h.files|);
    FinishOwned(h.(files := h.files[h.ops[n].file := EndIo(h.files[h.ops[n].file])]), n, h.ops[n].file);
  }

  lemma {:induction false} StartOwned(h: Host, e: Event)
    requires Inv(h) && Owned(h) && (e.StartOpen? || e.StartIo?)
    ensures Owned(Step(h, e))
  {
    if !Full(h) {
      if e.StartOpen? {
        BeginOwned(h, OPENING);
        if e.refused {
          FinishOwned(Begin(h, OPENING), |h.ops|, -1);
        }
      } else {
        BeginOwned(h, FAILING);
        FinishOwned(Begin(h, FAILING), |h.ops|, -1);
        BeginOwned(h, Op(false, e.file, false, false, false, true, 0, 0, 0));
      }
    }
  }

  lemma {:induction false} ReleaseOwned(h: Host, n: nat)
    requires Owned(h) && n < |h.ops| && n in h.table
    ensures Owned(Step(h, Release(n)))
  {
    var h1 := h.(ops := h.ops[n := h.ops[n].(released := true)], table := h.table - {n});
    assert Owned(h1);
    ReleaseResultOwned(h1, n);
  }

  lemma {:induction false} StepOwned(h: Host, e: Event)
    requires Inv(h) && Owned(h)
    ensures Owned(Step(h, e))
  {
    match e
    case Opened(n, ok) =>
      if n < |h.ops| && !h.ops[n].done && h.ops[n].opens {
        assert OpOk(h.ops[n], |h.files|);
        if ok {
          OpenedOwned(h, n);
        } else {
          FinishOwned(h, n, -1);
        }
      }
    case IoDone(n) =>
      if n < |h.ops| && h.ops[n].tracked && 0 <= h.ops[n].file < |h.files| {
        IoDoneOwned(h, n);
      }
    case Release(n) =>
      if n < |h.ops| && n in h.table {
        ReleaseOwned(h, n);
      }
    case TakeResult(n) =>
    case Wait(n) =>
    case Close(file) =>
    case _ => StartOwned(h, e);
  }

  lemma {:induction false} RunOwned(es: seq<Event>)
    ensures Owned(Run(es))
  {
    if es != [] {
      RunOwned(es[..|es| - 1]);
      RunOk(es[..|es| - 1]);
      StepOwned(Run(es[..|es| - 1]), es[|es| - 1]);
    }
  }

  /** For every order of events, the file an open operation produced is its own, and is disposed of by it
  exactly once if it was released untaken, and otherwise never; a file it disposed of is no longer open to
  the guest. */
  lemma {:induction false} FilesAreOwnedOnce(es: seq<Event>, n: nat)
    requires n < |Run(es).ops|
    ensures var h, op := Run(es), Run(es).ops[n];
            && op.disposals == (if op.opens && op.file >= 0 && op.released && !op.claimed then 1 else 0)
            && (op.disposals == 1 ==> 0 <= op.file < |h.files| && !h.files[op.file].listed)
            && (op.opens && op.file >= 0 ==> forall m :: 0 <= m < |h.ops| && m != n && h.ops[m].opens ==> h.ops[m].file != op.file)
  {
    RunOk(es);
    RunOwned(es);
    assert OpOk(Run(es).ops[n], |Run(es).files|);
  }

  /** In every run taking the result of an open that is done makes its file the guest's: releasing the
  operation then leaves every file as it is.  Taking the result before it is done, or once the operation has
  been released, changes nothing. */
  lemma {:induction false} TakingAResultClaims(es: seq<Event>, n: nat)
    ensures var h := Run(es);
            if n < |h.ops| && n in h.table && h.ops[n].done then
              var q := Run(es + [TakeResult(n)] + [Release(n)]);
              n < |q.ops| && q.files == h.files && q.ops[n].disposals == 0 && n !in q.table && q.ops[n].file == h.ops[n].file
            else Run(es + [TakeResult(n)]) == h
  {
    RunStep(es, TakeResult(n));
    RunStep(es + [TakeResult(n)], Release(n));
    if n < |Run(es).ops| {
      assert OpOk(Run(es).ops[n], |Run(es).files|);
    }
  }

  /** Operation `n` belongs to the guest with its file, which is open to it. */
  ghost predicate Held(h: Host, n: nat, file: nat) {
    && n < |h.ops| && h.ops[n].opens && h.ops[n].done && h.ops[n].claimed && h.ops[n].file == file
    && file < |h.files| && h.files[file].listed
  }

  lemma {:induction false} HeldByOne(h: Host, n: nat, file: nat, m: nat)
    requires Held(h, n, file) && Owned(h) && m < |h.ops|
    ensures ReleaseResult(h, m).ops[n] == h.ops[n] && Held(ReleaseResult(h, m), n, file)
  {
  }

  lemma {:induction false} FinishHeld(h: Host, n: nat, file: nat, m: nat, other: int)
    requires Held(h, n, file) && Owned(h) && m < |h.ops| && m != n && h.ops[m].disposals == 0
    requires h.ops[m].opens && other >= 0 ==> forall x :: 0 <= x < |h.ops| && x != m && h.ops[x].opens ==> h.ops[x].file != other
    ensures Held(FinishOp(h, m, other), n, file)
  {
    var h1 := h.(ops := h.ops[m := Finished(h.ops[m], other)], pendingOperations := h.pendingOperations - 1);
    assert Held(h1, n, file) && Owned(h1);
    HeldByOne(h1, n, file, m);
  }

  lemma {:induction false} StartHeld(h: Host, e: Event, n: nat, file: nat)
    requires Inv(h) && Owned(h) && Held(h, n, file) && (e.StartOpen? || e.StartIo?)
    ensures Held(Step(h, e), n, file)
  {
    if !Full(h) {
      if e.StartOpen? {
        BeginOwned(h, OPENING);
        if e.refused {
          FinishHeld(Begin(h, OPENING), n, file, |h.ops|, -1);
        }
      } else {
        BeginOwned(h, FAILING);
        FinishHeld(Begin(h, FAILING), n, file, |h.ops|, -1);
      }
    }
  }

  lemma {:induction false} OpenedHeld(h: Host, m: nat, n: nat, file: nat)
    requires Inv(h) && Owned(h) && Held(h, n, file) && m < |h.ops| && !h.ops[m].done && h.ops[m].opens
    ensures Held(FinishOp(h.(files := h.files + [File(true, 0, false, 0)]), m, |h.files|), n, file)
  {
    forall x | 0 <= x < |h.ops|
      ensures OpOk(h.ops[x], |h.files|)
    {
    }
    FinishHeld(h.(files := h.files + [File(true, 0, false, 0)]), n, file, m, |h.files|);
  }

  lemma {:induction false} IoDoneHeld(h: Host, m: nat, n: nat, file: nat)
    requires Inv(h) && Owned(h) && Held(h, n, file) && m < |h.ops| && h.ops[m].tracked && 0 <= h.ops[m].file < |h.files|
    ensures Held(FinishOp(h.(files := h.files[h.ops[m].file := EndIo(h.files[h.ops[m].file])]), m, h.ops[m].file), n, file)
  {
    assert OpOk(h.ops[m], |h.files|);
    FinishHeld(h.(files := h.files[h.ops[m].file := EndIo(h.files[h.ops[m].file])]), n, file, m, h.ops[m].file);
  }

  lemma {:induction false} StepHeld(h: Host, e: Event, n: nat, file: nat)
    requires Inv(h) && Owned(h) && Held(h, n, file) && e != Close(file)
    ensures Held(Step(h, e), n, file)
  {
    match e
    case Opened(m, ok) =>
      if m < |h.ops| && !h.ops[m].done && h.ops[m].opens {
        assert OpOk(h.ops[m], |h.files|);
        if ok {
          OpenedHeld(h, m, n, file);
        } else {
          FinishHeld(h, n, file, m, -1);
        }
      }
    case IoDone(m) =>
      if m < |h.ops| && h.ops[m].tracked && 0 <= h.ops[m].file < |h.files| {
        IoDoneHeld(h, m, n, file);
      }
    case Release(m) =>
      if m < |h.ops| && m in h.table {
        var h1 := h.(ops := h.ops[m := h.ops[m].(released := true)], table := h.table - {m});
        assert Owned(h1) && Held(h1, n, file);
        HeldByOne(h1, n, file, m);
      }
    case TakeResult(m) =>
    case Wait(m) =>
    case Close(other) =>
    case _ => StartHeld(h, e, n, file);
  }

  lemma {:induction false} RunHeld(es: seq<Event>, more: seq<Event>, n: nat, file: nat)
    requires Held(Run(es), n, file) && Close(file) !in more
    ensures Held(Run(es + more), n, file)
    decreases |more|
  {
    if more == [] {
      assert es + more == es;
    } else {
      var k := |more| - 1;
      assert more[k] in more && forall e :: e in more[..k] ==> e in more;
      RunHeld(es, more[..k], n, file);
      RunOk(es + more[..k]);
      RunOwned(es + more[..k]);
      RunSnoc(es, more);
      StepHeld(Run(es + more[..k]), more[k], n, file);
    }
  }

  /** A file that the guest has taken while it was open stays open in every continuation, whatever operations
  are released, until the guest itself closes it. */
  lemma {:induction false} TakenFilesStayOpen(es: seq<Event>, n: nat, more: seq<Event>)
    requires n < |Run(es).ops| && n in Run(es).table && Run(es).ops[n].done && Run(es).ops[n].opens
    requires 0 <= Run(es).ops[n].file < |Run(es).files| && Run(es).files[Run(es).ops[n].file].listed
    requires Close(Run(es).ops[n].file) !in more
    ensures var q, file := Run(es + [TakeResult(n)] + more), Run(es).ops[n].file;
            n < |q.ops| && q.ops[n].file == file && q.ops[n].disposals == 0 && file < |q.files| && q.files[file].listed
  {
    RunStep(es, TakeResult(n));
    RunHeld(es + [TakeResult(n)], more, n, Run(es).ops[n].file);
    RunOk(es + [TakeResult(n)] + more);
    assert OpOk(Run(es + [TakeResult(n)] + more).ops[n], |Run(es + [TakeResult(n)] + more).files|);
  }

  // ----- What has to happen -----

  /** In every run a new operation is listed under a new number unless there are too many; an open that is
  refused, and a read or write that is or has no file, is over at once, and any other read or write counts
  on its file until it is done. */
  lemma {:induction false} OperationsStart(es: seq<Event>, file: nat, refused: bool)
    ensures var h, q := Run(es), Run(es + [StartOpen(refused)]);
            if Full(h) then q == h
            else
              && |q.ops| == |h.ops| + 1 && q.ops[..|h.ops|] == h.ops && q.table == h.table + {|h.ops|} && q.files == h.files
              && q.ops[|h.ops|].opens && q.ops[|h.ops|].done == refused && q.ops[|h.ops|].file == -1
    ensures var h, q := Run(es), Run(es + [StartIo(file, refused)]);
            if Full(h) then q == h
            else
              && |q.ops| == |h.ops| + 1 && q.ops[..|h.ops|] == h.ops && q.table == h.table + {|h.ops|}
              && !q.ops[|h.ops|].opens
              && (if refused || file >= |h.files| || !h.files[file].listed then q.ops[|h.ops|].done && q.files == h.files
                  else
                    && q.ops[|h.ops|].tracked && !q.ops[|h.ops|].done && q.ops[|h.ops|].file == file
                    && q.files == h.files[file := h.files[file].(pending := h.files[file].pending + 1)])
  {
    RunStep(es, StartOpen(refused));
    RunStep(es, StartIo(file, refused));
  }

  /** In every run an open that succeeds produces a new file, which is open unless the operation has been
  released; it and every read or write end when their answer comes, and all who wait for them go on. */
  lemma {:induction false} OperationsEnd(es: seq<Event>, n: nat, ok: bool)
    requires n < |Run(es).ops| && !Run(es).ops[n].done
    ensures var h, q := Run(es), Run(es + [Opened(n, ok)]);
            h.ops[n].opens ==>
              && |q.ops| == |h.ops| && q.ops[n].done && q.ops[n].woken == q.ops[n].waits == h.ops[n].waits
              && (if ok then
                    && q.ops[n].file == |h.files| && |q.files| == |h.files| + 1 && q.files[..|h.files|] == h.files
                    && q.files[|h.files|].listed == !h.ops[n].released && q.files[|h.files|].closes == (if h.ops[n].released then 1 else 0)
                  else q.ops[n].file == -1 && q.files == h.files)
    ensures var h, q := Run(es), Run(es + [IoDone(n)]);
            h.ops[n].tracked ==>
              && |q.ops| == |h.ops| && q.ops[n].done && q.ops[n].woken == q.ops[n].waits == h.ops[n].waits
              && 0 <= h.ops[n].file < |h.files| == |q.files|
              && q.files[h.ops[n].file].pending == h.files[h.ops[n].file].pending - 1
  {
    RunStep(es, Opened(n, ok));
    RunStep(es, IoDone(n));
    var h := Run(es);
    assert OpOk(h.ops[n], |h.files|);
    if h.ops[n].tracked {
      OutstandingSome(h.ops, n);
    }
  }

  /** In every run closing an open file takes it from the guest, and its descriptor is closed at once if
  nothing is under way on it; nothing else is affected. */
  lemma {:induction false} ClosingCloses(es: seq<Event>, file: nat)
    requires file < |Run(es).files| && Run(es).files[file].listed
    ensures var h, q := Run(es), Run(es + [Close(file)]);
            && q == h.(files := h.files[file := q.files[file]]) && |q.files| == |h.files| && !q.files[file].listed
            && (if h.files[file].pending == 0 then q.files[file].closes == 1 else q.files[file].closing)
  {
    RunStep(es, Close(file));
    assert FileOk(Run(es).files[file]);
  }

  // ----- The count of pending operations -----

  /** The operations that are not done. */
  function NotDone(ops: seq<Op>): nat {
    if ops == [] then 0 else NotDone(ops[..|ops| - 1]) + if ops[|ops| - 1].done then 0 else 1
  }

  lemma {:induction false} NotDoneUpdate(ops: seq<Op>, n: nat, op: Op)
    requires n < |ops|
    ensures NotDone(ops[n := op]) == NotDone(ops) + (if op.done then 0 else 1) - (if ops[n].done then 0 else 1)
  {
    var last := |ops| - 1;
    if n == last {
      assert ops[n := op][..last] == ops[..last];
    } else {
      assert ops[n := op][..last] == ops[..last][n := op];
      NotDoneUpdate(ops[..last], n, op);
    }
  }

  ghost predicate Counted(h: Host) { h.pendingOperations == NotDone(h.ops) }

  lemma {:induction false} ReleaseResultCounted(h: Host, n: nat)
    requires Counted(h) && n < |h.ops|
    ensures Counted(ReleaseResult(h, n))
  {
    if ReleaseResult(h, n) != h {
      NotDoneUpdate(h.ops, n, ReleaseResult(h, n).ops[n]);
    }
  }

  lemma {:induction false} FinishCounted(h: Host, n: nat, file: int)
    requires Counted(h) && n < |h.ops| && !h.ops[n].done
    ensures Counted(FinishOp(h, n, file))
  {
    NotDoneUpdate(h.ops, n, Finished(h.ops[n], file));
    ReleaseResultCounted(h.(ops := h.ops[n := Finished(h.ops[n], file)], pendingOperations := h.pendingOperations - 1), n);
  }

  lemma {:induction false} BeginCounted(h: Host, op: Op)
    requires Counted(h) && !op.done
    ensures Counted(Begin(h, op))
  {
    assert (h.ops + [op])[..|h.ops|] == h.ops;
  }

  lemma {:induction false} StepCounted(h: Host, e: Event)
    requires Inv(h) && Counted(h)
    ensures Counted(Step(h, e))
  {
    match e
    case StartOpen(refused) =>
      BeginCounted(h, OPENING);
      FinishCounted(Begin(h, OPENING), |h.ops|, -1);
    case StartIo(file, refused) =>
      BeginCounted(h, FAILING);
      FinishCounted(Begin(h, FAILING), |h.ops|, -1);
      BeginCounted(h, Op(false, file, false, false, false, true, 0, 0, 0));
    case Opened(n, ok) =>
      if n < |h.ops| && !h.ops[n].done {
        FinishCounted(h, n, -1);
        FinishCounted(h.(files := h.files + [File(true, 0, false, 0)]), n, |h.files|);
      }
    case IoDone(n) =>
      if n < |h.ops| && h.ops[n].tracked && 0 <= h.ops[n].file < |h.files| {
        assert OpOk(h.ops[n], |h.files|);
        FinishCounted(h.(files := h.files[h.ops[n].file := EndIo(h.files[h.ops[n].file])]), n, h.ops[n].file);
      }
    case TakeResult(n) =>
      if n < |h.ops| {
        NotDoneUpdate(h.ops, n, h.ops[n].(claimed := true));
      }
    case Wait(n) =>
      if n < |h.ops| {
        NotDoneUpdate(h.ops, n, AwaitOp(h.ops[n]));
      }
    case Release(n) =>
      if n < |h.ops| {
        NotDoneUpdate(h.ops, n, h.ops[n].(released := true));
        ReleaseResultCounted(h.(ops := h.ops[n := h.ops[n].(released := true)], table := h.table - {n}), n);
      }
    case Close(file) =>
  }

  lemma {:induction false} RunCounted(es: seq<Event>)
    ensures Counted(Run(es))
  {
    if es != [] {
      RunCounted(es[..|es| - 1]);
      RunOk(es[..|es| - 1]);
      StepCounted(Run(es[..|es| - 1]), es[|es| - 1]);
    }
  }

  predicate Limited(h: Host) { |h.table| <= MAX_OPERATIONS && h.pendingOperations <= MAX_OPERATIONS }

  lemma {:induction false} FewerLimited(h: Host, q: Host)
    requires Limited(h) && q.table <= h.table && q.pendingOperations <= h.pendingOperations
    ensures Limited(q)
  {
    Subsets(q.table, h.table);
  }

  lemma {:induction false} Subsets(a: set<nat>, b: set<nat>)
    requires a <= b
    ensures |a| <= |b|
  {
    assert b == a + (b - a);
  }

  lemma {:induction false} BeginLimited(h: Host, op: Op)
    requires !Full(h)
    ensures Limited(Begin(h, op))
  {
    assert |h.table + {|h.ops|}| <= |h.table| + 1;
  }

  lemma {:induction false} StepLimited(h: Host, e: Event)
    requires Limited(h)
    ensures Limited(Step(h, e))
  {
    if e.StartOpen? || e.StartIo? {
      if !Full(h) {
        StartLimited(h, e);
      }
    } else {
      assert Step(h, e).table <= h.table && Step(h, e).pendingOperations <= h.pendingOperations;
      FewerLimited(h, Step(h, e));
    }
  }

  lemma {:induction false} StartLimited(h: Host, e: Event)
    requires !Full(h) && (e.StartOpen? || e.StartIo?)
    ensures Limited(Step(h, e))
  {
    BeginLimited(h, OPENING);
    assert Step(h, e).table == h.table + {|h.ops|} && Step(h, e).pendingOperations <= h.pendingOperations + 1;
  }

  lemma {:induction false} RunLimited(es: seq<Event>)
    ensures Limited(Run(es))
  {
    if es != [] {
      RunLimited(es[..|es| - 1]);
      StepLimited(Run(es[..|es| - 1]), es[|es| - 1]);
    }
  }

  /** In every run the count of pending operations is the number of operations that are not done, listed or
  not; neither it nor the number of listed operations exceeds the limit. */
  lemma {:induction false} PendingIsCounted(es: seq<Event>)
    ensures Run(es).pendingOperations == NotDone(Run(es).ops) <= MAX_OPERATIONS
    ensures |Run(es).table| <= MAX_OPERATIONS
  {
    RunCounted(es);
    RunLimited(es);
  }

  /** A descriptor is closed at most once, and never while a read or write on it is under way; once its
  handle is gone it is closed as soon as none is. */
  lemma {:induction false} DescriptorsCloseOnce(es: seq<Event>, file: nat)
    requires file < |Run(es).files|
    ensures var f := Run(es).files[file];
            && f.closes <= 1 && (f.closes == 1 ==> Outstanding(Run(es).ops, file) == 0)
            && (f.closes == 1 <==> !f.listed && Outstanding(Run(es).ops, file) == 0)
  {
    RunOk(es);
    assert FileOk(Run(es).files[file]);
  }

  /** The tables of the file host.  Operation `n` is the record that the source keeps under number n + 1. */
  class FileHost {
    var ops: seq<Op>
    var table: set<nat>
    var files: seq<File>
    var pendingOperations: int

    ghost function Model(): Host
      reads this
    {
      Host(ops, table, files, pendingOperations)
    }

    constructor ()
      ensures Model() == Host([], {}, [], 0) && Inv(Model())
    {
      ops, table, files, pendingOperations := [], {}, [], 0;
    }

    /** Closing through the guest's handle; a file with reads or writes under way is closed later. */
    method HandleClose(file: nat) returns (status: int)
      modifies `files
      ensures status == if file < |old(files)| && old(files)[file].listed then 0 else -1
      ensures Model() == Step(old(Model()), Close(file))
    {
      if file >= |files| || !files[file].listed {
        assert file < |files| ==> files[file := files[file]] == files;
        return -1;
      }
      var f := files[file].(listed := false);
      if f.pending > 0 {
        f := f.(closing := true);
      } else {
        f := f.(closes := f.closes + 1);
      }
      files := files[file := f];
      return 0;
    }

    /** Disposes of the file an operation opened, unless the guest has taken it. */
    method Dispose(n: nat)
      requires n < |ops|
      modifies `ops, `files
      ensures Model() == ReleaseResult(old(Model()), n)
    {
      var op := ops[n];
      if op.opens && 0 <= op.file < |files| && !op.claimed {
        ops := ops[n := op.(disposals := op.disposals + 1)];
        var _ := HandleClose(op.file);
      }
    }

    /** The `finish` of an operation. */
    method FinishOperation(n: nat, file: int)
      requires n < |ops|
      modifies `ops, `files, `pendingOperations
      ensures Model() == FinishOp(old(Model()), n, file)
    {
      pendingOperations := pendingOperations - 1;
      var op := ops[n].(done := true, file := file, tracked := false);
      ops := ops[n := op.(woken := op.waits)];
      if ops[n].released {
        Dispose(n);
      }
    }

    /** The `complete` of a tracked read or write: a file marked for closing goes with the last of them. */
    method CompleteIo(n: nat)
      requires Inv(Model()) && n < |ops| && ops[n].tracked
      modifies `ops, `files, `pendingOperations
      ensures Model() == Step(old(Model()), IoDone(n))
    {
      TrackedIsPending(Model(), n);
      var file := ops[n].file;
      var f := files[file].(pending := files[file].pending - 1);
      if f.closing && f.pending == 0 {
        f := f.(closes := f.closes + 1);
      }
      files := files[file := f];
      FinishOperation(n, file);
    }

    method OperationOpen(refused: bool) returns (started: bool)
      modifies this
      ensures Model() == Step(old(Model()), StartOpen(refused)) && started == !Full(old(Model()))
    {
      if |table| >= MAX_OPERATIONS || pendingOperations >= MAX_OPERATIONS {
        return false;
      }
      ops, table, pendingOperations := ops + [OPENING], table + {|ops|}, pendingOperations + 1;
      if refused {
        FinishOperation(|ops| - 1, -1);
      }
      return true;
    }

    /** A read or write; it fails at once if it is refused or its handle finds no file. */
    method OperationIo(file: nat, refused: bool) returns (started: bool)
      modifies this
      ensures Model() == Step(old(Model()), StartIo(file, refused)) && started == !Full(old(Model()))
    {
      if |table| >= MAX_OPERATIONS || pendingOperations >= MAX_OPERATIONS {
        return false;
      }
      if refused || file >= |files| || !files[file].listed {
        ops, table, pendingOperations := ops + [FAILING], table + {|ops|}, pendingOperations + 1;
        FinishOperation(|ops| - 1, -1);
        return true;
      }
      ops, table, pendingOperations := ops + [Op(false, file, false, false, false, true, 0, 0, 0)], table + {|ops|}, pendingOperations + 1;
      files := files[file := files[file].(pending := files[file].pending + 1)];
      return true;
    }

    /** The answer to an open: a new file, or none. */
    method OnOpened(n: nat, ok: bool)
      requires n < |ops| && ops[n].opens && !ops[n].done
      modifies `ops, `files, `pendingOperations
      ensures Model() == Step(old(Model()), Opened(n, ok))
    {
      if !ok {
        FinishOperation(n, -1);
        return;
      }
      files := files + [File(true, 0, false, 0)];
      FinishOperation(n, |files| - 1);
    }

    /** The file that an open has produced, now the guest's; -1 if the operation is not done or has none. */
    method OperationResult(n: nat) returns (file: int)
      requires Inv(Model())
      modifies `ops
      ensures Model() == Step(old(Model()), TakeResult(n))
      ensures file == if n in table && old(ops)[n].done then old(ops)[n].file else -1
    {
      if n in table && ops[n].done {
        ops := ops[n := ops[n].(claimed := true)];
        return ops[n].file;
      }
      return -1;
    }

    method OperationWait(n: nat)
      requires Inv(Model())
      modifies `ops
      ensures Model() == Step(old(Model()), Wait(n))
    {
      if n in table {
        var op := ops[n].(waits := ops[n].waits + 1);
        if op.done {
          op := op.(woken := op.woken + 1);
        }
        ops := ops[n := op];
      }
    }

    method ReleaseOperation(n: nat)
      requires Inv(Model())
      modifies `ops, `files, `table
      ensures Model() == Step(old(Model()), Release(n))
    {
      if n !in table {
        return;
      }
      ops := ops[n := ops[n].(released := true)];
      table := table - {n};
      if ops[n].done {
        Dispose(n);
      }
    }
  }

  /** A tracked read or write counts as pending on its file. */
  lemma {:induction false} TrackedIsPending(h: Host, n: nat)
    requires Inv(h) && n < |h.ops| && h.ops[n].tracked
    ensures 0 <= h.ops[n].file < |h.files| && h.files[h.ops[n].file].pending > 0
  {
    assert OpOk(h.ops[n], |h.files|);
    OutstandingSome(h.ops, n);
  }
}
