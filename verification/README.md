# Dream runtime and driver: verified models

This project models the parts of the Dream toolchain whose correctness depends on many steps fitting
together, and proves what they promise. Most of them are host-side protocols written in JavaScript; two
are driver algorithms written in Rust.

Each protocol is given twice: as a state machine over values (every step of the environment is an event,
so that a statement about `Run(es)` is a statement about every interleaving), and as classes or methods
that update their state as the program does, each method proved to be the transition of the machine it
carries out. The theorems are about all runs of the machine, or about all inputs. They say what cannot go
wrong, whatever happens, and what has to happen: what each call achieves, and that work which is owed is
done once the worker, the audio device or the event loop has taken the steps it takes when nothing fails.

| files | what they model |
|---|---|
| `SessionTable` | generational session handles over a free queue |
| `WorkerPool`, `WorkerPoolProofs`, `WorkerPoolService`, `WorkerPoolProgress`, `WorkerPoolLifecycle`, `WorkerHost` | worker sessions over two message channels per worker |
| `AudioStream`, `AudioStreamProofs`, `AudioPlayback`, `AudioService`, `AudioDevices` | streaming audio output: stream object, worklet, ring |
| `AsyncImport`, `AsyncHost` | asynchronous imports that settle guest futures; the run-loop pump |
| `DecodeStream`, `DecodeService`, `DecodeHost` | the job loop of an audio decode stream |
| `SocketOperations`, `FileOperations` | operations that own the socket or file they create |
| `HandleRegistry` | reference-counted handles for host values |
| `Containers`, `Bytes` | options and lists; byte strings and little-endian numbers |
| `WasmScan`, `WasmModules` | the import-section scanner and the section writer |
| `GuestHeap`, `GuestHeapProofs`, `GuestHeapResults`, `GuestStride`, `GuestInstance` | strings and arrays in guest memory |
| `Wire`, `ProcessWire`, `Layouts` | records of host operations; process arguments; the formats byte by byte |
| `InterfaceClosure`, `InterfaceDefaults`, `InterfaceSynthesis`, `InterfaceDriver` | inheritance of interface defaults |
| `CacheBudget` | eviction from size-capped caches |

`dafny verify dfyconfig.toml` checks everything.

## Where the code does less than it seems to

Some properties that one would expect do not hold of the code as it stands. For each there is a lemma that
shows the failure and a theorem with the exact condition under which the property holds.

- A new audio node starts in epoch 0 at position 0 and may report that before its first `flush` reaches it
  (runtime/dream.js:2957-2958). If the stream is in epoch 0 and has dropped its first frame, the host then
  falls back to position 0 and no longer holds what comes next. The audio theorems hold of every run whose
  connections satisfy `AudioStreamProofs.SafeConnect`; `UnsafeConnectBreaks` shows that each part of that
  condition is needed, `UnsafeConnectIsReachable` and `OverfullConnectIsReachable` that runs can violate each.
- A read, a push or a finish that is called while a reposition still waits for its turn takes its place or is
  thrown away (runtime/dream.js:6177-6180, 6328-6331). `DecodeStream.PatientRunsAreFaithful` is about the runs
  without such calls; `ImpatientReadLosesReposition` and `ImpatientPushIsLost` are about each of the others.
- Claiming a socket operation before it is done has no effect: the socket it creates later is disposed of on
  release (runtime/dream.js:1785, 1806). `SocketOperations.ClaimCountsOnceDone` says exactly when a claim counts.
- `readArray` looks up the element size under the name it is given, with its `?`, while `writeArray` strips the
  suffix first (runtime/src/instance.js:235-236, 263): arrays of `byte?`, `bool?`, `long?` and `ulong?` with more
  than one element do not read back. `GuestStride.StrideDecides` is the exact condition.
- The address of a string that is an array element is stored through a view taken before the string is allocated
  (runtime/src/instance.js:222). If memory that is not shared grows in between, the view is detached and the
  write fails. `GuestHeapResults.UnsharedArrays` is the exact condition, `GrowthLosesStrings` an example.
- `extend Foo : I` synthesizes a default of `I` even if class `Foo` declares a method of that name, because the
  second phase does not look at classes (src/driver/interface_defaults.rs:192-227).
  `InterfaceSynthesis.ClashIff` is the exact condition, `ClashExample` the example.

## Model

| member | source | states |
|---|---|---|
| `SessionTable.HandleBits` | runtime/src/workers.js:129-155 | the shifts and masks of the source are the division and remainder of the model, for every generation and slot |
| `SessionTable.HandleDecodes` | runtime/src/workers.js:134-155 | a handle is in 1..2^31-1 and decodes to its own slot and generation |
| `SessionTable.HandleEncodes` | runtime/src/workers.js:134-138 | every positive 32-bit id is the handle of the slot and generation it decodes to |
| `SessionTable.InsertValid` | runtime/src/workers.js:140-156 | insertion keeps the table valid (the queue holds exactly the empty slots, each once; the dead prefix is under 1024 or under half the array) and takes the slot freed longest ago off the queue, compaction or not |
| `SessionTable.RemoveValid` | runtime/src/workers.js:160-168 | removal keeps the table valid and queues the slot last |
| `SessionTable.GetIsHandle` | runtime/src/workers.js:134-138 | an id is found exactly if it is the current handle of an occupied slot |
| `SessionTable.InsertMeans` | runtime/src/workers.js:140-156 | an issued handle is a positive 32-bit integer that was not live and now finds what was stored; no other lookup changes; insertion fails exactly if all slots are occupied |
| `SessionTable.RemoveMeans` | runtime/src/workers.js:160-168 | removal makes exactly that handle miss |
| `SessionTable.InsertLive` | runtime/src/workers.js:140-156 | the map of live handles gains exactly the new handle, which was not live |
| `SessionTable.RemoveLive` | runtime/src/workers.js:160-168 | the map of live handles loses exactly the removed one |
| `SessionTable.GenerationCountsRemovals` | runtime/src/workers.js:165 | after any operations the generation of a slot is the number of removals from it, counted round 1..255 |
| `SessionTable.GenerationReturns` | runtime/src/workers.js:123-127 | a generation comes back exactly after each multiple of 255 removals from its slot |
| `SessionTable.StaleHandleMisses` | runtime/src/workers.js:123-127 | in every continuation a removed handle is found again exactly if its slot is occupied and was removed a multiple of 255 times, so it misses until then |
| `SessionTable.Sessions.Add` | runtime/src/workers.js:140-156 | inserts in place as the table model does, keeping it valid |
| `SessionTable.Sessions.Lookup` | runtime/src/workers.js:134-138 | finds what the table model finds |
| `SessionTable.Sessions.Drop` | runtime/src/workers.js:160-168 | removes in place as the table model does, keeping it valid |
| `WorkerPoolProofs.StepOk` | runtime/src/workers.js:223-519 | every event (calls, messages, send failures, crashes, time-outs, stops) keeps the pool invariant |
| `WorkerPoolProofs.FailSlotOk` | runtime/src/workers.js:263-283 | a failing slot leaves a good pool, from wherever it is called |
| `WorkerPoolProofs.RepliesAreRouted` | runtime/src/workers.js:72-93 | in every run a settlement by reply carries the reply made for that very dispatch, settlements are in dispatch order, and the next reply on a reused worker belongs to its present session |
| `WorkerPoolProofs.DeliveredReplyResolves` | runtime/src/workers.js:323-330 | in every run a reply delivered to a session resolves its oldest dispatch, which is the one the reply was made for, and no other event resolves any dispatch with a reply |
| `WorkerPoolProofs.SettledOnceOrPending` | runtime/src/workers.js:263-334 | in every run a dispatch is settled, exactly once, or waits exactly once in the pending list of a live session on a slot that has not failed and is ready or has its boot timer armed; pending and inflight agree |
| `WorkerPoolProofs.StepLater` | runtime/src/workers.js:263-519 | no event drops or rewrites a settlement, forgets a session or lowers its count of dispatches |
| `WorkerPoolProofs.SettlementsAreFinal` | runtime/src/workers.js:263-334 | in every continuation of every run the settlements of a session only grow at the end |
| `WorkerPoolProofs.SettledOnceAndForAll` | runtime/src/workers.js:263-334 | a dispatch settled in a run is settled with the same outcome, and nowhere else, in every continuation |
| `WorkerPoolProofs.SlotsArePartitioned` | runtime/src/workers.js:448-509 | in every run a slot that has not failed serves the live session that points back, or is idle once and ready with no dispatch or reply on either channel, or is retired; the idle list holds at most 64; no slot is killed before it is ready |
| `WorkerPoolProofs.StacksAreFreedOnce` | runtime/src/workers.js:223-255 | in every run a guest stack is freed at most once, and only when its worker has stopped |
| `WorkerPoolService.DispatchIsOwed` | runtime/src/workers.js:296-302 | in every run a dispatch becomes the youngest call its session waits for, with its job on the way to the worker; if it cannot be posted the session fails and everything it owes is resolved with the empty string |
| `WorkerPoolService.TerminateEnds` | runtime/src/workers.js:471-509 | in every run ending a session resolves what it owed with the empty string and takes away its handle and its failure; its worker becomes idle exactly if ready, at rest and with nothing in flight, and otherwise retires: at boot, at once, or by being asked to close |
| `WorkerPoolService.SpawnServes` | runtime/src/workers.js:448-469 | in every run a spawn opens a session on the worker that became idle last, or on a new one, which is told to reset or to start; it fails, on record, only if the worker cannot be created or told |
| `WorkerPoolService.FaultsFail` | runtime/src/workers.js:263-283 | in every run a crash, an error report, a time-out or a job that cannot be posted stops the worker and ends its session, with the failure on record and what it owed resolved with the empty string |
| `WorkerPoolService.MessagesAreTaken` | runtime/src/workers.js:304-334 | in every run a slot takes over what its worker reports: its stack and the queued jobs in order at boot, whether host calls are left after a reply, and that it may be stopped once closed |
| `WorkerPoolProgress.OrderlyEnds` | runtime/src/workers.js:296-334 | in every run the number of steps a slot can take without faults is bounded by the work queued on it |
| `WorkerPoolProgress.RestMeansDone` | runtime/src/workers.js:304-334 | in every run a slot with nothing left to do owes its session nothing, and has stopped or is stopping if it was retired |
| `WorkerPoolProgress.CallsAreAnswered` | runtime/src/workers.js:296-334 | whatever the run, once the worker of a session has worked without fault until nothing is left to do, every call the session was waiting for has been resolved, in order, with the reply made for it; the oldest one for a one-shot session |
| `WorkerPoolLifecycle.SlotsOnlyAge` | runtime/src/workers.js:223-283 | in every continuation a slot that has failed, retired, stopped or begun to stop stays so, and a stack is held until it is freed, once, when its worker has stopped |
| `WorkerPoolLifecycle.NoStackIsLost` | runtime/src/workers.js:223-247 | in every continuation a stack reported by a worker is held, or was freed exactly once, which is when the worker has stopped |
| `WorkerPoolLifecycle.StopsAreAwaited` | runtime/src/workers.js:231-255 | in every run a worker whose termination is a promise keeps its stack until that promise settles |
| `WorkerPoolLifecycle.StopCompletes` | runtime/src/workers.js:235-261 | in every run a termination that settles frees the stack and lets whoever waits for the slot go on |
| `WorkerPoolLifecycle.FailuresAreReported` | runtime/src/workers.js:271-281 | in every run a session ends because the guest ends it, because it was one-shot and was answered, or because it failed, and exactly then is a failure recorded |
| `WorkerPoolLifecycle.FailuresLast` | runtime/src/workers.js:471-472 | in every continuation a failure stays on record until the guest ends the session or is given its handle again |
| `WorkerHost.Workers.KillSlot` | runtime/src/workers.js:231-255 | stops a worker as the model does |
| `WorkerHost.Workers.SettleAll` | runtime/src/workers.js:278-280 | resolves every pending call, in order, with the empty string |
| `WorkerHost.Workers.FailSlot` | runtime/src/workers.js:263-283 | fails a slot as the model does, session table and idle list included |
| `WorkerHost.Workers.Send` | runtime/src/workers.js:285-294 | posts, or fails the slot if posting throws |
| `WorkerHost.Workers.PostJob` | runtime/src/workers.js:296-302 | counts the job and sends it or queues it until the worker is ready |
| `WorkerHost.Workers.WorkerDispatch` | runtime/src/workers.js:513-520 | dispatches as the model does, or answers at once if the session is gone |
| `WorkerHost.Workers.TerminateWorker` | runtime/src/workers.js:471-509 | ends a session: the worker becomes idle or retires, as the model says |
| `WorkerHost.Workers.SpawnWorker` | runtime/src/workers.js:448-469 | opens a session on an idle or a new worker, as the model says |
| `WorkerHost.Workers.FlushQueue` | runtime/src/workers.js:316-320 | sends the queued jobs in order until one cannot be posted |
| `WorkerHost.Workers.OnWorkerMessage` | runtime/src/workers.js:304-334 | handles a worker's message as the model does |
| `WorkerHost.Workers.Boot` | runtime/src/workers.js:306-320 | handles `ready`: retires a worker told to, otherwise flushes its queue |
| `WorkerHost.Workers.TakeReply` | runtime/src/workers.js:323-330 | resolves the call that has waited longest with the reply, as `WorkerPoolProofs.DeliveredReplyResolves` demands, and retires one-shot sessions |
| `AudioStreamProofs.StepOk` | runtime/dream.js:2899-2962 | every write, seek, end, report, render quantum, delivery and safe connection keeps the stream invariant |
| `AudioStreamProofs.RingIsSafe` | runtime/dream.js:2899-2956 | in every safe run the worklet never holds or receives more than `capacity` unread frames, and what it plays as frame n of an epoch is the frame accepted as number n, interpolated towards its successor |
| `AudioStreamProofs.ResumeIsExact` | runtime/dream.js:3048-3085 | in every safe run the retained chunks cover every frame from `consumed` to `written`, and a new node is sent exactly those, in order, once |
| `AudioStreamProofs.EndedIsComplete` | runtime/dream.js:2935-2958 | in every safe run `ended` is reported only when every frame accepted in its epoch has been consumed and no more will be accepted (`AudioService.StreamIsHeardOut` says that it is reported) |
| `AudioPlayback.TickPlays` | runtime/dream.js:2935-2955 | a running worklet with two frames, or with the last one of an ended stream, plays the frame at its position, blended by the fraction, and moves on by exactly one step; with none of an ended stream it ends; otherwise it waits in silence |
| `AudioPlayback.PlaysEvenly` | runtime/dream.js:2935-2955 | as long as there are frames, sample k is taken exactly k steps from where the worklet was, whatever the step |
| `AudioPlayback.MovesEvenly` | runtime/dream.js:2950-2954 | after n samples without silence the position has grown by exactly n steps |
| `AudioPlayback.StreamEnds` | runtime/dream.js:2935-2938 | an ended stream is played to its last frame and then ends, at any speed |
| `AudioService.CommandsTakeEffect` | runtime/dream.js:2909-2929 | in every safe run the worklet that has taken its commands plays or not, in which epoch and towards which end, as the guest last asked, and holds every accepted frame it has not consumed |
| `AudioService.SeeksStartOver` | runtime/dream.js:3214-3220 | in every safe run a seek makes the worklet start the new epoch at its first frame, and a new node starts where the host knows the last one to have been |
| `AudioService.WritesAreAccepted` | runtime/dream.js:3174-3185 | in every safe run a write to a stream that has not ended accepts as many frames as there is room for, the first ones |
| `AudioService.ReportsAreTaken` | runtime/dream.js:3061-3075 | in every safe run a report of the present epoch makes position, starvation and end known to the host, which keeps no consumed chunk; other reports change nothing |
| `AudioService.ReportsRegularly` | runtime/dream.js:2957-2958 | a worklet reports at least once in eight quanta |
| `AudioService.QuantaAreHeard` | runtime/dream.js:2931-2956 | a quantum for which there are enough frames is rendered in full, one sample per step |
| `AudioService.StreamIsHeardOut` | runtime/dream.js:2931-3075 | whatever the safe run, a stream that has been ended and is to play is consumed to its last accepted frame, and the host learns that it has ended, once the worklet has taken its commands, rendered enough and reported |
| `AudioStreamProofs.UnsafeConnectBreaks` | runtime/dream.js:3053-3085 | from any good state, a connection that is not safe leads to lost frames, with render quanta of any length, or to an overfull ring |
| `AudioStreamProofs.UnsafeConnectIsReachable` | runtime/dream.js:3053-3085 | a run with safe connections, for every length of render quanta above one sample, reaches a state where the next connection finds the first frame gone |
| `AudioStreamProofs.OverfullConnectIsReachable` | runtime/dream.js:3053-3085 | likewise a run reaches a state where the next connection would overfill the ring |
| `AudioDevices.CellsDiffer` | runtime/dream.js:2922 | positions less than a ring apart lie in different cells |
| `AudioDevices.RingAppend` | runtime/dream.js:2919-2927 | writing the next cell of a ring that is not full appends a frame and overwrites no unread one |
| `AudioDevices.AudioWorklet.Store` | runtime/dream.js:2919-2928 | the ring loop appends the samples to the unread frames |
| `AudioDevices.AudioWorklet.OnMessage` | runtime/dream.js:2909-2929 | obeys a command as the model does; those of another epoch change nothing |
| `AudioDevices.AudioWorklet.Render` | runtime/dream.js:2935-2955 | renders one sample and moves on as the model does, so that `AudioPlayback.TickPlays` holds of it |
| `AudioDevices.AudioWorklet.Process` | runtime/dream.js:2931-2961 | renders a quantum and reports as the model does |
| `AudioDevices.AudioStreamHost.WriteSamples` | runtime/dream.js:3174-3185 | accepts as many frames as there is credit for, keeps them and posts them |
| `AudioDevices.AudioStreamHost.SeekTo` | runtime/dream.js:3214-3220 | starts a new epoch |
| `AudioDevices.AudioStreamHost.EndOfStream` | runtime/dream.js:3221-3223 | announces the end of the epoch |
| `AudioDevices.AudioStreamHost.Connect` | runtime/dream.js:3054-3086 | posts to a new node exactly what the model's `Resume` says |
| `AudioDevices.AudioStreamHost.OnReport` | runtime/dream.js:3061-3075 | takes a report of the present epoch and drops the chunks it covers |
| `AsyncImport.StepOk` | runtime/src/async.js:86-157 | every start, fulfilment, rejection, cancellation, direct completion and guest step keeps the invariant of the bridge |
| `AsyncImport.CallsAreConserved` | runtime/src/async.js:91-147 | in every run a call unpins exactly once if settled and not before, `_hostPending` is the number of unsettled calls, a frame is pinned exactly while an unsettled call holds it and is resolved at most once (`CallsEndByHandingOver` says when it is) |
| `AsyncImport.CallsEndByHandingOver` | runtime/src/async.js:101-157 | in every run fulfilment, rejection, direct completion and a cancellation that stops the work at once settle the call: its future is unpinned and, if it was pending and the result can be converted, resolved exactly once with the run loop woken; otherwise its status stays |
| `AsyncImport.CallsMakeProgress` | runtime/src/async.js:86-145 | in every run the first poll of a future starts a call that pins it, work begins when its turn comes, and a rejection is reported unless it was asked for or shows as a null |
| `AsyncImport.CancelReachesCall` | runtime/src/async.js:92-99 | in every run a cancellation of the future of an unsettled call is put on record in that call and no other, is passed on to its work if that can be cancelled, and settles the call at once exactly if the work stops at once and does not throw |
| `AsyncImport.NoCancelIsLost` | runtime/src/async.js:120-127 | in every continuation requests, passed-on cancellations and settlements stay on record, and a recorded request has been passed on once the work can be cancelled |
| `AsyncImport.ResolvesOnlyPending` | runtime/src/async.js:107-112 | in every run a frame is resolved only while it is pending |
| `AsyncImport.LateCompletionIsInert` | runtime/src/async.js:100-103 | in every run completing a settled call changes no frame, no table and no other call, even one that reuses its future's address |
| `AsyncImport.SettleIsLocal` | runtime/src/async.js:101-116 | in every run settling a call touches only its own future and entries, leaving the entries of others with their values, and unsettled calls have different futures |
| `AsyncHost.HostCalls.Call` | runtime/src/async.js:87-119 | starts a call as the model does |
| `AsyncHost.HostCalls.SettleCall` | runtime/src/async.js:101-116 | settles a call as the model does, once, resolving its pending future and asking the run loop to go on |
| `AsyncHost.HostCalls.CancelCall` | runtime/src/async.js:94-99 | cancels the call registered for a future as the model does |
| `AsyncHost.HostCalls.BeginWork` | runtime/src/async.js:120-128 | starts the work and passes on a cancellation that came before |
| `AsyncHost.HostCalls.FinishWork` | runtime/src/async.js:129-145 | settles after fulfilment or rejection as the model does |
| `RunLoopPump.PumpInvariant` | runtime/src/async.js:33-59 | in every run at most one drain is scheduled or active, exactly when `running` is set, drains never nest, and `queued` implies `running`, so no wake-up is lost |
| `RunLoopPump.RequestsAreServed` | runtime/src/async.js:33-59 | in every run a request that no run loop has seen is served at the next flush of the microtasks or when the present run loop returns, or at the flush after it throws; a drain with nothing left to serve ends |
| `RunLoopPump.PumpState.PumpRunLoop` | runtime/src/async.js:33-41 | a request queues a drain or is noted for the present one |
| `RunLoopPump.PumpState.Drain` | runtime/src/async.js:42-57 | a drain, with any requests and exceptions inside it, ends in a state the model allows |
| `DecodeStream.StepOk` | runtime/dream.js:6153-6226 | every call and every answer of the worker keeps the invariant of the stream |
| `DecodeStream.JobLoopIsSafe` | runtime/dream.js:6165-6226 | in every run at most one request is in the worker, exactly while the loop runs; no result of a request issued before a reposition is published after it; a waiter is parked only while the loop runs and is woken when it ends; a closed stream sends one close, with nothing in the worker |
| `DecodeStream.PatientRunsAreFaithful` | runtime/dream.js:6172-6212 | in every run that leaves waiting repositions alone, each result was decoded where the last reposition pointed, what was pushed since was sent or is queued, an end of input given since is queued or has reached the worker, and it reaches the worker only once all pushed bytes have |
| `DecodeStream.ImpatientReadLosesReposition` | runtime/dream.js:6322-6332 | a read called while a reposition waits always yields a result from the old position |
| `DecodeStream.ImpatientPushIsLost` | runtime/dream.js:6304-6320 | bytes or an end of input given while a reposition waits never reach the worker |
| `DecodeStream.RepositionWaits` | runtime/dream.js:6334-6347 | a reposition comes to wait when it is called during a read |
| `DecodeService.AnswersBecomeReady` | runtime/dream.js:6158-6211 | in every run the answer to a request that no reposition has overtaken becomes ready, with its status or that of a lost worker, and whoever waits for it is woken; an empty read is repeated instead if input has come |
| `DecodeService.NextRequestIsSent` | runtime/dream.js:6165-6186 | in every run the request made while the worker was busy goes to it with its answer, a reposition to the position last asked for and a read with all the input; without one the loop ends and nobody waits |
| `DecodeService.ReadsAreSent` | runtime/dream.js:6322-6332 | in every run a read finds one under way or ready, or goes to the worker at once with all the input, or waits for its next answer; only without a worker is it refused |
| `DecodeService.RepositionsAreSent` | runtime/dream.js:6334-6347 | in every run a reposition makes what was read, pushed or announced before it void and goes to the worker at once or after its next answer, which is discarded |
| `DecodeService.BytesAreTaken` | runtime/dream.js:6304-6313 | in every run bytes join the input unless the end of input was given |
| `DecodeService.EndsAreNoted` | runtime/dream.js:6315-6320 | in every run the end of input is noted, to go with the next read |
| `DecodeService.WaitsArePlaced` | runtime/dream.js:6349-6357 | in every run a wait for what is ready or will not come returns at once, and otherwise takes the place of the wait before it, which returns |
| `DecodeService.TakingAResult` | runtime/dream.js:6359-6383 | in every run taking a result hands out the status of the last result if it belongs to the present operation, and otherwise -2 for a read and 0 for anything else; after a chunk the next read is asked for at once |
| `DecodeService.RequestsAreAnswered` | runtime/dream.js:6153-6226 | in every run the result of a read or a reposition can be taken after at most two answers of the worker, if nothing else is asked for meanwhile |
| `DecodeHost.StreamRecord.RunHead` | runtime/dream.js:6165-6186 | the loop on a record ends and settles, or posts the next request, as the model does |
| `DecodeHost.StreamRecord.RunReply` | runtime/dream.js:6187-6214 | the loop goes on after an answer, which it repeats, makes ready or discards as the model does, so that `DecodeService.AnswersBecomeReady` holds of it |
| `DecodeHost.StreamRecord.ScheduleRun` | runtime/dream.js:6217-6226 | starts the loop unless it runs or there is no worker |
| `DecodeHost.DecoderModule.StreamOpen` | runtime/dream.js:6264-6296 | a new record under a handle of its own, or none without a worker |
| `DecodeHost.DecoderModule.StreamPush` | runtime/dream.js:6304-6313 | takes in bytes as the model does; other records are untouched |
| `DecodeHost.DecoderModule.StreamFinish` | runtime/dream.js:6315-6320 | notes the end of input as the model does |
| `DecodeHost.DecoderModule.StreamRead` | runtime/dream.js:6322-6332 | requests a read as the model does and says whether it was accepted; other streams are untouched |
| `DecodeHost.DecoderModule.StreamReposition` | runtime/dream.js:6334-6347 | requests a reposition as the model does and says whether it was accepted; other streams are untouched |
| `DecodeHost.DecoderModule.StreamWait` | runtime/dream.js:6349-6357 | parks a waiter, waking the one before, as the model does |
| `DecodeHost.DecoderModule.StreamResult` | runtime/dream.js:6359-6383 | takes the result and prefetches as the model does, and returns the status of the result if it is ready for the present operation, else -2 for a read and 0 otherwise; nothing for an unknown handle |
| `DecodeHost.DecoderModule.StreamClose` | runtime/dream.js:6401-6408 | the handle is gone and the record closes as the model says, now or when its loop ends |
| `DecodeHost.DecoderModule.OnReply` | runtime/dream.js:6181-6214 | an answer, also one for a record closed meanwhile, is the step of the model; every other record is untouched |
| `SocketOperations.SocketsAreOwnedOnce` | runtime/dream.js:1770-1806 | for every order of completion, time-out, cancellation, claim and release, a socket is disposed of by its operation exactly once if released unclaimed, otherwise never |
| `SocketOperations.ClaimCountsOnceDone` | runtime/dream.js:1785-1806 | a claim keeps the socket exactly if the operation was done by then |
| `SocketOperations.OperationsStart` | runtime/dream.js:1770-1777 | in every run an operation starts under a new number, within the limits |
| `SocketOperations.OperationsEnd` | runtime/dream.js:1778-1797 | in every run the end of its work ends an operation, with the socket made and with a result exactly if the work succeeded and was not aborted |
| `SocketOperations.AbortIsFinal` | runtime/dream.js:1786-1805 | in every continuation an operation aborted or released before its work ended can only fail |
| `SocketOperations.ClaimIsFinal` | runtime/dream.js:1785-1806 | in every continuation a socket claimed when it was there is never disposed of by its operation |
| `SocketOperations.SocketHost.FinishWork` | runtime/dream.js:1784-1793 | completes an operation as the model does |
| `SocketOperations.SocketHost.ReleaseOperation` | runtime/dream.js:1805 | releases an operation as the model does |
| `SocketOperations.SocketHost.AbortOperation` | runtime/dream.js:1804 | aborts a listed operation as the model does |
| `SocketOperations.SocketHost.ClaimOperation` | runtime/dream.js:1806 | claims an operation's socket as the model does |
| `FileOperations.StepOk` | runtime/dream.js:1846-1935 | every event keeps the invariant of operations and files |
| `FileOperations.FilesAreOwnedOnce` | runtime/dream.js:1847-1935 | for every order of events a file that an operation opened is its own, is disposed of by it exactly once if released untaken and otherwise never, and is then no longer open to the guest |
| `FileOperations.TakingAResultClaims` | runtime/dream.js:1843-1935 | in every run releasing an operation whose result has been taken leaves every file as it is; taking the result before it is done, or after the release, changes nothing |
| `FileOperations.TakenFilesStayOpen` | runtime/dream.js:1922-1935 | in every continuation a file the guest has taken stays open until the guest closes it |
| `FileOperations.OperationsStart` | runtime/dream.js:1849-1890 | in every run a new operation is listed under a new number within the limits; a refused one is over at once, and a read or write counts on its file until it is done |
| `FileOperations.OperationsEnd` | runtime/dream.js:1855-1895 | in every run an open that succeeds produces a new file, closed at once if released, and every answer ends its operation and wakes all who wait for it |
| `FileOperations.ClosingCloses` | runtime/dream.js:2299-2310 | in every run closing an open file takes it from the guest and closes its descriptor at once if nothing is under way on it, and affects nothing else |
| `FileOperations.PendingIsCounted` | runtime/dream.js:1849-1863 | in every run the count of pending operations is the number of operations not done, listed or not, and neither it nor the table exceeds the limit |
| `FileOperations.DescriptorsCloseOnce` | runtime/dream.js:1890-1895 | a descriptor is closed at most once, never with a tracked read or write under way, and closed as soon as its handle is gone and none is |
| `FileOperations.FileHost.HandleClose` | runtime/dream.js:2299-2310 | closes a handle now, or marks it if reads or writes are under way |
| `FileOperations.FileHost.CompleteIo` | runtime/dream.js:1891-1895 | ends a tracked read or write, closes a file marked for it and finishes the operation |
| `FileOperations.FileHost.OperationOpen` | runtime/dream.js:1851-1885 | starts an open as the model does, within the limits on operations |
| `FileOperations.FileHost.OperationIo` | runtime/dream.js:1886-1919 | starts a tracked read or write, or fails at once, as the model does |
| `FileOperations.FileHost.OnOpened` | runtime/dream.js:1876-1885 | ends an open; a released one disposes of its file |
| `FileOperations.FileHost.OperationResult` | runtime/dream.js:1922-1927 | hands the result of a finished operation to the guest, which then owns the file (`TakingAResultClaims`); -1 if it is not done |
| `FileOperations.FileHost.OperationWait` | runtime/dream.js:1936-1940 | waits for an operation as the model does |
| `FileOperations.FileHost.ReleaseOperation` | runtime/dream.js:1929-1935 | releases an operation and disposes of an unclaimed file as the model does |
| `HandleRegistry.StepValid` | runtime/src/instance.js:40-80 | every operation keeps the two maps inverse to each other, counts positive, and live and free ids a partition of 1..nextId-1 |
| `HandleRegistry.CountIsBalance` | runtime/src/instance.js:40-80 | in every run the count of a live entry is registrations plus retains minus releases since the registration that created it, at least 1, and its id has not changed since |
| `HandleRegistry.DerefAfterRegister` | runtime/src/instance.js:40-59 | a registered value is found under the id returned, null under 0, and no other id changes or is shared |
| `HandleRegistry.ReleaseAffectsOne` | runtime/src/instance.js:55-80 | releasing what an id stands for affects exactly that id |
| `HandleRegistry.ReleaseUndoesRegister` | runtime/src/instance.js:40-80 | a release undoes a registration; an id used for the first time is the next to be handed out |
| `HandleRegistry.ReleaseUndoesRetain` | runtime/src/instance.js:62-80 | a release undoes a retain |
| `HandleRegistry.HandleTable.RegisterHandle` | runtime/src/instance.js:40-52 | registers in place as the model does |
| `HandleRegistry.HandleTable.DerefHandle` | runtime/src/instance.js:55-59 | resolves as the model does |
| `HandleRegistry.HandleTable.RetainValue` | runtime/src/instance.js:62-67 | retains in place as the model does |
| `HandleRegistry.HandleTable.ReleaseValue` | runtime/src/instance.js:70-80 | releases in place as the model does |
| `WasmScan.Uleb32` | src/driver/abi.rs:28-42 | the loop writes the shortest LEB128 form |
| `WasmScan.WasmCustomSection` | src/driver/abi.rs:44-53 | writes a custom section with 32-bit lengths |
| `WasmScan.ReadLeb` | runtime/src/load.js:60-69 | the loop reads the number and stops at the end of the bytes |
| `WasmScan.FlagBits` | runtime/src/load.js:70-75 | the flags tested by the model are bits 0 and 1 |
| `WasmScan.MemoryImportIsShared` | runtime/src/load.js:57-109 | ends on every byte string with the model's answer |
| `WasmModules.LebReads` | runtime/src/load.js:60-69 | the reader inverts every way of writing a number, padded forms included |
| `WasmModules.ScanMeetsModule` | runtime/src/load.js:57-109 | for every well-formed module the scan returns the shared bit of its first memory import, or false |
| `WasmModules.LebInvertsUleb` | src/driver/abi.rs:28-42 | the scanner's reader inverts the compiler's writer for every 32-bit number, whatever follows |
| `WasmModules.CustomIsOther` | src/driver/abi.rs:44-53 | what the compiler writes is a well-formed custom section |
| `WasmModules.CustomSectionIsInvisible` | src/driver/abi.rs:44-53 | appending such a section to any well-formed module does not change the scan |
| `GuestHeapProofs.NormalIsIdentity` | runtime/src/instance.js:191-227 | a value survives conversion to an element type exactly if it is a value of that type |
| `GuestHeapProofs.StringRoundTrip` | runtime/src/instance.js:107-157 | a string of any length reads back in every later state that keeps its block, and earlier blocks are unchanged |
| `Layouts.StringLayout` | runtime/src/instance.js:148-157 | a string in guest memory is its length as four bytes, lowest first, four bytes of zero, and its units, low byte first |
| `GuestHeapResults.WritingDisturbsNothing` | runtime/src/instance.js:191-251 | writing an array leaves every earlier block as it was, even if it fails, and can fail only for want of a block or, for strings in unshared memory, by growth |
| `GuestHeapResults.ArrayRoundTrip` | runtime/src/instance.js:160-269 | an array of integers, bools, bytes or strings reads back in every later state that keeps its blocks |
| `GuestHeapProofs.NormalsOfMembers` | runtime/src/instance.js:160-227 | for values of the element type, reading back means reading the same array |
| `GuestHeapResults.UnsharedArrays` | runtime/src/instance.js:221-223 | writing to unshared memory succeeds exactly if writing to shared memory does without growth after the array's own block, with the same result |
| `GuestHeapResults.GrowthLosesStrings` | runtime/src/instance.js:221-223 | with a sound allocator an array of one string is lost to growth |
| `GuestStride.WriteArrayIsImage` | runtime/src/instance.js:234-251 | what writing scalars leaves in memory, for every sound allocator |
| `GuestStride.StrideDecides` | runtime/src/instance.js:257-269 | arrays of n scalars read back exactly if the reader's element size is the writer's or n is at most 1 |
| `GuestInstance.Instance.WriteString` | runtime/src/instance.js:148-157 | the unit loop writes the string block of the model |
| `GuestInstance.Instance.ReadString` | runtime/src/instance.js:107-131 | reads any memory as the model does, slices and chunks of 8192 units included |
| `GuestInstance.Instance.WriteElement` | runtime/src/instance.js:191-227 | writes an element as the model does |
| `GuestInstance.Instance.WriteArray` | runtime/src/instance.js:234-251 | writes an array as the model does, the bulk copy of bytes included |
| `GuestInstance.Instance.ReadElement` | runtime/src/instance.js:160-188 | reads an element as the model does |
| `GuestInstance.Instance.ReadArray` | runtime/src/instance.js:257-269 | reads an array from any memory as the model does |
| `Wire.RoundTrip` | runtime/src/wire.js:15-60 | the reader recovers every sequence of bytes, integers and byte runs that the writer wrote |
| `Wire.AcceptsOnlyEncodings` | runtime/src/wire.js:34-53 | what the reader accepts is exactly what the writer writes for the fields it returns |
| `Wire.ExactLength` | runtime/src/wire.js:41-53 | every proper prefix and extension of an accepted record is rejected |
| `Layouts.FieldLayout` | runtime/src/wire.js:17-24 | integers are written lowest byte first, negative ones in two's complement, and a run of bytes after its length as such an integer |
| `Wire.WireWriter.WriteBytes` | runtime/src/wire.js:24 | appends a byte run after its length |
| `Wire.WireWriter.Finish` | runtime/src/wire.js:26-31 | joins the parts in order |
| `Wire.WireReader.Take` | runtime/src/wire.js:40-45 | takes exactly what is there and never passes the end |
| `Wire.WireReader.BytesField` | runtime/src/wire.js:48 | reads a run, or rejects a length that is negative or too long |
| `Wire.WireReader.Finish` | runtime/src/wire.js:52 | accepts exactly if everything was read |
| `ProcessWire.SplitInvertsEncode` | runtime/dream.js:2466-2506 | every list of acceptable arguments is recovered |
| `ProcessWire.EncodeInvertsSplit` | runtime/dream.js:2482-2506 | every accepted byte string is the encoding of the acceptable arguments it yields |
| `ProcessWire.EncodeProcessArgs` | runtime/dream.js:2466-2480 | the loops write the encoding |
| `ProcessWire.SplitProcessArgs` | runtime/dream.js:2482-2506 | the loop accepts and returns what the model does |
| `InterfaceClosure.ClosureIsReachable` | src/driver/interface_defaults.rs:42-75 | the closure lists exactly the reachable interfaces, once each, the first first, on cyclic hierarchies too |
| `InterfaceDriver.CollectIfaceClosure` | src/driver/interface_defaults.rs:42-75 | the search with a list of visited names yields the first occurrences in the preorder of all acyclic paths |
| `InterfaceDefaults.PickMeans` | src/driver/interface_defaults.rs:77-133 | selection leaves under each name what was there, or else the first candidate if the name is free |
| `InterfaceDriver.CollectInheritedDefaults` | src/driver/interface_defaults.rs:77-133 | the loops compute that selection |
| `InterfaceDefaults.GenerateMeans` | src/driver/interface_defaults.rs:159-228 | for every target and name the blocks hold what they held, or else exactly the first default, in preorder, of the first implementer that wants it |
| `InterfaceSynthesis.ClassDefaultsAreDefined` | src/driver/interface_defaults.rs:159-190 | every reachable non-static default of a class is declared by it or in a block for it |
| `InterfaceSynthesis.BlockDefaultsAreDefined` | src/driver/interface_defaults.rs:192-228 | every reachable non-static default of a block without type parameters is in a block for its target |
| `InterfaceSynthesis.NoDuplicateAmongBlocks` | src/driver/interface_defaults.rs:159-228 | blocks never come to define a method twice |
| `InterfaceSynthesis.ClashIff` | src/driver/interface_defaults.rs:192-227 | a class and a synthesized block define the same method exactly under a condition on the declarations |
| `InterfaceSynthesis.ClashExample` | src/driver/interface_defaults.rs:192-227 | declarations for which they do |
| `InterfaceSynthesis.GenerateIsIdempotent` | src/driver/interface_defaults.rs:159-228 | a second run adds nothing |
| `InterfaceDriver.GenerateInterfaceDefaultImpls` | src/driver/interface_defaults.rs:159-228 | the two loops generate the blocks of the model |
| `CacheBudget.RemovesShortestPrefix` | src/driver/cache_budget.rs:53-92 | what is removed is the shortest prefix, in (modified, path) order, of the old and removable entries that brings the total within budget, or all of them |
| `CacheBudget.RemovedIff` | src/driver/cache_budget.rs:53-92 | an entry goes exactly if it is old and removable and those used before it do not suffice |
| `CacheBudget.OnlyOldEntriesGo` | src/driver/cache_budget.rs:53-80 | young and future-dated entries stay, and all do if the total fits |
| `CacheBudget.SortSorted` | src/driver/cache_budget.rs:65-69 | entries are taken in (modified, path) order |
| `CacheBudget.TotalIsSum` | src/driver/cache_budget.rs:58-60 | the saturating total is the sum as long as it does not overflow |
| `CacheBudget.Enforce` | src/driver/cache_budget.rs:53-92 | the loop removes what the model says |

## Left out

- Worker pool: the text of failures, the environment without a thread runtime, a `publish` that throws, a missing instance in `releaseStack`, `drain`, and the data of jobs and replies (a reply is identified with the job it was computed for).
- Audio: frames are single values, the channels of a frame always moving together; the resampling fraction is an exact real; closing a player and the media and buffer players are not modelled.
- AudioDevices.AudioWorklet.OnMessage: its precondition is the room that `AudioStreamProofs.RingIsSafe` proves for the next command of every safe run.
- Audio, decode, asynchronous imports and workers: calls into the platform are events, so real time and fairness are not modelled; what has to happen is stated of runs in which the platform takes the steps named.
- Asynchronous imports: conversion of arguments and results appears only as a conversion that may throw.
- Pump: drains started directly by `__awaitFuture` are not modelled.
- Decode: decoded samples, durations and byte-space accounting; one-shot decoding jobs.
- Operations: network and file contents, results and time-outs as values, files kept in memory; seeks, which are not tracked; waiting for a socket operation, which is waiting for `done`.
- Handle registry: ids are unbounded; the source counts in a double.
- Section scan: sizes are exact integers, which agree with the source's doubles up to 2^53; element and value types are one byte.
- WasmModules.CustomSectionIsInvisible: requires the section body to fit the 32-bit size it is written with.
- Guest memory: floating-point elements, nested arrays, lists and objects; a `memory.grow` by nothing; conversion of texts to numbers and back.
- GuestInstance.Instance.WriteElement: a write outside memory is ruled out by its precondition, since an array block is always inside.
- Wire: texts are byte runs; the operation header and failure records are sequences of fields like any other.
- Process arguments: UTF-8 is a parameter, with the assumption stated in the file.
- Interfaces: type substitution is a parameter; bodies are opaque.
- Cache: measuring the directory, the check marker and the removal of lock files; whether an entry can be removed is part of the input.
- Everything else in the repository: browser, drawing, window, media and network hosts, the compiler pipeline, the guest runtime in C and the command line.
