/** What the guest can rely on: what it asks of a stream reaches the worklet, and a stream that is ended and
left to play is heard to its end. */
module AudioService {
  import opened Containers
  import opened AudioStream
  import opened AudioStreamProofs
  import opened AudioPlayback

  // ----- Commands -----

  lemma {:induction false} ObeyAppend<F>(w: Worklet<F>, a: seq<Command<F>>, b: seq<Command<F>>)
    ensures ObeyAll(w, a + b) == ObeyAll(ObeyAll(w, a), b)
    decreases |a|
  {
    if a == [] {
      assert a + b == b;
    } else {
      assert (a + b)[1..] == a[1..] + b;
      ObeyAppend(Obey(w, a[0]), a[1..], b);
    }
  }

  lemma {:induction false} ObeyOne<F>(w: Worklet<F>, m: Command<F>)
    ensures ObeyAll(w, [m]) == Obey(w, m)
  {
    assert [m][1..] == [];
  }

  /** The two worklets are told apart by their frames only. */
  predicate Alike<F>(w: Worklet<F>, v: Worklet<F>) {
    w.running == v.running && w.eos == v.eos && w.epoch == v.epoch
  }

  lemma {:induction false} ObeyAlike<F>(w: Worklet<F>, v: Worklet<F>, ms: seq<Command<F>>)
    requires Alike(w, v)
    ensures Alike(ObeyAll(w, ms), ObeyAll(v, ms))
    decreases |ms|
  {
    if ms != [] {
      ObeyAlike(Obey(w, ms[0]), Obey(v, ms[0]), ms[1..]);
    }
  }

  lemma {:induction false} TicksAlike<F>(w: Worklet<F>, step: real, frames: nat)
    requires w.fraction >= 0.0 && step >= 0.0
    ensures Alike(w, Ticks(w, step, frames).0)
  {
    if frames > 0 {
      TicksAlike(w, step, frames - 1);
    }
  }

  lemma {:induction false} ObeyData<F>(w: Worklet<F>, ms: seq<Command<F>>)
    requires forall i :: 0 <= i < |ms| ==> ms[i].Data?
    ensures ObeyAll(w, ms) == w.(unread := ObeyAll(w, ms).unread)
    decreases |ms|
  {
    if ms != [] {
      ObeyData(Obey(w, ms[0]), ms[1..]);
    }
  }

  /** A new node that has obeyed what it is sent plays the host's epoch from where it was, on a whole frame. */
  lemma {:induction false} ResumeFlags<F>(h: Host<F>)
    ensures var w := ObeyAll(NewWorklet(), Resume(h));
            && w.running && w.eos == h.eos && w.epoch == h.epoch
            && w.consumed == h.consumed && w.fraction == 0.0 && !w.ended && !w.starved
  {
    var w, data, tail := Obey(NewWorklet<F>(), Flush(h.epoch, h.consumed)), PostChunks(h, h.chunks), ResumeTail(h);
    assert Resume(h)[1..] == data + tail;
    PostChunksEpoch(h, h.chunks);
    ObeyAppend(w, data, tail);
    ObeyData(w, data);
    var run: seq<Command<F>> := [Run(true)];
    if h.eos {
      assert tail[1..] == run;
    }
    assert run[1..] == [];
  }

  /** What the guest has last asked for. */
  datatype Wish = Wish(playing: bool, eos: bool, epoch: nat)

  function AfterEvent<F>(a: Wish, e: Event<F>): Wish {
    match e
    case EvSeek => a.(eos := false, epoch := a.epoch + 1)
    case EvEos => a.(eos := true)
    case EvConnect => a.(playing := true)
    case EvPause => a.(playing := false)
    case _ => a
  }

  function AfterAll<F>(a: Wish, es: seq<Event<F>>): Wish
    decreases |es|
  {
    if es == [] then a else AfterAll(AfterEvent(a, es[0]), es[1..])
  }

  /** The host knows what was asked for, and so will the worklet when it has taken its commands. */
  ghost predicate Heeds<F>(s: System<F>, a: Wish) {
    && s.host.eos == a.eos && s.host.epoch == a.epoch
    && (s.node.Some? ==>
          var w := ObeyAll(s.node.value.worklet, s.node.value.toNode);
          w.running == a.playing && w.eos == a.eos && w.epoch == a.epoch)
  }

  lemma {:induction false} PostHeeds<F>(s: System<F>, q: System<F>, a: Wish, b: Wish, m: Command<F>)
    requires Heeds(s, a) && q.node == Post(s.node, [m]) && q.host.eos == b.eos && q.host.epoch == b.epoch
    requires match m
             case Run(on) => b == a.(playing := on)
             case Eos(e) => e == a.epoch && b == a.(eos := true)
             case Flush(e, _) => b == a.(eos := false, epoch := e)
             case Data(_, _) => b == a
    ensures Heeds(q, b)
  {
    if s.node.Some? {
      ObeyAppend(s.node.value.worklet, s.node.value.toNode, [m]);
      ObeyOne(ObeyAll(s.node.value.worklet, s.node.value.toNode), m);
    }
  }

  lemma {:induction false} QuantumHeeds<F>(s: System<F>, a: Wish, frames: nat)
    requires Inv(s) && Heeds(s, a)
    ensures Heeds(Step(s, EvQuantum(frames)), a)
  {
    if s.node.Some? {
      var n := s.node.value;
      TicksAlike(n.worklet, s.step, frames);
      ObeyAlike(n.worklet, Quantum(n.worklet, s.step, frames).0, n.toNode);
    }
  }

  lemma {:induction false} StepHeeds<F>(s: System<F>, a: Wish, e: Event<F>)
    requires Inv(s) && Heeds(s, a)
    ensures Heeds(Step(s, e), AfterEvent(a, e))
  {
    var q, b := Step(s, e), AfterEvent(a, e);
    match e
    case EvWrite(samples) =>
      var n := Accepts(s.host, s.capacity, samples);
      if n > 0 {
        PostHeeds(s, q, a, b, Data(s.host.epoch, samples[..n]));
      }
    case EvSeek => PostHeeds(s, q, a, b, Flush(s.host.epoch + 1, 0));
    case EvEos => PostHeeds(s, q, a, b, Eos(s.host.epoch));
    case EvConnect =>
      if s.node.Some? {
        PostHeeds(s, q, a, b, Run(true));
      } else {
        ResumeFlags(s.host);
      }
    case EvPause => PostHeeds(s, q, a, b, Run(false));
    case EvQuantum(frames) => QuantumHeeds(s, a, frames);
    case _ =>
  }

  lemma {:induction false} RunHeeds<F>(s: System<F>, a: Wish, es: seq<Event<F>>)
    requires Inv(s) && SafeRun(s, es) && Heeds(s, a)
    ensures Heeds(RunFrom(s, es), AfterAll(a, es))
    decreases |es|
  {
    if es != [] {
      StepHeeds(s, a, es[0]);
      StepOk(s, es[0]);
      RunHeeds(Step(s, es[0]), AfterEvent(a, es[0]), es[1..]);
    }
  }

  /** Obeying a channel leaves the worklet with every frame accepted in the host's epoch, from where it is. */
  lemma {:induction false} ChannelObeyed<F>(log: seq<seq<F>>, capacity: nat, h: Host<F>, w: Worklet<F>, ms: seq<Command<F>>)
    requires HostOk(log, h) && WorkletOk(log, capacity, h, w) && Channel(log, capacity, h, Held(w), ms)
    ensures var w' := ObeyAll(w, ms);
            && WorkletOk(log, capacity, h, w') && w'.epoch == h.epoch && h.consumed <= w'.consumed
            && w'.consumed + |w'.unread| == |log[h.epoch]|
    decreases |ms|
  {
    if ms != [] {
      ObeyWorklet(log, capacity, h, w, ms[0]);
      ChannelObeyed(log, capacity, h, Obey(w, ms[0]), ms[1..]);
    }
  }

  const NOTHING := Wish(false, false, 0)

  /** In every safe run, what the guest asked for last is what the worklet does once it has taken the commands
  on their way: it plays or not, in the epoch since the last seek, knows whether the stream has ended, and
  holds every frame accepted in that epoch that it has not consumed. */
  lemma {:induction false} CommandsTakeEffect<F>(capacity: nat, step: real, es: seq<Event<F>>)
    requires step >= 0.0 && SafeRun(Start<F>(capacity, step), es)
    ensures var s, a := RunFrom(Start<F>(capacity, step), es), AfterAll(NOTHING, es);
            && s.host.eos == a.eos && s.host.epoch == a.epoch < |s.log| && s.host.written == |s.log[a.epoch]|
            && (s.node.Some? ==>
                  var w := ObeyAll(s.node.value.worklet, s.node.value.toNode);
                  && w.running == a.playing && w.eos == a.eos && w.epoch == a.epoch
                  && s.host.consumed <= w.consumed <= s.host.written && w.unread == s.log[a.epoch][w.consumed..])
  {
    var s := RunFrom(Start<F>(capacity, step), es);
    RunHeeds(Start<F>(capacity, step), NOTHING, es);
    if s.node.Some? {
      ChannelObeyed(s.log, s.capacity, s.host, s.node.value.worklet, s.node.value.toNode);
    }
  }

  /** In every safe run a seek makes the worklet forget what it held once it has taken its commands, and start
  the new epoch on its first frame; a new node starts where the host knows the last one to have been. */
  lemma {:induction false} SeeksStartOver<F>(capacity: nat, step: real, es: seq<Event<F>>)
    requires step >= 0.0 && SafeRun(Start<F>(capacity, step), es)
    ensures var s := RunFrom(Start<F>(capacity, step), es);
            var q, r := Step(s, EvSeek), Step(s, EvConnect);
            && q.host.epoch == s.host.epoch + 1 && q.host.written == q.host.consumed == 0 && q.log == s.log + [[]]
            && (s.node.Some? ==>
                  && q.node.Some?
                  && var w := ObeyAll(q.node.value.worklet, q.node.value.toNode);
                     w.epoch == q.host.epoch && w.consumed == 0 && w.fraction == 0.0 && w.unread == [] && !w.ended && !w.starved)
            && (s.node.None? ==>
                  && r.node.Some?
                  && var w := ObeyAll(r.node.value.worklet, r.node.value.toNode);
                     w.epoch == s.host.epoch && w.consumed == s.host.consumed && w.fraction == 0.0 && !w.ended && !w.starved)
  {
    var s := RunFrom(Start<F>(capacity, step), es);
    if s.node.Some? {
      var n, m := s.node.value, Flush(s.host.epoch + 1, 0);
      ObeyAppend(n.worklet, n.toNode, [m]);
      ObeyOne(ObeyAll(n.worklet, n.toNode), m);
    } else {
      ResumeFlags(s.host);
    }
  }

  /** In every run a quantum for which there are enough frames is heard in full: its samples are taken one step
  apart, from where the worklet is. */
  lemma {:induction false} QuantaAreHeard<F(!new)>(s: System<F>, n: nat)
    requires Inv(s) && s.node.Some? && Playing(s.node.value.worklet)
    requires var w := s.node.value.worklet;
             && (n > 0 ==> Position(w, s.step, n - 1).Floor + (if w.eos then 1 else 2) <= |w.unread|)
             && Position(w, s.step, n).Floor <= |w.unread|
    ensures var q, w := Step(s, EvQuantum(n)), s.node.value.worklet;
            && |q.played| == |s.played| + n && q.played[..|s.played|] == s.played
            && forall k :: 0 <= k < n ==> SampledAt(w, Position(w, s.step, k), q.played[|s.played| + k])
  {
    PlaysEvenly(s.node.value.worklet, s.step, n);
  }

  /** In every safe run a write to a stream that was not ended accepts as many frames as there is room for, the
  first ones, and a write to an ended stream accepts none. */
  lemma {:induction false} WritesAreAccepted<F>(capacity: nat, step: real, es: seq<Event<F>>, samples: seq<F>)
    requires step >= 0.0 && SafeRun(Start<F>(capacity, step), es)
    ensures var s := RunFrom(Start<F>(capacity, step), es);
            var q, room := Step(s, EvWrite(samples)), s.capacity - (s.host.written - s.host.consumed);
            var n := if AfterAll(NOTHING, es).eos || room < 0 then 0 else if |samples| < room then |samples| else room;
            && |s.log| == |q.log| == s.host.epoch + 1 && q.log == s.log[s.host.epoch := s.log[s.host.epoch] + samples[..n]]
            && q.host.written == s.host.written + n
  {
    var s := RunFrom(Start<F>(capacity, step), es);
    RunHeeds(Start<F>(capacity, step), NOTHING, es);
    var none: seq<F> := samples[..0];
    assert s.log[s.host.epoch] + none == s.log[s.host.epoch] && s.log[s.host.epoch := s.log[s.host.epoch]] == s.log;
  }

  // ----- Reports -----

  /** In every safe run a report of the present epoch makes its position, and whether the worklet waits or has
  ended, known to the host, which keeps no chunk that has been consumed; any other report changes nothing. */
  lemma {:induction false} ReportsAreTaken<F>(capacity: nat, step: real, es: seq<Event<F>>)
    requires step >= 0.0 && SafeRun(Start<F>(capacity, step), es)
    requires var s := RunFrom(Start<F>(capacity, step), es); s.node.Some? && s.node.value.toHost != []
    ensures var s := RunFrom(Start<F>(capacity, step), es);
            var h, h', r := s.host, Step(s, EvReport).host, s.node.value.toHost[0];
            if r.epoch == h.epoch then
              && h'.consumed == r.consumed && h'.starved == r.starved && h'.ended == (h.ended || r.ended)
              && (h'.chunks != [] ==> h'.chunks[0].start + |h'.chunks[0].data| > r.consumed)
            else h' == h
  {
    var s := RunFrom(Start<F>(capacity, step), es);
    ShedPast(s.host.chunks, s.node.value.toHost[0].consumed);
  }

  lemma {:induction false} ShedPast<F>(chunks: seq<Chunk<F>>, consumed: nat)
    ensures var left := Shed(chunks, consumed); left != [] ==> left[0].start + |left[0].data| > consumed
    decreases |chunks|
  {
    if chunks != [] && chunks[0].start + |chunks[0].data| <= consumed {
      ShedPast(chunks[1..], consumed);
    }
  }

  /** Quanta of the given lengths, one after the other. */
  function Quanta<F>(w: Worklet<F>, step: real, lengths: seq<nat>): (r: (Worklet<F>, seq<Report>))
    requires w.fraction >= 0.0 && step >= 0.0
    ensures r.0.fraction >= 0.0
    decreases |lengths|
  {
    if lengths == [] then (w, [])
    else
      var (w1, _, report) := Quantum(w, step, lengths[0]);
      var (w2, more) := Quanta(w1, step, lengths[1..]);
      (w2, report + more)
  }

  /** A worklet reports at least once in every eight quanta. */
  lemma {:induction false} ReportsRegularly<F>(w: Worklet<F>, step: real, lengths: seq<nat>)
    requires w.fraction >= 0.0 && step >= 0.0 && |lengths| >= 8 - w.quanta % 8
    ensures Quanta(w, step, lengths).1 != []
    decreases |lengths|
  {
    var (w1, _, report) := Quantum(w, step, lengths[0]);
    TicksQuanta(w, step, lengths[0]);
    assert w1.quanta == w.quanta + 1;
    if report == [] {
      ReportsRegularly(w1, step, lengths[1..]);
    }
  }

  lemma {:induction false} TicksQuanta<F>(w: Worklet<F>, step: real, frames: nat)
    requires w.fraction >= 0.0 && step >= 0.0
    ensures Ticks(w, step, frames).0.quanta == w.quanta
  {
    if frames > 0 {
      TicksQuanta(w, step, frames - 1);
    }
  }

  // ----- A stream is heard to its end -----

  function Repeat<F>(e: Event<F>, n: nat): seq<Event<F>> { if n == 0 then [] else [e] + Repeat(e, n - 1) }

  predicate ConnectsNothing<F>(es: seq<Event<F>>) { forall i :: 0 <= i < |es| ==> !es[i].EvConnect? }

  lemma {:induction false} QuietIsSafe<F>(s: System<F>, es: seq<Event<F>>)
    requires Inv(s) && ConnectsNothing(es)
    ensures SafeRun(s, es)
    decreases |es|
  {
    if es != [] {
      StepOk(s, es[0]);
      QuietIsSafe(Step(s, es[0]), es[1..]);
    }
  }

  lemma {:induction false} RunAppend<F>(s: System<F>, a: seq<Event<F>>, b: seq<Event<F>>)
    requires Inv(s) && SafeRun(s, a) && SafeRun(RunFrom(s, a), b)
    ensures SafeRun(s, a + b) && RunFrom(s, a + b) == RunFrom(RunFrom(s, a), b)
    decreases |a|
  {
    if a == [] {
      assert a + b == b;
    } else {
      StepOk(s, a[0]);
      assert (a + b)[1..] == a[1..] + b;
      RunAppend(Step(s, a[0]), a[1..], b);
    }
  }

  lemma {:induction false} RepeatIs<F>(e: Event<F>, n: nat)
    ensures |Repeat(e, n)| == n && forall i :: 0 <= i < n ==> Repeat(e, n)[i] == e
  {
    if n > 0 {
      RepeatIs(e, n - 1);
    }
  }

  lemma {:induction false} RunRepeated<F>(s: System<F>, e: Event<F>, n: nat)
    requires Inv(s) && !e.EvConnect? && n > 0
    ensures SafeRun(s, Repeat(e, n)) && Inv(Step(s, e)) && SafeRun(Step(s, e), Repeat(e, n - 1))
    ensures RunFrom(s, Repeat(e, n)) == RunFrom(Step(s, e), Repeat(e, n - 1))
  {
    RepeatIs(e, n);
    RepeatIs(e, n - 1);
    StepOk(s, e);
    QuietIsSafe(s, Repeat(e, n));
    QuietIsSafe(Step(s, e), Repeat(e, n - 1));
    assert Repeat(e, n)[1..] == Repeat(e, n - 1);
  }

  /** The worklet takes every command. */
  lemma {:induction false} AllObeyed<F>(s: System<F>, n: Node<F>)
    requires Inv(s) && s.node == Some(n)
    ensures SafeRun(s, Repeat(EvObey, |n.toNode|))
    ensures RunFrom(s, Repeat(EvObey, |n.toNode|)) == s.(node := Some(n.(worklet := ObeyAll(n.worklet, n.toNode), toNode := [])))
    decreases |n.toNode|
  {
    if n.toNode == [] {
      assert s.(node := Some(n.(toNode := []))) == s;
    } else {
      var n' := n.(worklet := Obey(n.worklet, n.toNode[0]), toNode := n.toNode[1..]);
      RunRepeated(s, EvObey, |n.toNode|);
      AllObeyed(s.(node := Some(n')), n');
    }
  }

  /** The worklet has played everything out. */
  ghost predicate Done<F>(s: System<F>) {
    && Inv(s) && s.node.Some? && s.node.value.toNode == []
    && s.node.value.worklet.ended && s.node.value.worklet.epoch == s.host.epoch
  }

  /** The last report on its way says so. */
  ghost predicate Told<F>(s: System<F>) {
    && Done(s) && s.node.value.toHost != []
    && var r := s.node.value.toHost[|s.node.value.toHost| - 1];
       r.ended && r.epoch == s.host.epoch
  }

  lemma {:induction false} DoneQuantum<F>(s: System<F>, frames: nat)
    requires Done(s)
    ensures var q := Step(s, EvQuantum(frames));
            && Done(q) && q.host == s.host && q.log == s.log
            && q.node.value.worklet.quanta == s.node.value.worklet.quanta + 1
            && (q.node.value.worklet.quanta % 8 == 0 || Told(s) ==> Told(q))
  {
    StepOk(s, EvQuantum(frames));
    RestTicks(s.node.value.worklet, s.step, frames);
  }

  lemma {:induction false} DoneQuanta<F>(s: System<F>, frames: nat, n: nat)
    requires Done(s) && (Told(s) || n >= 8 - s.node.value.worklet.quanta % 8)
    ensures SafeRun(s, Repeat(EvQuantum(frames), n))
    ensures var q := RunFrom(s, Repeat(EvQuantum(frames), n)); Told(q) && q.host == s.host && q.log == s.log
    decreases n
  {
    if n > 0 {
      DoneQuantum(s, frames);
      RunRepeated(s, EvQuantum(frames), n);
      DoneQuanta(Step(s, EvQuantum(frames)), frames, n - 1);
    }
  }

  lemma {:induction false} AllReported<F>(s: System<F>, n: nat)
    requires Told(s) && n == |s.node.value.toHost|
    ensures SafeRun(s, Repeat(EvReport, n))
    ensures var q := RunFrom(s, Repeat(EvReport, n));
            && q.host.ended && q.log == s.log && q.host.written == s.host.written
            && q.host.consumed == |s.log[s.host.epoch]|
    decreases n
  {
    RunRepeated(s, EvReport, n);
    var q, r := Step(s, EvReport), s.node.value.toHost[0];
    if n == 1 {
      assert ReportOk(s.log, s.host, s.node.value.worklet, r);
    } else {
      assert q.node.value.toHost[n - 2] == s.node.value.toHost[n - 1];
      AllReported(q, n - 1);
    }
  }

  /** The worklet plays what is left of an ended stream. */
  lemma {:induction false} LastQuantum<F(!new)>(s: System<F>, n: nat)
    requires Inv(s) && s.node.Some? && s.node.value.toNode == [] && n > 0
    requires var w := s.node.value.worklet;
             w.running && w.eos && w.epoch == s.host.epoch && (n - 1) as real * s.step >= |w.unread| as real
    ensures var q := Step(s, EvQuantum(n)); Done(q) && q.host == s.host && q.log == s.log
  {
    StepOk(s, EvQuantum(n));
    StreamEnds(s.node.value.worklet, s.step, n);
  }

  /** What has to happen for a stream to be heard out: the worklet takes its commands, plays, and reports. */
  function Hearing<F>(commands: nat, n: nat, frames: nat, reports: nat): seq<Event<F>> {
    Repeat(EvObey, commands) + ([EvQuantum(n)] + (Repeat(EvQuantum(frames), 8) + Repeat(EvReport, reports)))
  }

  lemma {:induction false} DoneIsHeard<F>(s: System<F>, frames: nat) returns (reports: nat)
    requires Done(s)
    ensures var es := Repeat(EvQuantum(frames), 8) + Repeat(EvReport, reports);
            && SafeRun(s, es)
            && RunFrom(s, es).host.ended && RunFrom(s, es).log == s.log
            && RunFrom(s, es).host.consumed == RunFrom(s, es).host.written == |s.log[s.host.epoch]|
  {
    DoneQuanta(s, frames, 8);
    var q := RunFrom(s, Repeat(EvQuantum(frames), 8));
    reports := |q.node.value.toHost|;
    AllReported(q, reports);
    RunAppend(s, Repeat(EvQuantum(frames), 8), Repeat(EvReport, reports));
  }

  /** A stream is heard to its end: in every safe run that leaves a node with a stream that has been ended and
  is to play, once the worklet has taken its commands, rendered enough samples, and had eight more quanta to
  report, and the host its reports, the host knows that the stream has ended, and every frame accepted in
  its epoch has been consumed. */
  lemma {:induction false} StreamIsHeardOut<F(!new)>(capacity: nat, step: real, es: seq<Event<F>>, n: nat, frames: nat)
    returns (commands: nat, reports: nat)
    requires step >= 0.0 && SafeRun(Start<F>(capacity, step), es)
    requires var s := RunFrom(Start<F>(capacity, step), es); s.node.Some? && n > 0 && (n - 1) as real * s.step >= s.host.written as real
    requires AfterAll(NOTHING, es).playing && AfterAll(NOTHING, es).eos
    ensures var s, more := RunFrom(Start<F>(capacity, step), es), Hearing<F>(commands, n, frames, reports);
            && SafeRun(s, more)
            && var q := RunFrom(s, more);
               && q.host.ended && q.log == s.log && q.host.epoch == s.host.epoch
               && q.host.consumed == q.host.written == |s.log[s.host.epoch]|
  {
    var s := RunFrom(Start<F>(capacity, step), es);
    CommandsTakeEffect(capacity, step, es);
    commands, reports := HeardFrom(s, n, frames);
  }

  lemma {:induction false} HeardFrom<F(!new)>(s: System<F>, n: nat, frames: nat) returns (commands: nat, reports: nat)
    requires Inv(s) && s.node.Some? && n > 0
    requires var w := ObeyAll(s.node.value.worklet, s.node.value.toNode);
             && w.running && w.eos && w.epoch == s.host.epoch && |w.unread| <= s.host.written
             && (n - 1) as real * s.step >= s.host.written as real
    ensures var more := Hearing<F>(commands, n, frames, reports);
            && SafeRun(s, more)
            && var q := RunFrom(s, more);
               && q.host.ended && q.log == s.log && q.host.epoch == s.host.epoch
               && q.host.consumed == q.host.written == |s.log[s.host.epoch]|
  {
    commands := |s.node.value.toNode|;
    AllObeyed(s, s.node.value);
    var s1 := RunFrom(s, Repeat(EvObey, commands));
    reports := HeardWithout(s1, n, frames);
    RunAppend(s, Repeat(EvObey, commands), [EvQuantum(n)] + (Repeat(EvQuantum(frames), 8) + Repeat(EvReport, reports)));
  }

  /** The same, when no commands are on their way. */
  lemma {:induction false} HeardWithout<F(!new)>(s: System<F>, n: nat, frames: nat) returns (reports: nat)
    requires Inv(s) && s.node.Some? && s.node.value.toNode == [] && n > 0
    requires var w := s.node.value.worklet;
             w.running && w.eos && w.epoch == s.host.epoch && (n - 1) as real * s.step >= |w.unread| as real
    ensures var more := [EvQuantum(n)] + (Repeat(EvQuantum(frames), 8) + Repeat(EvReport, reports));
            && SafeRun(s, more)
            && var q := RunFrom(s, more);
               && q.host.ended && q.log == s.log && q.host.epoch == s.host.epoch
               && q.host.consumed == q.host.written == |s.log[s.host.epoch]|
  {
    LastQuantum(s, n);
    reports := DoneIsHeard(Step(s, EvQuantum(n)), frames);
    var last := Repeat<F>(EvQuantum(frames), 8) + Repeat<F>(EvReport, reports);
    assert ([EvQuantum(n)] + last)[1..] == last;
  }
}
