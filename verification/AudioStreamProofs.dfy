/** What every interleaving of host, worklet and ports keeps. */
module AudioStreamProofs {
  import opened Containers
  import opened AudioStream

  // ----- The invariant -----

  /** `chunks` hold the accepted frames from number `from` to the end, without a gap. */
  ghost predicate Covers<F>(chunks: seq<Chunk<F>>, from: nat, accepted: seq<F>) {
    if chunks == [] then from == |accepted|
    else
      var c := chunks[0];
      && c.start == from && |c.data| > 0 && from + |c.data| <= |accepted|
      && c.data == accepted[from..from + |c.data|]
      && Covers(chunks[1..], from + |c.data|, accepted)
  }

  /** The oldest frame the host still holds. */
  function FirstRetained<F>(h: Host<F>): nat {
    if h.chunks == [] then h.written else h.chunks[0].start
  }

  ghost predicate HostOk<F>(log: seq<seq<F>>, h: Host<F>) {
    && |log| == h.epoch + 1 && h.written == |log[h.epoch]|
    && FirstRetained(h) <= h.consumed <= h.written
    && Covers(h.chunks, FirstRetained(h), log[h.epoch])
    && (h.ended ==> h.eos)
  }

  /** No more frames will be accepted in epoch `e`. */
  predicate Frozen<F>(h: Host<F>, e: nat) { e < h.epoch || (e == h.epoch && h.eos) }

  /** Frames `start..end` of epoch `epoch`. */
  datatype Span = Span(epoch: nat, start: nat, end: nat)

  /** What a worklet that holds `span` holds after obeying `m`. */
  function NextSpan<F>(span: Span, m: Command<F>): Span {
    match m
    case Flush(epoch, consumed) => Span(epoch, consumed, consumed)
    case Data(_, samples) => span.(end := span.end + |samples|)
    case _ => span
  }

  predicate SpanOk<F>(log: seq<seq<F>>, capacity: nat, span: Span) {
    span.epoch < |log| && span.start <= span.end <= |log[span.epoch]| && span.end - span.start <= capacity
  }

  /** `m` continues the frames of `span`, or starts a span that follows it. */
  predicate CommandOk<F(==)>(log: seq<seq<F>>, h: Host<F>, span: Span, m: Command<F>) {
    && span.epoch < |log| && span.end <= |log[span.epoch]|
    && match m
       case Flush(e, c) =>
         && (span.epoch < e || (span.epoch == e && span.end <= c))
         && e <= h.epoch && (e == h.epoch ==> FirstRetained(h) <= c)
       case Run(_) => true
       case Eos(e) => e == span.epoch && span.end == |log[e]| && Frozen(h, e)
       case Data(e, d) => e == span.epoch && d <= log[e][span.end..]
  }

  /** The commands still to be obeyed by a worklet that holds `span`: each continues the frames of its
  epoch, nothing exceeds the ring, and in the end the worklet is in the host's epoch with every
  accepted frame. */
  ghost predicate Channel<F>(log: seq<seq<F>>, capacity: nat, h: Host<F>, span: Span, ms: seq<Command<F>>)
    decreases |ms|
  {
    && SpanOk(log, capacity, span)
    && if ms == [] then span.epoch == h.epoch && span.end == |log[span.epoch]| && h.consumed <= span.start
       else CommandOk(log, h, span, ms[0]) && Channel(log, capacity, h, NextSpan(span, ms[0]), ms[1..])
  }

  function Held<F>(w: Worklet<F>): Span { Span(w.epoch, w.consumed, w.consumed + |w.unread|) }

  ghost predicate WorkletOk<F>(log: seq<seq<F>>, capacity: nat, h: Host<F>, w: Worklet<F>) {
    && 0.0 <= w.fraction < 1.0
    && w.epoch < |log| && w.consumed + |w.unread| <= |log[w.epoch]| && |w.unread| <= capacity
    && w.unread == log[w.epoch][w.consumed..w.consumed + |w.unread|]
    && (w.eos ==> w.consumed + |w.unread| == |log[w.epoch]| && Frozen(h, w.epoch))
    && (w.ended ==> w.eos && w.unread == [])
    && (w.epoch == h.epoch ==> FirstRetained(h) <= w.consumed)
  }

  ghost predicate ReportOk<F>(log: seq<seq<F>>, h: Host<F>, w: Worklet<F>, r: Report) {
    && r.epoch < |log|
    && (r.ended ==> r.consumed == |log[r.epoch]| && Frozen(h, r.epoch))
    && (r.epoch == h.epoch ==> w.epoch == h.epoch && FirstRetained(h) <= r.consumed <= w.consumed)
  }

  ghost predicate NodeOk<F>(log: seq<seq<F>>, capacity: nat, h: Host<F>, n: Node<F>) {
    var w := n.worklet;
    && WorkletOk(log, capacity, h, w)
    && Channel(log, capacity, h, Held(w), n.toNode)
    && (forall i :: 0 <= i < |n.toHost| ==> ReportOk(log, h, w, n.toHost[i]))
    && (forall i, j :: 0 <= i < j < |n.toHost| && n.toHost[i].epoch == h.epoch && n.toHost[j].epoch == h.epoch ==>
          n.toHost[i].consumed <= n.toHost[j].consumed)
  }

  /** The sample was made from the frame accepted under its number and from the one after it. */
  ghost predicate RenderedOk<F>(log: seq<seq<F>>, h: Host<F>, x: Rendered<F>) {
    x.Played? ==>
      && x.epoch < |log| && x.n < |log[x.epoch]| && x.frame == log[x.epoch][x.n]
      && (if x.n + 1 < |log[x.epoch]| then x.next == log[x.epoch][x.n + 1]
          else x.next == x.frame && Frozen(h, x.epoch))
  }

  ghost predicate Inv<F>(s: System<F>) {
    && s.step >= 0.0
    && HostOk(s.log, s.host)
    && (s.node.Some? ==> NodeOk(s.log, s.capacity, s.host, s.node.value))
    && (forall i :: 0 <= i < |s.played| ==> RenderedOk(s.log, s.host, s.played[i]))
  }

  // ----- Facts about the channel -----

  /** The worklet reads on. */
  lemma {:induction false} ChannelReads<F>(log: seq<seq<F>>, capacity: nat, h: Host<F>, span: Span, start: nat,
                                           ms: seq<Command<F>>)
    requires Channel(log, capacity, h, span, ms) && span.start <= start <= span.end
    ensures Channel(log, capacity, h, span.(start := start), ms)
    decreases |ms|
  {
    if ms != [] && !ms[0].Flush? {
      ChannelReads(log, capacity, h, NextSpan(span, ms[0]), start, ms[1..]);
    }
  }

  /** The host posts one more command `m`, which may come with a change of host and log. */
  lemma {:induction false} ChannelPosts<F>(log: seq<seq<F>>, log': seq<seq<F>>, capacity: nat, h: Host<F>, h': Host<F>,
                                           m: Command<F>, span: Span, ms: seq<Command<F>>)
    requires Channel(log, capacity, h, span, ms) && Posts(log, log', capacity, h, h', m)
    ensures Channel(log', capacity, h', span, ms + [m])
    decreases |ms|
  {
    if ms == [] {
      assert (ms + [m])[1..] == [];
    } else {
      assert (ms + [m])[1..] == ms[1..] + [m];
      ChannelPosts(log, log', capacity, h, h', m, NextSpan(span, ms[0]), ms[1..]);
    }
  }

  /** How the host and the log may change when `m` is posted. */
  ghost predicate Posts<F>(log: seq<seq<F>>, log': seq<seq<F>>, capacity: nat, h: Host<F>, h': Host<F>, m: Command<F>) {
    && |log| == h.epoch + 1
    && match m
       case Run(_) => log' == log && h' == h
       case Eos(e) => log' == log && h' == h.(eos := true) && e == h.epoch
       case Flush(e, c) => log' == log + [[]] && h' == Seek(h) && e == h.epoch + 1 && c == 0
       case Data(e, d) =>
         && e == h.epoch && !h.eos && log' == log[e := log[e] + d] && |log'[e]| <= h.consumed + capacity
         && h'.epoch == e && h'.consumed == h.consumed && !h'.eos && FirstRetained(h') <= FirstRetained(h)
  }

  /** The host learns of progress made by a worklet that is in its epoch. */
  lemma {:induction false} ChannelProgress<F>(log: seq<seq<F>>, capacity: nat, h: Host<F>, h': Host<F>,
                                              span: Span, ms: seq<Command<F>>)
    requires Channel(log, capacity, h, span, ms) && |log| == h.epoch + 1 && span.epoch == h.epoch
    requires h'.epoch == h.epoch && h'.eos == h.eos && FirstRetained(h') <= h'.consumed <= span.start
    ensures Channel(log, capacity, h', span, ms)
    decreases |ms|
  {
    if ms != [] {
      ChannelProgress(log, capacity, h, h', NextSpan(span, ms[0]), ms[1..]);
    }
  }

  // ----- Chunks -----

  lemma {:induction false} CoversWrite<F>(chunks: seq<Chunk<F>>, from: nat, a: seq<F>, d: seq<F>)
    requires Covers(chunks, from, a) && |d| > 0
    ensures Covers(chunks + [Chunk(|a|, d)], from, a + d)
    decreases |chunks|
  {
    var added := chunks + [Chunk(|a|, d)];
    if chunks == [] {
      assert added[1..] == [];
    } else {
      assert added[1..] == chunks[1..] + [Chunk(|a|, d)];
      CoversWrite(chunks[1..], from + |chunks[0].data|, a, d);
    }
  }

  /** Shedding keeps the chunks contiguous and never drops a frame past `consumed`. */
  lemma {:induction false} ShedCovers<F>(h: Host<F>, a: seq<F>, consumed: nat)
    requires Covers(h.chunks, FirstRetained(h), a) && h.written == |a| && FirstRetained(h) <= consumed <= |a|
    ensures var h' := h.(chunks := Shed(h.chunks, consumed));
            FirstRetained(h') <= consumed && Covers(h'.chunks, FirstRetained(h'), a)
    decreases |h.chunks|
  {
    if h.chunks != [] && h.chunks[0].start + |h.chunks[0].data| <= consumed {
      ShedCovers(h.(chunks := h.chunks[1..]), a, consumed);
    }
  }

  lemma {:induction false} SliceJoin<F>(a: seq<F>, i: nat, j: nat, k: nat)
    requires i <= j <= k <= |a|
    ensures a[i..j] + a[j..k] == a[i..k]
  {
  }

  /** The frames in a list of commands. */
  function Frames<F>(ms: seq<Command<F>>): seq<F> {
    if ms == [] then [] else (if ms[0].Data? then ms[0].samples else []) + Frames(ms[1..])
  }

  lemma {:induction false} FramesAppend<F>(a: seq<Command<F>>, b: seq<Command<F>>)
    ensures Frames(a + b) == Frames(a) + Frames(b)
  {
    if a == [] {
      assert a + b == b;
    } else {
      assert (a + b)[1..] == a[1..] + b;
      FramesAppend(a[1..], b);
    }
  }

  lemma {:induction false} PostedChunk<F>(h: Host<F>, c: Chunk<F>, a: seq<F>)
    requires c.start + |c.data| <= |a| && c.data == a[c.start..c.start + |c.data|]
    ensures Frames(PostChunk(h, c)) ==
            var skip := Max(0, h.consumed - c.start); if skip < |c.data| then a[c.start + skip..c.start + |c.data|] else []
  {
    var skip := Max(0, h.consumed - c.start);
    if skip < |c.data| {
      assert PostChunk(h, c)[1..] == [];
      assert c.data[skip..] == a[c.start + skip..c.start + |c.data|];
    }
  }

  /** The retained chunks, posted to a new node, are exactly the frames not yet consumed. */
  lemma {:induction false} PostedFrames<F>(h: Host<F>, chunks: seq<Chunk<F>>, from: nat, a: seq<F>)
    requires Covers(chunks, from, a) && h.consumed <= |a|
    ensures from <= |a| && Frames(PostChunks(h, chunks)) == a[Max(from, h.consumed)..|a|]
    decreases |chunks|
  {
    if chunks != [] {
      var c := chunks[0];
      var next := from + |c.data|;
      PostedFrames(h, chunks[1..], next, a);
      FramesAppend(PostChunk(h, c), PostChunks(h, chunks[1..]));
      PostedChunk(h, c, a);
      if h.consumed < next {
        var first := Max(from, h.consumed);
        SliceJoin(a, first, next, |a|);
        assert Frames(PostChunk(h, c)) == a[first..next] && Max(next, h.consumed) == next;
      } else {
        assert Frames(PostChunk(h, c)) == [] && Max(next, h.consumed) == Max(from, h.consumed);
      }
    }
  }

  // ----- Steps -----

  /** A pool of facts about the log survives when the current epoch grows before its end. */
  lemma {:induction false} RenderedGrows<F>(log: seq<seq<F>>, log': seq<seq<F>>, h: Host<F>, h': Host<F>, d: seq<F>, x: Rendered<F>)
    requires RenderedOk(log, h, x) && |log| == h.epoch + 1 && !h.eos && h'.epoch == h.epoch
    requires log' == log[h.epoch := log[h.epoch] + d]
    ensures RenderedOk(log', h', x)
  {
  }

  lemma {:induction false} WriteOk<F>(s: System<F>, samples: seq<F>)
    requires Inv(s)
    ensures Inv(Step(s, EvWrite(samples)))
  {
    var h := s.host;
    var frames := Accepts(h, s.capacity, samples);
    if frames > 0 {
      var d := samples[..frames];
      var q := Step(s, EvWrite(samples));
      var h', a := q.host, s.log[h.epoch];
      CoversWrite(h.chunks, FirstRetained(h), a, d);
      assert FirstRetained(h') == FirstRetained(h);
      if s.node.Some? {
        var n := s.node.value;
        ChannelPosts(s.log, q.log, s.capacity, h, h', Data(h.epoch, d), Held(n.worklet), n.toNode);
      }
      forall i | 0 <= i < |s.played|
        ensures RenderedOk(q.log, h', q.played[i])
      {
        RenderedGrows(s.log, q.log, h, h', d, s.played[i]);
      }
    }
  }

  lemma {:induction false} SeekOk<F>(s: System<F>)
    requires Inv(s)
    ensures Inv(Step(s, EvSeek))
  {
    if s.node.Some? {
      var n := s.node.value;
      ChannelPosts(s.log, s.log + [[]], s.capacity, s.host, Seek(s.host), Flush(s.host.epoch + 1, 0), Held(n.worklet), n.toNode);
    }
  }

  /** Posting a command without frames, as marking the end of the stream, pausing and resuming do. */
  lemma {:induction false} PostOk<F>(s: System<F>, q: System<F>, m: Command<F>)
    requires Inv(s) && q == s.(host := q.host, node := Post(s.node, [m]))
    requires (m.Run? && q.host == s.host) || (m == Eos(s.host.epoch) && q.host == s.host.(eos := true))
    ensures Inv(q)
  {
    if s.node.Some? {
      var n := s.node.value;
      ChannelPosts(s.log, s.log, s.capacity, s.host, q.host, m, Held(n.worklet), n.toNode);
    }
    assert FirstRetained(q.host) == FirstRetained(s.host);
  }

  lemma {:induction false} ChannelData<F>(log: seq<seq<F>>, capacity: nat, h: Host<F>, e: nat, start: nat, end: nat, d: seq<F>,
                       rest: seq<Command<F>>)
    requires start <= end && Channel(log, capacity, h, Span(e, start, end + |d|), rest)
    requires d == log[e][end..end + |d|]
    ensures Channel(log, capacity, h, Span(e, start, end), [Data(e, d)] + rest)
  {
    assert ([Data(e, d)] + rest)[1..] == rest;
  }

  lemma {:induction false} SuffixOfSlice<F>(s: seq<F>, from: nat, to: nat, skip: nat)
    requires from + skip <= to <= |s|
    ensures s[from..to][skip..] == s[from + skip..to]
  {
  }

  lemma {:induction false} ResumeChunk<F>(log: seq<seq<F>>, capacity: nat, h: Host<F>, c: Chunk<F>, rest: seq<Command<F>>)
    requires h.epoch < |log| && c.start + |c.data| <= |log[h.epoch]|
    requires c.data == log[h.epoch][c.start..c.start + |c.data|]
    requires Channel(log, capacity, h, Span(h.epoch, h.consumed, Max(c.start + |c.data|, h.consumed)), rest)
    ensures Channel(log, capacity, h, Span(h.epoch, h.consumed, Max(c.start, h.consumed)), PostChunk(h, c) + rest)
  {
    var skip := Max(0, h.consumed - c.start);
    if skip < |c.data| {
      var d := c.data[skip..];
      SuffixOfSlice(log[h.epoch], c.start, c.start + |c.data|, skip);
      ChannelData(log, capacity, h, h.epoch, h.consumed, c.start + skip, d, rest);
    } else {
      assert PostChunk(h, c) + rest == rest;
    }
  }

  lemma {:induction false} ResumeChunks<F>(log: seq<seq<F>>, capacity: nat, h: Host<F>,
                                           chunks: seq<Chunk<F>>, from: nat, tail: seq<Command<F>>)
    requires h.epoch < |log| && h.consumed <= |log[h.epoch]| && Covers(chunks, from, log[h.epoch])
    requires Channel(log, capacity, h, Span(h.epoch, h.consumed, |log[h.epoch]|), tail)
    ensures Channel(log, capacity, h, Span(h.epoch, h.consumed, Max(from, h.consumed)), PostChunks(h, chunks) + tail)
    decreases |chunks|
  {
    if chunks == [] {
      assert PostChunks(h, chunks) + tail == tail;
    } else {
      var c := chunks[0];
      var rest := PostChunks(h, chunks[1..]) + tail;
      ResumeChunks(log, capacity, h, chunks[1..], from + |c.data|, tail);
      ResumeChunk(log, capacity, h, c, rest);
      Regroup(PostChunk(h, c), PostChunks(h, chunks[1..]), tail);
    }
  }

  /** Everything a replacement node is sent fits a fresh worklet. */
  lemma {:induction false} ResumeOk<F>(log: seq<seq<F>>, capacity: nat, h: Host<F>)
    requires HostOk(log, h) && h.written <= h.consumed + capacity
    ensures Channel(log, capacity, h, Span(0, 0, 0), Resume(h))
  {
    var tail := ResumeTail(h);
    assert tail[|tail| - 1..][1..] == [] && (h.eos ==> tail[1..] == [Run(true)] && tail[1..][1..] == []);
    assert Channel(log, capacity, h, Span(h.epoch, h.consumed, h.written), tail);
    ResumeChunks(log, capacity, h, h.chunks, FirstRetained(h), tail);
    assert Resume(h)[1..] == PostChunks(h, h.chunks) + tail;
  }

  /** When a stream may be given a new node.  A new node can report position 0 of epoch 0 before it
  has been told where to resume: in epoch 0 the stream must still hold its first frame.  After such a
  report the unplayed frames may be more than a ring holds, which the second condition excludes. */
  predicate SafeConnect<F>(h: Host<F>, capacity: nat) {
    (h.epoch != 0 || FirstRetained(h) == 0) && h.written <= h.consumed + capacity
  }

  lemma {:induction false} ConnectOk<F>(s: System<F>)
    requires Inv(s) && (s.node.None? ==> SafeConnect(s.host, s.capacity))
    ensures Inv(Step(s, EvConnect))
  {
    if s.node.Some? {
      PostOk(s, Step(s, EvConnect), Run(true));
    } else {
      ResumeOk(s.log, s.capacity, s.host);
    }
  }

  /** Obeying a command that fits leaves the worklet holding the span it should. */
  lemma {:induction false} ObeyWorklet<F>(log: seq<seq<F>>, capacity: nat, h: Host<F>, w: Worklet<F>, m: Command<F>)
    requires |log| == h.epoch + 1 && WorkletOk(log, capacity, h, w)
    requires CommandOk(log, h, Held(w), m) && SpanOk(log, capacity, NextSpan(Held(w), m))
    ensures WorkletOk(log, capacity, h, Obey(w, m)) && Held(Obey(w, m)) == NextSpan(Held(w), m)
    ensures w.epoch == h.epoch ==> Obey(w, m).epoch == h.epoch && w.consumed <= Obey(w, m).consumed
  {
    if m.Data? {
      var end := w.consumed + |w.unread|;
      assert m.samples == log[w.epoch][end..end + |m.samples|];
      SliceJoin(log[w.epoch], w.consumed, end, end + |m.samples|);
    }
  }

  lemma {:induction false} ObeyOk<F>(log: seq<seq<F>>, capacity: nat, h: Host<F>, n: Node<F>)
    requires HostOk(log, h) && NodeOk(log, capacity, h, n) && n.toNode != []
    ensures NodeOk(log, capacity, h, n.(worklet := Obey(n.worklet, n.toNode[0]), toNode := n.toNode[1..]))
  {
    assert Channel(log, capacity, h, NextSpan(Held(n.worklet), n.toNode[0]), n.toNode[1..]);
    ObeyWorklet(log, capacity, h, n.worklet, n.toNode[0]);
    var w' := Obey(n.worklet, n.toNode[0]);
    assert forall i :: 0 <= i < |n.toHost| ==> ReportOk(log, h, w', n.toHost[i]);
  }

  lemma {:induction false} TickOk<F>(log: seq<seq<F>>, capacity: nat, h: Host<F>, w: Worklet<F>, step: real)
    requires HostOk(log, h) && WorkletOk(log, capacity, h, w) && step >= 0.0
    ensures var (w', x) := Tick(w, step);
            && WorkletOk(log, capacity, h, w') && RenderedOk(log, h, x) && w'.epoch == w.epoch
            && w.consumed <= w'.consumed && w'.consumed + |w'.unread| == w.consumed + |w.unread|
  {
    if !Stalled(w) {
      var whole := Advance(w, step);
      assert w.unread[whole..] == log[w.epoch][w.consumed + whole..w.consumed + |w.unread|];
      assert w.unread[0] == log[w.epoch][w.consumed];
      if |w.unread| > 1 {
        assert w.unread[1] == log[w.epoch][w.consumed + 1];
      }
    }
  }

  lemma {:induction false} TicksOk<F>(log: seq<seq<F>>, capacity: nat, h: Host<F>, w: Worklet<F>, step: real, frames: nat)
    requires HostOk(log, h) && WorkletOk(log, capacity, h, w) && step >= 0.0
    ensures var (w', out) := Ticks(w, step, frames);
            && WorkletOk(log, capacity, h, w') && w'.epoch == w.epoch && w.consumed <= w'.consumed
            && w'.consumed + |w'.unread| == w.consumed + |w.unread|
            && (forall i :: 0 <= i < |out| ==> RenderedOk(log, h, out[i]))
  {
    if frames > 0 {
      TicksOk(log, capacity, h, w, step, frames - 1);
      TickOk(log, capacity, h, Ticks(w, step, frames - 1).0, step);
    }
  }

  /** The worklet has moved on to `w'` and posted `report`. */
  lemma {:induction false} QuantumNode<F>(log: seq<seq<F>>, capacity: nat, h: Host<F>, n: Node<F>, w': Worklet<F>, report: seq<Report>)
    requires NodeOk(log, capacity, h, n) && WorkletOk(log, capacity, h, w')
    requires w'.epoch == n.worklet.epoch && n.worklet.consumed <= w'.consumed
    requires Channel(log, capacity, h, Held(w'), n.toNode)
    requires report == [] || report == [Report(w'.epoch, w'.consumed, w'.starved, w'.ended)]
    ensures NodeOk(log, capacity, h, n.(worklet := w', toHost := n.toHost + report))
  {
    var all := n.toHost + report;
    forall i | 0 <= i < |all|
      ensures ReportOk(log, h, w', all[i])
    {
      assert i < |n.toHost| ==> ReportOk(log, h, n.worklet, n.toHost[i]);
    }
  }

  lemma {:induction false} QuantumOk<F>(s: System<F>, frames: nat)
    requires Inv(s)
    ensures Inv(Step(s, EvQuantum(frames)))
  {
    if s.node.Some? {
      var n := s.node.value;
      var w := n.worklet;
      TicksOk(s.log, s.capacity, s.host, w, s.step, frames);
      var w' := Quantum(w, s.step, frames).0;
      ChannelReads(s.log, s.capacity, s.host, Held(w), w'.consumed, n.toNode);
      QuantumNode(s.log, s.capacity, s.host, n, w', Quantum(w, s.step, frames).2);
    }
  }

  lemma {:induction false} ReportStepOk<F>(s: System<F>)
    requires Inv(s)
    ensures Inv(Step(s, EvReport))
  {
    if s.node.Some? && s.node.value.toHost != [] {
      var n := s.node.value;
      var r, h := n.toHost[0], s.host;
      assert ReportOk(s.log, h, n.worklet, r);
      if r.epoch == h.epoch {
        var a := s.log[h.epoch];
        ShedCovers(h, a, r.consumed);
        var h' := Progress(h, r);
        assert FirstRetained(h') <= r.consumed;
        ChannelProgress(s.log, s.capacity, h, h', Held(n.worklet), n.toNode);
        assert forall i :: 1 <= i < |n.toHost| ==> ReportOk(s.log, h', n.worklet, n.toHost[i]);
      }
    }
  }

  // ----- Every run -----

  lemma {:induction false} StepOk<F>(s: System<F>, e: Event<F>)
    requires Inv(s) && (e.EvConnect? && s.node.None? ==> SafeConnect(s.host, s.capacity))
    ensures Inv(Step(s, e))
  {
    match e
    case EvWrite(samples) => WriteOk(s, samples);
    case EvSeek => SeekOk(s);
    case EvEos => PostOk(s, Step(s, e), Eos(s.host.epoch));
    case EvConnect => ConnectOk(s);
    case EvPause => PostOk(s, Step(s, e), Run(false));
    case EvDisconnect =>
    case EvObey =>
      if s.node.Some? && s.node.value.toNode != [] {
        ObeyOk(s.log, s.capacity, s.host, s.node.value);
      }
    case EvQuantum(frames) => QuantumOk(s, frames);
    case EvReport => ReportStepOk(s);
  }

  function Start<F>(capacity: nat, step: real): System<F> {
    System(capacity, step, Host(0, 0, 0, [], false, false, false), None, [[]], [])
  }

  /** `es` connects a new node only when that is safe. */
  ghost predicate SafeRun<F>(s: System<F>, es: seq<Event<F>>)
    requires Inv(s)
    decreases |es|
  {
    es == [] ||
    ((es[0].EvConnect? && s.node.None? ==> SafeConnect(s.host, s.capacity)) &&
     (StepOk(s, es[0]); SafeRun(Step(s, es[0]), es[1..])))
  }

  ghost function RunFrom<F>(s: System<F>, es: seq<Event<F>>): (r: System<F>)
    requires Inv(s) && SafeRun(s, es)
    ensures Inv(r)
    decreases |es|
  {
    if es == [] then s else StepOk(s, es[0]); RunFrom(Step(s, es[0]), es[1..])
  }

  /** Ring safety: in every run the worklet never holds more than `capacity` unread frames, now or
  after obeying what is on its way, and every sample it rendered as number n of an epoch came from
  the frame accepted as number n of that epoch and from its successor. */
  lemma {:induction false} RingIsSafe<F>(capacity: nat, step: real, es: seq<Event<F>>, i: nat)
    requires step >= 0.0 && SafeRun(Start<F>(capacity, step), es)
    ensures var s := RunFrom(Start<F>(capacity, step), es);
            && (s.node.Some? ==> |s.node.value.worklet.unread| <= s.capacity)
            && (s.node.Some? && s.node.value.toNode != [] ==>
                  |Obey(s.node.value.worklet, s.node.value.toNode[0]).unread| <= s.capacity)
            && (i < |s.played| && s.played[i].Played? ==>
                  var x := s.played[i];
                  && x.epoch < |s.log| && x.n < |s.log[x.epoch]| && x.frame == s.log[x.epoch][x.n]
                  && x.next == if x.n + 1 < |s.log[x.epoch]| then s.log[x.epoch][x.n + 1] else x.frame)
  {
    var s := RunFrom(Start<F>(capacity, step), es);
    assert i < |s.played| ==> RenderedOk(s.log, s.host, s.played[i]);
    if s.node.Some? && s.node.value.toNode != [] {
      ObeyOk(s.log, s.capacity, s.host, s.node.value);
    }
  }

  /** Resume: in every run the retained chunks are the accepted frames from some number not past
  `consumed` to the end, and a new node is sent exactly the frames from `consumed` on, in order. */
  lemma {:induction false} ResumeIsExact<F>(capacity: nat, step: real, es: seq<Event<F>>)
    requires step >= 0.0 && SafeRun(Start<F>(capacity, step), es)
    ensures var s := RunFrom(Start<F>(capacity, step), es);
            var h := s.host;
            && h.epoch < |s.log| && h.consumed <= h.written == |s.log[h.epoch]|
            && Covers(h.chunks, FirstRetained(h), s.log[h.epoch]) && FirstRetained(h) <= h.consumed
            && Frames(Resume(h)) == s.log[h.epoch][h.consumed..]
  {
    var s := RunFrom(Start<F>(capacity, step), es);
    var h := s.host;
    PostedFrames(h, h.chunks, FirstRetained(h), s.log[h.epoch]);
    ResumeFrames(h);
  }

  lemma {:induction false} ResumeFrames<F>(h: Host<F>)
    ensures Frames(Resume(h)) == Frames(PostChunks(h, h.chunks))
  {
    var tail := ResumeTail(h);
    FramesAppend(PostChunks(h, h.chunks), tail);
    var run: seq<Command<F>> := [Run(true)];
    assert run[1..] == [] && Frames(run) == [];
    assert if h.eos then tail[1..] == run else tail == run;
    assert Frames(tail) == [];
    assert Resume(h)[1..] == PostChunks(h, h.chunks) + tail;
  }

  /** End: in every run a report that says `ended` was made when every frame accepted in its epoch
  had been consumed, and no further frame is accepted in that epoch. */
  lemma {:induction false} EndedIsComplete<F>(capacity: nat, step: real, es: seq<Event<F>>, i: nat)
    requires step >= 0.0 && SafeRun(Start<F>(capacity, step), es)
    ensures var s := RunFrom(Start<F>(capacity, step), es);
            s.node.Some? && i < |s.node.value.toHost| && s.node.value.toHost[i].ended ==>
              var r := s.node.value.toHost[i];
              r.epoch < |s.log| && r.consumed == |s.log[r.epoch]| && Frozen(s.host, r.epoch)
  {
    var s := RunFrom(Start<F>(capacity, step), es);
    if s.node.Some? && i < |s.node.value.toHost| {
      assert ReportOk(s.log, s.host, s.node.value.worklet, s.node.value.toHost[i]);
    }
  }

  // ----- Why a connection has to be safe -----

  function Steps<F>(s: System<F>, es: seq<Event<F>>): System<F>
    requires s.log != [] && s.step >= 0.0
    requires s.node.Some? ==> s.node.value.worklet.fraction >= 0.0
    decreases |es|
  {
    if es == [] then s
    else
      StepShape(s, es[0]);
      Steps(Step(s, es[0]), es[1..])
  }

  lemma {:induction false} StepShape<F>(s: System<F>, e: Event<F>)
    requires s.log != [] && s.step >= 0.0
    requires s.node.Some? ==> s.node.value.worklet.fraction >= 0.0
    ensures var q := Step(s, e);
            q.log != [] && q.step == s.step && (q.node.Some? ==> q.node.value.worklet.fraction >= 0.0)
  {
  }

  /** A fresh worklet that renders before it is flushed. */
  function Unflushed<F>(quanta: nat): Worklet<F> { NewWorklet<F>().(quanta := quanta) }

  /** A worklet that is not running stays as it is. */
  lemma {:induction false} IdleTicks<F>(w: Worklet<F>, step: real, frames: nat)
    requires w.fraction >= 0.0 && step >= 0.0 && !w.running
    ensures Ticks(w, step, frames).0 == w
    decreases frames
  {
    if frames > 0 {
      IdleTicks(w, step, frames - 1);
    }
  }

  lemma {:induction false} UnflushedQuantum<F>(quanta: nat, step: real, frames: nat)
    requires step >= 0.0
    ensures var (w, _, report) := Quantum(Unflushed<F>(quanta), step, frames);
            w == Unflushed<F>(quanta + 1) && report == if (quanta + 1) % 8 == 0 then [Report(0, 0, false, false)] else []
  {
    IdleTicks(Unflushed<F>(quanta), step, frames);
  }

  /** `n` quanta of `frames` samples each, and a report taken by the host. */
  function Idling<F>(n: nat, frames: nat): seq<Event<F>> {
    if n == 0 then [EvReport] else [EvQuantum(frames)] + Idling(n - 1, frames)
  }

  lemma {:induction false} IdlingReports<F>(s: System<F>, quanta: nat, frames: nat)
    requires s.log != [] && s.step >= 0.0 && s.node.Some? && quanta < 8
    requires s.node.value.worklet == Unflushed(quanta) && s.node.value.toHost == []
    ensures Steps(s, Idling(8 - quanta, frames)).host == Progress(s.host, Report(0, 0, false, false))
    decreases 8 - quanta
  {
    UnflushedQuantum<F>(quanta, s.step, frames);
    var q := Step(s, EvQuantum(frames));
    assert Idling<F>(8 - quanta, frames)[1..] == Idling(8 - quanta - 1, frames);
    if quanta < 7 {
      IdlingReports(q, quanta + 1, frames);
    } else {
      assert q.node.value.toHost == [Report(0, 0, false, false)];
      var report: seq<Event<F>> := [EvReport];
      assert Idling<F>(0, frames) == report && report[1..] == [];
    }
  }

  function ObeyAll<F>(w: Worklet<F>, ms: seq<Command<F>>): Worklet<F>
    decreases |ms|
  {
    if ms == [] then w else ObeyAll(Obey(w, ms[0]), ms[1..])
  }

  /** Commands of one epoch deliver exactly their frames. */
  lemma {:induction false} ObeyAllFrames<F>(w: Worklet<F>, ms: seq<Command<F>>)
    requires forall i :: 0 <= i < |ms| ==> !ms[i].Flush? && (ms[i].Data? ==> ms[i].epoch == w.epoch)
    ensures ObeyAll(w, ms).unread == w.unread + Frames(ms)
    decreases |ms|
  {
    if ms != [] {
      var m, w' := ms[0], Obey(w, ms[0]);
      ObeyAllFrames(w', ms[1..]);
      if m.Data? {
        assert Frames(ms) == m.samples + Frames(ms[1..]);
        Regroup(w.unread, m.samples, Frames(ms[1..]));
      } else {
        assert Frames(ms) == Frames(ms[1..]) && w'.unread == w.unread;
      }
    }
  }

  lemma {:induction false} PostChunksEpoch<F>(h: Host<F>, chunks: seq<Chunk<F>>)
    ensures forall i :: 0 <= i < |PostChunks(h, chunks)| ==>
              PostChunks(h, chunks)[i].Data? && PostChunks(h, chunks)[i].epoch == h.epoch
  {
    if chunks != [] {
      PostChunksEpoch(h, chunks[1..]);
    }
  }

  /** Obeying everything a new node is sent leaves it with every frame from `consumed` on. */
  lemma {:induction false} ResumeUnread<F>(log: seq<seq<F>>, h: Host<F>)
    requires HostOk(log, h)
    ensures |ObeyAll(NewWorklet(), Resume(h)).unread| == h.written - h.consumed
  {
    var w, ms := Obey(NewWorklet<F>(), Flush(h.epoch, h.consumed)), PostChunks(h, h.chunks) + ResumeTail(h);
    assert Resume(h)[1..] == ms;
    PostChunksEpoch(h, h.chunks);
    ObeyAllFrames(w, ms);
    ResumeFrames(h);
    PostedFrames(h, h.chunks, FirstRetained(h), log[h.epoch]);
  }

  lemma {:induction false} EarlyReport<F>(s: System<F>, frames: nat)
    requires Inv(s) && s.node.None? && s.host.epoch == 0
    ensures Steps(s, [EvConnect] + Idling(8, frames)).host == Progress(s.host, Report(0, 0, false, false))
  {
    var es: seq<Event<F>> := [EvConnect] + Idling(8, frames);
    assert es[1..] == Idling(8, frames);
    IdlingReports(Step(s, EvConnect), 0, frames);
  }

  /** The two conditions of `SafeConnect` are needed.  Connecting in epoch 0 without the first frame,
  a node that renders eight quanta, of any length, before its first command makes the host fall back to
  position 0, whose frames it no longer holds; connecting with more unplayed frames than `capacity` makes
  the worklet hold more than its ring. */
  lemma {:induction false} UnsafeConnectBreaks<F>(s: System<F>, frames: nat)
    requires Inv(s) && s.node.None? && !SafeConnect(s.host, s.capacity)
    ensures var h := s.host;
            if h.epoch == 0 && FirstRetained(h) > 0 then
              var broken := Steps(s, [EvConnect] + Idling(8, frames)).host;
              broken.consumed == 0 < FirstRetained(broken)
            else
              |ObeyAll(NewWorklet(), Step(s, EvConnect).node.value.toNode).unread| > s.capacity
  {
    var h := s.host;
    if h.epoch == 0 && FirstRetained(h) > 0 {
      EarlyReport(s, frames);
      assert Shed(h.chunks, 0) == h.chunks;
    } else {
      ResumeUnread(s.log, h);
    }
  }

  /** Some run with safe connections leads from `s0` to `s`. */
  ghost predicate Reaches<F(!new)>(s0: System<F>, s: System<F>) {
    Inv(s0) && exists es :: SafeRun(s0, es) && RunFrom(s0, es) == s
  }

  lemma {:induction false} RunExtends<F>(s0: System<F>, es: seq<Event<F>>, e: Event<F>)
    requires Inv(s0) && SafeRun(s0, es)
    requires e.EvConnect? && RunFrom(s0, es).node.None? ==> SafeConnect(RunFrom(s0, es).host, RunFrom(s0, es).capacity)
    ensures SafeRun(s0, es + [e]) && RunFrom(s0, es + [e]) == Step(RunFrom(s0, es), e)
    decreases |es|
  {
    if es == [] {
      assert ([] + [e])[1..] == [] && ([] + [e])[0] == e;
      StepOk(s0, e);
    } else {
      StepOk(s0, es[0]);
      assert (es + [e])[1..] == es[1..] + [e];
      RunExtends(Step(s0, es[0]), es[1..], e);
    }
  }

  ghost predicate Runnable<F>(s: System<F>) {
    s.log != [] && s.step >= 0.0 && (s.node.Some? ==> s.node.value.worklet.fraction >= 0.0)
  }

  ghost predicate SafeStep<F>(s: System<F>, e: Event<F>, s': System<F>) {
    && Runnable(s) && s' == Step(s, e)
    && (e.EvConnect? && s.node.None? ==> SafeConnect(s.host, s.capacity))
  }

  lemma {:induction false} ReachesNext<F(!new)>(s0: System<F>, s: System<F>, e: Event<F>, s': System<F>)
    requires Reaches(s0, s) && SafeStep(s, e, s')
    ensures Reaches(s0, s')
  {
    var es :| SafeRun(s0, es) && RunFrom(s0, es) == s;
    RunExtends(s0, es, e);
  }

  lemma {:induction false} ReachesItself<F(!new)>(s: System<F>)
    requires Inv(s)
    ensures Reaches(s, s)
  {
    var none: seq<Event<F>> := [];
    assert SafeRun(s, none) && RunFrom(s, none) == s;
  }

  /** A node may take all its commands before anything else happens. */
  lemma {:induction false} ReachObeyed<F(!new)>(s0: System<F>, s: System<F>, n: Node<F>)
    requires Reaches(s0, s) && Runnable(s) && s.node == Some(n)
    ensures Reaches(s0, s.(node := Some(n.(worklet := ObeyAll(n.worklet, n.toNode), toNode := []))))
    decreases |n.toNode|
  {
    if n.toNode == [] {
      assert s.(node := Some(n.(toNode := []))) == s;
    } else {
      var n' := n.(worklet := Obey(n.worklet, n.toNode[0]), toNode := n.toNode[1..]);
      ReachesNext(s0, s, EvObey, s.(node := Some(n')));
      ReachObeyed(s0, s.(node := Some(n')), n');
    }
  }

  /** A node may render eight quanta, of any length, before it takes its first command. */
  lemma {:induction false} ReachIdled<F(!new)>(s0: System<F>, s: System<F>, quanta: nat, frames: nat, n: Node<F>) returns (s': System<F>)
    requires Reaches(s0, s) && Runnable(s) && quanta < 8 && s.node == Some(n) && n.worklet == Unflushed(quanta) && n.toHost == []
    ensures Reaches(s0, s')
    ensures s' == s.(node := Some(n.(worklet := Unflushed(8), toHost := [Report(0, 0, false, false)])), played := s'.played)
    decreases 8 - quanta
  {
    s' := IdleStep(s, quanta, frames, n);
    ReachesNext(s0, s, EvQuantum(frames), s');
    if quanta < 7 {
      s' := ReachIdled(s0, s', quanta + 1, frames, n.(worklet := Unflushed(quanta + 1)));
    }
  }

  lemma {:induction false} IdleStep<F>(s: System<F>, quanta: nat, frames: nat, n: Node<F>) returns (s': System<F>)
    requires Runnable(s) && quanta < 8 && s.node == Some(n) && n.worklet == Unflushed(quanta) && n.toHost == []
    ensures SafeStep(s, EvQuantum(frames), s') && Runnable(s')
    ensures s' == s.(node := Some(n.(worklet := Unflushed(quanta + 1), toHost := if quanta < 7 then [] else [Report(0, 0, false, false)])),
                     played := s'.played)
  {
    UnflushedQuantum<F>(quanta, s.step, frames);
    s' := Step(s, EvQuantum(frames));
    var none: seq<Report> := [];
    assert none + [Report(0, 0, false, false)] == [Report(0, 0, false, false)] && none + none == none;
  }

  // Two frames are accepted, in one write or in two; one is played and reported.

  const START := Start<int>(2, 1.0)
  const FRESH := NewWorklet<int>()
  const FULL := FRESH.(unread := [7, 9], running := true)
  const DRY := FULL.(unread := [9], consumed := 1, starved := true)

  function Chunks(together: bool): seq<Chunk<int>> { if together then [Chunk(0, [7, 9])] else [Chunk(0, [7]), Chunk(1, [9])] }

  function Written(together: bool): Host<int> { Host(0, 2, 0, Chunks(together), false, false, false) }

  function Reported(together: bool): Host<int> {
    Host(0, 2, 1, if together then [Chunk(0, [7, 9])] else [Chunk(1, [9])], false, false, true)
  }

  lemma {:induction false} ObeyTwo(a: Command<int>, b: Command<int>, rest: seq<Command<int>>, w: Worklet<int>)
    ensures ObeyAll(w, [a, b] + rest) == ObeyAll(Obey(Obey(w, a), b), rest)
  {
    assert ([a, b] + rest)[1..] == [b] + rest && ([b] + rest)[1..] == rest;
  }

  lemma {:induction false} ResumesFull(together: bool)
    ensures ObeyAll(FRESH, Resume(Written(together))) == FULL
  {
    var h, none: seq<Command<int>> := Written(together), [];
    assert [7, 9][0..] == [7, 9] && [7][0..] == [7] && [9][0..] == [9];
    var empty: seq<int> := [];
    assert empty + [7] == [7] && [7] + [9] == [7, 9] && empty + [7, 9] == [7, 9];
    if together {
      assert h.chunks[1..] == [] && PostChunks(h, h.chunks) == [Data(0, [7, 9])];
      assert Resume(h) == [Flush(0, 0), Data(0, [7, 9])] + [Run(true)] && [Run(true)] == [Run(true)] + none;
      ObeyTwo(Flush(0, 0), Data(0, [7, 9]), [Run(true)], FRESH);
      var run: seq<Command<int>> := [Run(true)];
      assert run[1..] == none;
    } else {
      assert h.chunks[1..] == [Chunk(1, [9])] && h.chunks[1..][1..] == [];
      assert PostChunks(h, h.chunks[1..]) == [Data(0, [9])] && PostChunks(h, h.chunks) == [Data(0, [7]), Data(0, [9])];
      assert Resume(h) == [Flush(0, 0), Data(0, [7])] + ([Data(0, [9]), Run(true)] + none);
      ObeyTwo(Flush(0, 0), Data(0, [7]), [Data(0, [9]), Run(true)] + none, FRESH);
      ObeyTwo(Data(0, [9]), Run(true), none, FRESH.(unread := [7]));
    }
  }

  /** A write that fits, spelled out. */
  lemma {:induction false} WriteStep(s: System<int>, d: seq<int>, a: seq<int>, b: seq<int>, chunks: seq<Chunk<int>>)
    requires s.node.None? && s.log == [a] && s.step >= 0.0 && !s.host.eos && 0 < |d| <= Space(s.host, s.capacity)
    requires b == a + d && chunks == s.host.chunks + [Chunk(s.host.written, d)]
    ensures SafeStep(s, EvWrite(d), s.(host := s.host.(chunks := chunks, written := s.host.written + |d|), log := [b]))
  {
    assert d[..|d|] == d && Accepts(s.host, s.capacity, d) == |d|;
    assert s.log[0 := b] == [b];
  }

  const ONE := START.(host := Host(0, 1, 0, [Chunk(0, [7])], false, false, false), log := [[7]])

  function Buffered(together: bool): System<int> { START.(host := Written(together), log := [[7, 9]]) }

  lemma {:induction false} ReachTogether()
    ensures Reaches(START, Buffered(true))
  {
    ReachesItself(START);
    WriteStep(START, [7, 9], [], [7, 9], Chunks(true));
    ReachesNext(START, START, EvWrite([7, 9]), Buffered(true));
  }

  lemma {:induction false} ReachApart()
    ensures Reaches(START, Buffered(false))
  {
    ReachesItself(START);
    WriteStep(START, [7], [], [7], [Chunk(0, [7])]);
    ReachesNext(START, START, EvWrite([7]), ONE);
    WriteStep(ONE, [9], [7], [7, 9], Chunks(false));
    ReachesNext(START, ONE, EvWrite([9]), Buffered(false));
  }

  lemma {:induction false} ReachWritten(together: bool)
    ensures Reaches(START, Buffered(together))
  {
    if together {
      ReachTogether();
    } else {
      ReachApart();
    }
  }

  lemma {:induction false} ReachFull(together: bool)
    ensures Reaches(START, Buffered(together).(node := Some(Node(FULL, [], []))))
  {
    ReachWritten(together);
    var h, s := Written(together), Buffered(together);
    var n := Node(FRESH, Resume(h), []);
    assert SafeConnect(h, 2);
    ReachesNext(START, s, EvConnect, s.(node := Some(n)));
    ReachObeyed(START, s.(node := Some(n)), n);
    ResumesFull(together);
  }

  /** One frame is played; the next would need a successor, and the worklet starves. */
  lemma {:induction false} DryTicks(frames: nat)
    requires frames >= 2
    ensures Ticks(FULL, 1.0, frames).0 == DRY
    decreases frames
  {
    var after := FULL.(unread := [9], consumed := 1);
    assert (0.0 + 1.0).Floor == 1 && FULL.unread[1..] == [9];
    assert Tick(FULL, 1.0).0 == after;
    if frames == 2 {
      assert Ticks(FULL, 1.0, 0).0 == FULL && Ticks(FULL, 1.0, 1).0 == after;
    } else {
      DryTicks(frames - 1);
    }
  }

  lemma {:induction false} DryQuantum(frames: nat)
    requires frames >= 2
    ensures var (w, _, report) := Quantum(FULL, 1.0, frames);
            w == DRY.(quanta := 1) && report == [Report(0, 1, true, false)]
  {
    DryTicks(frames);
  }

  lemma {:induction false} ProgressReported(together: bool)
    ensures Progress(Written(together), Report(0, 1, true, false)) == Reported(together)
  {
    assert Chunks(together)[1..] == if together then [] else [Chunk(1, [9])];
  }

  /** The first frame is played and reported. */
  lemma {:induction false} PlaySteps(together: bool, frames: nat) returns (played: System<int>, reported: System<int>)
    requires frames >= 2
    ensures SafeStep(Buffered(together).(node := Some(Node(FULL, [], []))), EvQuantum(frames), played)
    ensures SafeStep(played, EvReport, reported) && Runnable(reported)
    ensures reported.(node := None) == Buffered(together).(host := Reported(together), played := reported.played)
  {
    DryQuantum(frames);
    ProgressReported(together);
    played := Step(Buffered(together).(node := Some(Node(FULL, [], []))), EvQuantum(frames));
    assert played.node.value.toHost == [Report(0, 1, true, false)];
    reported := Step(played, EvReport);
  }

  lemma {:induction false} ReachReported(together: bool, frames: nat) returns (s: System<int>)
    requires frames >= 2
    ensures Reaches(START, s) && s == Buffered(together).(host := Reported(together), played := s.played)
  {
    ReachFull(together);
    var played, reported := PlaySteps(together, frames);
    ReachesNext(START, Buffered(together).(node := Some(Node(FULL, [], []))), EvQuantum(frames), played);
    ReachesNext(START, played, EvReport, reported);
    s := reported.(node := None);
    ReachesNext(START, reported, EvDisconnect, s);
  }

  /** A run with safe connections comes to where the next would find the first frame gone: two frames are
  written one by one, one is played and reported, and the node is taken away.  Quanta have any length
  above one. */
  lemma {:induction false} UnsafeConnectIsReachable(frames: nat)
    requires frames >= 2
    ensures exists s :: Reaches(START, s) && s.node.None? && s.host.epoch == 0 && FirstRetained(s.host) > 0
  {
    var s := ReachReported(false, frames);
    assert FirstRetained(s.host) == 1;
  }

  /** A run with safe connections comes to where the next would overfill the ring: two frames are written
  together, one is played and reported and the node taken away; a third frame is written and a node
  connected, which reports position 0 before it is told where to resume; then that is taken away too. */
  lemma {:induction false} OverfullConnectIsReachable(frames: nat)
    requires frames >= 2
    ensures exists s :: Reaches(START, s) && s.node.None? && FirstRetained(s.host) == 0 && s.host.written > s.host.consumed + s.capacity
  {
    var more := ReachThird(frames);
    var n := Node(FRESH, Resume(more.host), []);
    ReachesNext(START, more, EvConnect, more.(node := Some(n)));
    var idled := ReachIdled(START, more.(node := Some(n)), 0, frames, n);
    var back := EarlyStep(idled, more.host);
    ReachesNext(START, idled, EvReport, back);
    ReachesNext(START, back, EvDisconnect, back.(node := None));
  }

  const THREE := Host(0, 3, 1, [Chunk(0, [7, 9]), Chunk(2, [11])], false, false, true)

  /** After a third frame the stream may still be connected. */
  lemma {:induction false} ReachThird(frames: nat) returns (s: System<int>)
    requires frames >= 2
    ensures Reaches(START, s) && s == START.(host := THREE, log := [[7, 9, 11]], played := s.played) && SafeConnect(THREE, 2)
  {
    var reported := ReachReported(true, frames);
    s := reported.(host := THREE, log := [[7, 9, 11]]);
    WriteStep(reported, [11], [7, 9], [7, 9, 11], THREE.chunks);
    ReachesNext(START, reported, EvWrite([11]), s);
  }

  lemma {:induction false} EarlyStep(s: System<int>, h: Host<int>) returns (back: System<int>)
    requires Runnable(s) && h == s.host == THREE && s.node.Some? && s.node.value.toHost == [Report(0, 0, false, false)]
    ensures SafeStep(s, EvReport, back) && Runnable(back) && back.capacity == s.capacity
    ensures FirstRetained(back.host) == 0 && back.host.written == 3 && back.host.consumed == 0
  {
    back := Step(s, EvReport);
  }
}
