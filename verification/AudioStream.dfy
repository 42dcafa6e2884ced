/** Streaming audio output: the host side (`audioOutputWrite`, `connectAudioStream`, ...), the
audio worklet, and the two message ports between them.

A frame is one value of type `F`.  Frames are numbered from zero within an epoch; seeking starts
a new epoch.  The worklet is described by its queue of unread frames; `AudioWorklet` shows that the
ring buffer is such a queue.
 */
module AudioStream {
  import opened Containers

  // ----- Messages -----

  datatype Command<F> =
    | Flush(epoch: nat, consumed: nat)
    | Run(running: bool)
    | Eos(epoch: nat)
    | Data(epoch: nat, samples: seq<F>)

  datatype Report = Report(epoch: nat, consumed: nat, starved: bool, ended: bool)

  // ----- The worklet -----

  /** A rendered sample: silence, or frame `n` of `epoch` blended with its successor. */
  datatype Rendered<F> = Silence | Played(epoch: nat, n: nat, frame: F, next: F, fraction: real)

  datatype Worklet<F> = Worklet(
    unread: seq<F>, fraction: real, consumed: nat, epoch: nat,
    running: bool, eos: bool, ended: bool, starved: bool, quanta: nat)

  function NewWorklet<F>(): Worklet<F> { Worklet([], 0.0, 0, 0, false, false, false, false, 0) }

  function Obey<F>(w: Worklet<F>, m: Command<F>): Worklet<F> {
    match m
    case Flush(epoch, consumed) =>
      w.(epoch := epoch, consumed := consumed, unread := [], fraction := 0.0,
         eos := false, ended := false, starved := false)
    case Run(running) => w.(running := running)
    case Eos(epoch) => if epoch != w.epoch then w else w.(eos := true)
    case Data(epoch, samples) => if epoch != w.epoch then w else w.(unread := w.unread + samples)
  }

  predicate Stalled<F>(w: Worklet<F>) {
    !w.running || w.ended || |w.unread| == 0 || (|w.unread| == 1 && !w.eos)
  }

  function Min(a: int, b: int): int { if a < b then a else b }

  /** How many frames a render step moves on. */
  function Advance<F>(w: Worklet<F>, step: real): nat
    requires w.fraction >= 0.0 && step >= 0.0
  {
    Min((w.fraction + step).Floor, |w.unread|)
  }

  /** Renders one sample. */
  function Tick<F>(w: Worklet<F>, step: real): (Worklet<F>, Rendered<F>)
    requires w.fraction >= 0.0 && step >= 0.0
  {
    if Stalled(w) then
      (if w.running && !w.ended then
         if |w.unread| == 0 && w.eos then w.(ended := true) else w.(starved := true)
       else w,
       Silence)
    else
      var f := w.fraction + step;
      var whole := Advance(w, step);
      (w.(starved := false, fraction := f - f.Floor as real, unread := w.unread[whole..], consumed := w.consumed + whole),
       Played(w.epoch, w.consumed, w.unread[0], if |w.unread| > 1 then w.unread[1] else w.unread[0], w.fraction))
  }

  function Ticks<F>(w: Worklet<F>, step: real, frames: nat): (r: (Worklet<F>, seq<Rendered<F>>))
    requires w.fraction >= 0.0 && step >= 0.0
    ensures r.0.fraction >= 0.0
  {
    if frames == 0 then (w, [])
    else
      var (w1, out) := Ticks(w, step, frames - 1);
      var (w2, sample) := Tick(w1, step);
      (w2, out + [sample])
  }

  /** Renders a quantum and decides whether to report progress. */
  function Quantum<F>(w: Worklet<F>, step: real, frames: nat): (Worklet<F>, seq<Rendered<F>>, seq<Report>)
    requires w.fraction >= 0.0 && step >= 0.0
  {
    var (w1, out) := Ticks(w, step, frames);
    var w2 := w1.(quanta := w1.quanta + 1);
    var report := w2.quanta % 8 == 0 || (w.starved || w.ended) != (w2.starved || w2.ended);
    (w2, out, if report then [Report(w2.epoch, w2.consumed, w2.starved, w2.ended)] else [])
  }

  // ----- The host -----

  datatype Chunk<F> = Chunk(start: nat, data: seq<F>)

  datatype Host<F> = Host(
    epoch: nat, written: nat, consumed: nat, chunks: seq<Chunk<F>>, eos: bool, ended: bool, starved: bool)

  function Space<F>(h: Host<F>, capacity: nat): int { capacity - (h.written - h.consumed) }

  /** How many of `samples` are accepted. */
  function Accepts<F>(h: Host<F>, capacity: nat, samples: seq<F>): nat {
    if h.eos || Space(h, capacity) <= 0 then 0 else Min(|samples|, Space(h, capacity))
  }

  function Write<F>(h: Host<F>, capacity: nat, samples: seq<F>): Host<F> {
    var frames := Accepts(h, capacity, samples);
    if frames == 0 then h
    else h.(chunks := h.chunks + [Chunk(h.written, samples[..frames])], written := h.written + frames)
  }

  function Seek<F>(h: Host<F>): Host<F> {
    Host(h.epoch + 1, 0, 0, [], false, false, false)
  }

  /** Drops the chunks that have been played completely. */
  function Shed<F>(chunks: seq<Chunk<F>>, consumed: nat): seq<Chunk<F>> {
    if chunks == [] || chunks[0].start + |chunks[0].data| > consumed then chunks else Shed(chunks[1..], consumed)
  }

  function Progress<F>(h: Host<F>, r: Report): Host<F> {
    if r.epoch != h.epoch then h
    else h.(consumed := r.consumed, starved := r.starved, chunks := Shed(h.chunks, r.consumed), ended := h.ended || r.ended)
  }

  function Max(a: int, b: int): int { if a < b then b else a }

  function PostChunk<F>(h: Host<F>, c: Chunk<F>): seq<Command<F>> {
    var skip := Max(0, h.consumed - c.start);
    if skip >= |c.data| then [] else [Data(h.epoch, c.data[skip..])]
  }

  function PostChunks<F>(h: Host<F>, chunks: seq<Chunk<F>>): seq<Command<F>> {
    if chunks == [] then [] else PostChunk(h, chunks[0]) + PostChunks(h, chunks[1..])
  }

  function ResumeTail<F>(h: Host<F>): seq<Command<F>> {
    if h.eos then [Eos(h.epoch), Run(true)] else [Run(true)]
  }

  /** What a new node is sent. */
  function Resume<F>(h: Host<F>): seq<Command<F>> {
    [Flush(h.epoch, h.consumed)] + (PostChunks(h, h.chunks) + ResumeTail(h))
  }

  // ----- The whole system -----

  /** The node in use: its worklet and the messages on their way in both directions. */
  datatype Node<F> = Node(worklet: Worklet<F>, toNode: seq<Command<F>>, toHost: seq<Report>)

  /** `log[e]` holds the frames accepted in epoch `e`, `played` everything rendered so far. */
  datatype System<F> = System(
    capacity: nat, step: real, host: Host<F>, node: Option<Node<F>>, log: seq<seq<F>>, played: seq<Rendered<F>>)

  datatype Event<F> =
    | EvWrite(samples: seq<F>)
    | EvSeek
    | EvEos
    | EvConnect
    | EvPause
    | EvDisconnect
    | EvObey                    // the worklet takes its oldest command
    | EvQuantum(frames: nat)    // the worklet renders
    | EvReport                  // the host takes the oldest report

  function Post<F>(node: Option<Node<F>>, m: seq<Command<F>>): Option<Node<F>> {
    if node.None? then None else Some(node.value.(toNode := node.value.toNode + m))
  }

  function Step<F>(s: System<F>, e: Event<F>): System<F>
    requires s.log != [] && s.step >= 0.0
    requires s.node.Some? ==> s.node.value.worklet.fraction >= 0.0
  {
    var h := s.host;
    match e
    case EvWrite(samples) =>
      var frames := Accepts(h, s.capacity, samples);
      if frames == 0 then s
      else
        var last := |s.log| - 1;
        s.(host := Write(h, s.capacity, samples), node := Post(s.node, [Data(h.epoch, samples[..frames])]),
           log := s.log[last := s.log[last] + samples[..frames]])
    case EvSeek =>
      s.(host := Seek(h), node := Post(s.node, [Flush(h.epoch + 1, 0)]), log := s.log + [[]])
    case EvEos => s.(host := h.(eos := true), node := Post(s.node, [Eos(h.epoch)]))
    case EvConnect =>
      s.(node := if s.node.Some? then Post(s.node, [Run(true)]) else Some(Node(NewWorklet(), Resume(h), [])))
    case EvPause => s.(node := Post(s.node, [Run(false)]))
    case EvDisconnect => s.(node := None)
    case EvObey =>
      if s.node.None? || s.node.value.toNode == [] then s
      else
        var n := s.node.value;
        s.(node := Some(n.(worklet := Obey(n.worklet, n.toNode[0]), toNode := n.toNode[1..])))
    case EvQuantum(frames) =>
      if s.node.None? then s
      else
        var n := s.node.value;
        var (w, out, report) := Quantum(n.worklet, s.step, frames);
        s.(node := Some(n.(worklet := w, toHost := n.toHost + report)), played := s.played + out)
    case EvReport =>
      if s.node.None? || s.node.value.toHost == [] then s
      else
        var n := s.node.value;
        s.(host := Progress(h, n.toHost[0]), node := Some(n.(toHost := n.toHost[1..])))
  }
}
