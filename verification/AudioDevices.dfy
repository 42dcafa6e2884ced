/** The two objects of streaming audio output: the worklet with its ring buffer, and the stream
object of the host.  Each method is proved to be the transition of `AudioStream` it carries out.
 */
module AudioDevices {
  import opened AudioStream

  lemma {:induction false} RemainderIs(x: nat, c: nat, q: nat, r: nat)
    requires r < c && x == q * c + r
    ensures x % c == r
  {
    var k := x / c - q;
    assert x == (x / c) * c + x % c;
    assert k * c == r - x % c;
    MultipleBound(k, c);
  }

  lemma {:induction false} MultipleBound(k: int, c: nat)
    ensures k >= 1 ==> k * c >= c
    ensures k <= -1 ==> k * c + c <= 0
  {
  }

  /** Positions less than a ring apart lie in different cells. */
  lemma {:induction false} CellsDiffer(a: nat, b: nat, capacity: nat)
    requires a < b < a + capacity
    ensures a % capacity != b % capacity
  {
    var q, r := a / capacity, a % capacity;
    assert a == q * capacity + r;
    var moved := r + (b - a);
    if moved < capacity {
      RemainderIs(b, capacity, q, moved);
    } else {
      assert (q + 1) * capacity == q * capacity + capacity;
      RemainderIs(b, capacity, q + 1, moved - capacity);
    }
  }

  /** `n` frames of a ring, from position `read` on. */
  function RingFrames<F>(ring: seq<F>, read: nat, n: nat): seq<F>
    requires |ring| > 0
  {
    seq(n, i requires 0 <= i < n => ring[(read + i) % |ring|])
  }

  /** Writing the cell after `n` frames that do not fill the ring appends a frame. */
  lemma {:induction false} RingAppend<F>(ring: seq<F>, read: nat, n: nat, x: F)
    requires n < |ring|
    ensures RingFrames(ring[(read + n) % |ring| := x], read, n + 1) == RingFrames(ring, read, n) + [x]
  {
    var cell := (read + n) % |ring|;
    var frames := RingFrames(ring[cell := x], read, n + 1);
    forall i | 0 <= i < n
      ensures frames[i] == RingFrames(ring, read, n)[i]
    {
      CellsDiffer(read + i, read + n, |ring|);
    }
  }

  /** Reading on drops the oldest frames. */
  lemma {:induction false} RingDrop<F>(ring: seq<F>, read: nat, n: nat, whole: nat)
    requires |ring| > 0 && whole <= n
    ensures RingFrames(ring, read + whole, n - whole) == RingFrames(ring, read, n)[whole..]
  {
    forall i | 0 <= i < n - whole
      ensures RingFrames(ring, read + whole, n - whole)[i] == RingFrames(ring, read, n)[whole..][i]
    {
      assert read + whole + i == read + (whole + i);
    }
  }

  class AudioWorklet<F(0)> {
    const capacity: nat
    const step: real
    const ring: array<F>
    var read: nat
    var write: nat
    var fraction: real
    var consumed: nat
    var epoch: nat
    var running: bool
    var eos: bool
    var ended: bool
    var starved: bool
    var quanta: nat

    ghost predicate Valid()
      reads this
    {
      && capacity > 0 && ring.Length == capacity && step >= 0.0 && fraction >= 0.0
      && read <= write <= read + capacity
    }

    /** The unread frames, oldest first. */
    ghost function Unread(): seq<F>
      reads this, ring
      requires Valid()
    {
      RingFrames(ring[..], read, write - read)
    }

    ghost function Model(): Worklet<F>
      reads this, ring
      requires Valid()
    {
      Worklet(Unread(), fraction, consumed, epoch, running, eos, ended, starved, quanta)
    }

    constructor (capacity: nat, step: real)
      requires capacity > 0 && step >= 0.0
      ensures Valid() && Model() == NewWorklet() && fresh(ring)
      ensures this.capacity == capacity && this.step == step
    {
      this.capacity, this.step := capacity, step;
      ring := new F[capacity];
      read, write, fraction, consumed, epoch := 0, 0, 0.0, 0, 0;
      running, eos, ended, starved, quanta := false, false, false, false, 0;
    }

    /** Appends `samples`; there is room for them, so no unread frame is overwritten. */
    method Store(samples: seq<F>)
      requires Valid() && |Unread()| + |samples| <= capacity
      modifies `write, ring
      ensures Valid() && Unread() == old(Unread()) + samples
    {
      ghost var unread := Unread();
      assert unread + samples[..0] == unread;
      for frame := 0 to |samples|
        invariant RingFrames(ring[..], read, write - read + frame) == unread + samples[..frame]
        modifies ring
      {
        var cell := (write + frame) % capacity;
        RingAppend(ring[..], read, write - read + frame, samples[frame]);
        ghost var before := ring[..];
        ring[cell] := samples[frame];
        assert ring[..] == before[cell := samples[frame]];
        assert samples[..frame + 1] == samples[..frame] + [samples[frame]];
      }
      write := write + |samples|;
      assert samples[..|samples|] == samples;
    }

    method OnMessage(m: Command<F>)
      requires Valid() && |Obey(Model(), m).unread| <= capacity
      modifies this, ring
      ensures Valid() && Model() == Obey(old(Model()), m)
    {
      match m {
        case Flush(e, c) =>
          epoch, consumed := e, c;
          read, write, fraction := 0, 0, 0.0;
          eos, ended, starved := false, false, false;
        case Run(on) =>
          running := on;
        case Eos(e) =>
          if e == epoch {
            eos := true;
          }
        case Data(e, samples) =>
          if e == epoch {
            Store(samples);
          }
      }
    }

    method Stall()
      requires Valid() && Stalled(Model())
      modifies this
      ensures Valid() && (Model(), Silence) == Tick(old(Model()), step)
    {
      ghost var before := Unread();
      if running && !ended {
        if write - read == 0 && eos {
          ended := true;
        } else {
          starved := true;
        }
      }
      assert Unread() == before;
    }

    method Play() returns (x: Rendered<F>)
      requires Valid() && !Stalled(Model())
      modifies this
      ensures Valid() && (Model(), x) == Tick(old(Model()), step)
    {
      ghost var before := Unread();
      starved := false;
      var a := read % capacity;
      var b := if write - read > 1 then (read + 1) % capacity else a;
      assert ring[a] == before[0] && (write - read > 1 ==> ring[b] == before[1]);
      x := Played(epoch, consumed, ring[a], ring[b], fraction);
      fraction := fraction + step;
      var whole := Min(fraction.Floor, write - read);
      RingDrop(ring[..], read, write - read, whole);
      fraction := fraction - fraction.Floor as real;
      read := read + whole;
      consumed := consumed + whole;
      assert Unread() == before[whole..];
    }

    /** Renders one sample. */
    method Render() returns (x: Rendered<F>)
      requires Valid()
      modifies this
      ensures Valid() && (Model(), x) == Tick(old(Model()), step)
    {
      var available := write - read;
      if !running || ended || available == 0 || (available == 1 && !eos) {
        Stall();
        return Silence;
      }
      x := Play();
    }

    method Process(frames: nat) returns (out: seq<Rendered<F>>, report: seq<Report>)
      requires Valid()
      modifies this
      ensures Valid() && (Model(), out, report) == Quantum(old(Model()), step, frames)
    {
      ghost var start := Model();
      var before := starved || ended;
      out := [];
      for i := 0 to frames
        invariant Valid() && (Model(), out) == Ticks(start, step, i)
      {
        var x := Render();
        out := out + [x];
      }
      ghost var unread := Unread();
      quanta := quanta + 1;
      assert Unread() == unread;
      report := [];
      if quanta % 8 == 0 || before != (starved || ended) {
        report := [Report(epoch, consumed, starved, ended)];
      }
    }
  }

  class AudioStreamHost<F> {
    const capacity: nat
    var epoch: nat
    var written: nat
    var consumed: nat
    var chunks: seq<Chunk<F>>
    var eos: bool
    var ended: bool
    var starved: bool
    var connected: bool
    /** What has been posted to the node in use. */
    var posted: seq<Command<F>>

    ghost function Model(): Host<F>
      reads this
    {
      Host(epoch, written, consumed, chunks, eos, ended, starved)
    }

    constructor (capacity: nat)
      ensures Model() == Host(0, 0, 0, [], false, false, false) && !connected && this.capacity == capacity
    {
      this.capacity := capacity;
      epoch, written, consumed, chunks := 0, 0, 0, [];
      eos, ended, starved, connected, posted := false, false, false, false, [];
    }

    method PostMessage(m: Command<F>)
      modifies `posted
      ensures posted == if connected then old(posted) + [m] else old(posted)
    {
      if connected {
        posted := posted + [m];
      }
    }

    method WriteSamples(samples: seq<F>) returns (frames: nat)
      modifies this
      ensures frames == Accepts(old(Model()), capacity, samples)
      ensures Model() == Write(old(Model()), capacity, samples) && connected == old(connected)
      ensures posted == old(posted) + if connected && frames > 0 then [Data(old(epoch), samples[..frames])] else []
    {
      if eos {
        return 0;
      }
      var space := capacity - (written - consumed);
      var count := Min(|samples|, space);
      if count <= 0 {
        return 0;
      }
      var chunk := Chunk(written, samples[..count]);
      chunks := chunks + [chunk];
      written := written + count;
      PostMessage(Data(epoch, chunk.data));
      return count;
    }

    method SeekTo()
      modifies this
      ensures Model() == Seek(old(Model())) && connected == old(connected)
      ensures posted == old(posted) + if connected then [Flush(epoch, 0)] else []
    {
      epoch := epoch + 1;
      written, consumed, chunks := 0, 0, [];
      eos, ended, starved := false, false, false;
      PostMessage(Flush(epoch, 0));
    }

    method EndOfStream()
      modifies this
      ensures Model() == old(Model()).(eos := true) && connected == old(connected)
      ensures posted == old(posted) + if connected then [Eos(epoch)] else []
    {
      eos := true;
      PostMessage(Eos(epoch));
    }

    /** Posts what is left of every retained chunk. */
    method PostRetained()
      requires connected
      modifies `posted
      ensures posted == old(posted) + PostChunks(Model(), chunks)
    {
      for i := 0 to |chunks|
        invariant posted == old(posted) + PostChunks(Model(), chunks[..i])
      {
        var skip := Max(0, consumed - chunks[i].start);
        PostChunksSnoc(Model(), chunks[..i], chunks[i]);
        assert chunks[..i + 1] == chunks[..i] + [chunks[i]];
        if skip < |chunks[i].data| {
          PostMessage(Data(epoch, chunks[i].data[skip..]));
        }
      }
      assert chunks[..|chunks|] == chunks;
    }

    method Connect()
      modifies this
      ensures Model() == old(Model()) && connected
      ensures posted == if old(connected) then old(posted) + [Run(true)] else Resume(Model())
    {
      if !connected {
        connected := true;
        posted := [Flush(epoch, consumed)];
        PostRetained();
        if eos {
          PostMessage(Eos(epoch));
        }
      }
      PostMessage(Run(true));
      assert !old(connected) ==> posted == Resume(Model());
    }

    method OnReport(r: Report)
      modifies this
      ensures Model() == Progress(old(Model()), r)
      ensures connected == old(connected) && posted == old(posted)
    {
      if r.epoch != epoch {
        return;
      }
      consumed, starved := r.consumed, r.starved;
      while |chunks| > 0
        invariant Shed(chunks, r.consumed) == Shed(old(chunks), r.consumed)
        invariant Model() == old(Model()).(consumed := r.consumed, starved := r.starved, chunks := chunks)
        invariant connected == old(connected) && posted == old(posted)
        decreases |chunks|
      {
        if chunks[0].start + |chunks[0].data| > consumed {
          break;
        }
        chunks := chunks[1..];
      }
      if r.ended && !ended {
        ended := true;
      }
    }
  }

  lemma {:induction false} PostChunksSnoc<F>(h: Host<F>, chunks: seq<Chunk<F>>, c: Chunk<F>)
    ensures PostChunks(h, chunks + [c]) == PostChunks(h, chunks) + PostChunk(h, c)
  {
    if chunks == [] {
      assert (chunks + [c])[1..] == [];
    } else {
      assert (chunks + [c])[1..] == chunks[1..] + [c];
      PostChunksSnoc(h, chunks[1..], c);
    }
  }
}
