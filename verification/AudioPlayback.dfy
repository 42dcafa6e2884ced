/** What a stream is for: frames that were accepted are played at the right positions, commands take effect,
and an ended stream is played out and reported. */
module AudioPlayback {
  import opened Containers
  import opened AudioStream
  import opened AudioStreamProofs

  // ----- One sample -----

  ghost predicate Playing<F>(w: Worklet<F>) {
    w.running && !w.ended && 0.0 <= w.fraction < 1.0
  }

  /** There is a frame to play and one to blend it with, or it is the last frame of the stream. */
  predicate Enough<F>(w: Worklet<F>) {
    |w.unread| >= 2 || (|w.unread| == 1 && w.eos)
  }

  /** A worklet that plays renders the frame at its position, blended with the next by the fractional part of
  the position, and moves on by `step`, or to the end of what it holds.  It ends when nothing is left of an
  ended stream, and waits in silence when more is to come. */
  lemma {:induction false} TickPlays<F>(w: Worklet<F>, step: real)
    requires Playing(w) && step >= 0.0
    ensures var (w', x) := Tick(w, step);
            if Enough(w) then
              && x == Played(w.epoch, w.consumed, w.unread[0], if |w.unread| >= 2 then w.unread[1] else w.unread[0], w.fraction)
              && Playing(w') && !w'.starved && w'.consumed >= w.consumed
              && w'.consumed - w.consumed <= |w.unread| && w'.unread == w.unread[w'.consumed - w.consumed..]
              && (w.fraction + step < |w.unread| as real + 1.0 ==>
                    w'.consumed as real + w'.fraction == w.consumed as real + w.fraction + step)
              && (w.fraction + step >= |w.unread| as real ==> w'.unread == [])
              && w' == w.(unread := w'.unread, fraction := w'.fraction, consumed := w'.consumed, starved := false)
            else if w.eos then x == Silence && w' == w.(ended := true)
            else x == Silence && w' == w.(starved := true)
  {
  }

  /** A worklet that is not running, or has ended, stays as it is and renders silence. */
  lemma {:induction false} TickRests<F>(w: Worklet<F>, step: real)
    requires w.fraction >= 0.0 && step >= 0.0 && (!w.running || w.ended)
    ensures Tick(w, step) == (w, Silence)
  {
  }

  // ----- Many samples -----

  /** What holds at first, and after one more sample whenever it held before, holds after any number. */
  lemma {:induction false} AfterTicks<F(!new)>(w: Worklet<F>, step: real, n: nat,
                                               holds: (nat, Worklet<F>, seq<Rendered<F>>) -> bool)
    requires w.fraction >= 0.0 && step >= 0.0 && holds(0, w, [])
    requires forall k: nat, w1, out {:trigger holds(k, w1, out)} :: k < n && holds(k, w1, out) ==>
               w1.fraction >= 0.0 && holds(k + 1, Tick(w1, step).0, out + [Tick(w1, step).1])
    ensures holds(n, Ticks(w, step, n).0, Ticks(w, step, n).1)
  {
    if n > 0 {
      AfterTicks(w, step, n - 1, holds);
    }
  }

  /** The position, counted from the oldest unread frame, at which sample `k` is taken. */
  function Position<F>(w: Worklet<F>, step: real, k: nat): (at: real)
    requires w.fraction >= 0.0 && step >= 0.0
    ensures at >= 0.0
  {
    if k == 0 then w.fraction else Position(w, step, k - 1) + step
  }

  lemma {:induction false} PositionIs<F>(w: Worklet<F>, step: real, k: nat)
    requires w.fraction >= 0.0 && step >= 0.0
    ensures Position(w, step, k) == w.fraction + k as real * step
  {
    if k > 0 {
      PositionIs(w, step, k - 1);
      assert k as real * step == (k - 1) as real * step + step;
    }
  }

  /** `rest` is what is left of `unread` after `n` frames. */
  ghost predicate Rest<F>(unread: seq<F>, n: nat, rest: seq<F>) {
    && n <= |unread| && |rest| == |unread| - n
    && forall i {:trigger rest[i]} :: 0 <= i < |rest| ==> rest[i] == unread[n + i]
  }

  /** The worklet has moved on by `moved`. */
  ghost predicate MovedOn<F>(w: Worklet<F>, w': Worklet<F>, moved: real) {
    && 0 <= moved.Floor && Rest(w.unread, moved.Floor, w'.unread)
    && w'.consumed == w.consumed + moved.Floor && w'.fraction == moved - moved.Floor as real
    && w'.running == w.running && w'.eos == w.eos && w'.ended == w.ended && w'.epoch == w.epoch && w'.quanta == w.quanta
  }

  /** Sample `x` is taken at position `at`. */
  ghost predicate SampledAt<F>(w: Worklet<F>, at: real, x: Rendered<F>) {
    && 0 <= at.Floor < |w.unread|
    && x == Played(w.epoch, w.consumed + at.Floor, w.unread[at.Floor],
                   if at.Floor + 1 < |w.unread| then w.unread[at.Floor + 1] else w.unread[at.Floor], at - at.Floor as real)
  }

  lemma {:induction false} FloorShift(at: real, step: real)
    requires at >= 0.0 && step >= 0.0
    ensures var f := at - at.Floor as real + step;
            && 0 <= at.Floor <= (at + step).Floor && f.Floor == (at + step).Floor - at.Floor
            && f - f.Floor as real == at + step - (at + step).Floor as real
  {
  }

  lemma {:induction false} RestAgain<F>(unread: seq<F>, n: nat, rest: seq<F>, m: nat)
    requires Rest(unread, n, rest) && n <= m <= |unread|
    ensures Rest(unread, m, rest[m - n..])
  {
  }

  /** One sample further. */
  lemma {:induction false} SampleNext<F>(w: Worklet<F>, w1: Worklet<F>, step: real, at: real)
    requires Playing(w) && step >= 0.0 && at >= 0.0 && MovedOn(w, w1, at)
    requires at.Floor + (if w.eos then 1 else 2) <= |w.unread| && (at + step).Floor <= |w.unread|
    ensures w1.fraction >= 0.0
    ensures MovedOn(w, Tick(w1, step).0, at + step) && !Tick(w1, step).0.starved
    ensures SampledAt(w, at, Tick(w1, step).1)
  {
    var n, m := at.Floor, (at + step).Floor;
    FloorShift(at, step);
    RestAgain(w.unread, n, w1.unread, m);
    assert Advance(w1, step) == m - n;
  }

  /** `n` samples were taken one step apart, which led to `w'`. */
  ghost predicate Evenly<F>(w: Worklet<F>, step: real, n: nat, w': Worklet<F>, out: seq<Rendered<F>>)
    requires w.fraction >= 0.0 && step >= 0.0
  {
    && MovedOn(w, w', Position(w, step, n)) && (n > 0 ==> !w'.starved)
    && |out| == n && forall k :: 0 <= k < n ==> SampledAt(w, Position(w, step, k), out[k])
  }

  lemma {:induction false} EvenlyNext<F>(w: Worklet<F>, step: real, n: nat, w1: Worklet<F>, out: seq<Rendered<F>>)
    requires Playing(w) && step >= 0.0 && Evenly(w, step, n, w1, out)
    requires Position(w, step, n).Floor + (if w.eos then 1 else 2) <= |w.unread|
    requires Position(w, step, n + 1).Floor <= |w.unread|
    ensures w1.fraction >= 0.0 && Evenly(w, step, n + 1, Tick(w1, step).0, out + [Tick(w1, step).1])
  {
    SampleNext(w, w1, step, Position(w, step, n));
  }

  lemma {:induction false} PositionMonotone<F>(w: Worklet<F>, step: real, k: nat, n: nat)
    requires w.fraction >= 0.0 && step >= 0.0 && k <= n
    ensures Position(w, step, k).Floor <= Position(w, step, n).Floor
  {
    if k < n {
      PositionMonotone(w, step, k, n - 1);
    }
  }

  lemma {:induction false} EvenlyStart<F>(w: Worklet<F>, step: real)
    requires Playing(w) && step >= 0.0
    ensures Evenly(w, step, 0, w, [])
  {
  }

  /** As long as there are frames, sample `k` is taken exactly `k` steps on: nothing is skipped, repeated or
  drifts, whatever the step. */
  lemma {:induction false} PlaysEvenly<F(!new)>(w: Worklet<F>, step: real, n: nat)
    requires Playing(w) && step >= 0.0
    requires n > 0 ==> Position(w, step, n - 1).Floor + (if w.eos then 1 else 2) <= |w.unread|
    requires Position(w, step, n).Floor <= |w.unread|
    ensures Evenly(w, step, n, Ticks(w, step, n).0, Ticks(w, step, n).1)
  {
    var holds := (k: nat, w1: Worklet<F>, out: seq<Rendered<F>>) => Evenly(w, step, k, w1, out);
    EvenlyStart(w, step);
    forall k: nat, w1, out {:trigger holds(k, w1, out)} | k < n && holds(k, w1, out)
      ensures w1.fraction >= 0.0 && holds(k + 1, Tick(w1, step).0, out + [Tick(w1, step).1])
    {
      PositionMonotone(w, step, k, n - 1);
      PositionMonotone(w, step, k + 1, n);
      EvenlyNext(w, step, k, w1, out);
    }
    AfterTicks(w, step, n, holds);
  }

  /** After `n` samples the worklet has moved on by exactly `n` steps. */
  lemma {:induction false} MovesEvenly<F(!new)>(w: Worklet<F>, step: real, n: nat)
    requires Playing(w) && step >= 0.0
    requires n > 0 ==> (w.fraction + (n - 1) as real * step).Floor + (if w.eos then 1 else 2) <= |w.unread|
    requires (w.fraction + n as real * step).Floor <= |w.unread|
    ensures var w' := Ticks(w, step, n).0;
            w'.consumed as real + w'.fraction == w.consumed as real + w.fraction + n as real * step
  {
    if n > 0 {
      PositionIs(w, step, n - 1);
    }
    PositionIs(w, step, n);
    PlaysEvenly(w, step, n);
  }

  // ----- The end of a stream -----

  /** After `n` samples an ended stream is at its position, or everything has been played; a further sample
  ends it. */
  ghost predicate PlayedOut<F>(w: Worklet<F>, step: real, n: nat, w': Worklet<F>)
    requires w.fraction >= 0.0 && step >= 0.0
  {
    var at := Position(w, step, n);
    if at.Floor < |w.unread| then MovedOn(w, w', at)
    else
      && w'.fraction >= 0.0 && w'.unread == [] && w'.consumed == w.consumed + |w.unread|
      && w'.running && w'.eos && w'.epoch == w.epoch && w'.quanta == w.quanta
      && (n > 0 && Position(w, step, n - 1).Floor >= |w.unread| ==> w'.ended)
  }

  lemma {:induction false} PlaysLast<F>(w: Worklet<F>, w1: Worklet<F>, step: real, at: real)
    requires Playing(w) && w.eos && step >= 0.0 && at >= 0.0 && MovedOn(w, w1, at)
    requires at.Floor < |w.unread| <= (at + step).Floor
    ensures w1.fraction >= 0.0
    ensures var w' := Tick(w1, step).0;
            && w'.fraction >= 0.0 && w'.unread == [] && w'.consumed == w.consumed + |w.unread|
            && w'.running && w'.eos && w'.epoch == w.epoch && w'.quanta == w.quanta
  {
    FloorShift(at, step);
    assert Enough(w1);
    TickPlays(w1, step);
  }

  lemma {:induction false} PlaysOutNext<F>(w: Worklet<F>, step: real, n: nat, w1: Worklet<F>)
    requires Playing(w) && w.eos && step >= 0.0 && PlayedOut(w, step, n, w1)
    ensures w1.fraction >= 0.0 && PlayedOut(w, step, n + 1, Tick(w1, step).0)
  {
    var at := Position(w, step, n);
    if at.Floor >= |w.unread| {
      assert (at + step).Floor >= at.Floor;
    } else if (at + step).Floor < |w.unread| {
      SampleNext(w, w1, step, at);
    } else {
      PlaysLast(w, w1, step, at);
    }
  }

  lemma {:induction false} PlayedOutStart<F>(w: Worklet<F>, step: real)
    requires Playing(w) && w.eos && step >= 0.0
    ensures PlayedOut(w, step, 0, w)
  {
  }

  lemma {:induction false} PlaysOut<F(!new)>(w: Worklet<F>, step: real, n: nat)
    requires Playing(w) && w.eos && step >= 0.0
    ensures PlayedOut(w, step, n, Ticks(w, step, n).0)
  {
    var holds := (k: nat, w1: Worklet<F>, out: seq<Rendered<F>>) => PlayedOut(w, step, k, w1);
    PlayedOutStart(w, step);
    forall k: nat, w1, out {:trigger holds(k, w1, out)} | k < n && holds(k, w1, out)
      ensures w1.fraction >= 0.0 && holds(k + 1, Tick(w1, step).0, out + [Tick(w1, step).1])
    {
      PlaysOutNext(w, step, k, w1);
    }
    AfterTicks(w, step, n, holds);
  }

  /** An ended stream is played to its last frame, and then ends: after enough samples at any speed, every
  frame has been consumed and the worklet has ended. */
  lemma {:induction false} StreamEnds<F(!new)>(w: Worklet<F>, step: real, n: nat)
    requires w.running && w.eos && 0.0 <= w.fraction < 1.0 && (w.ended ==> w.unread == [])
    requires step >= 0.0 && n > 0 && (n - 1) as real * step >= |w.unread| as real
    ensures var w' := Ticks(w, step, n).0;
            w'.ended && w'.unread == [] && w'.consumed == w.consumed + |w.unread| && w'.epoch == w.epoch
  {
    FarEnough(w, step, n - 1);
    StreamEndsPast(w, step, n);
  }

  lemma {:induction false} StreamEndsPast<F(!new)>(w: Worklet<F>, step: real, n: nat)
    requires w.running && w.eos && 0.0 <= w.fraction < 1.0 && (w.ended ==> w.unread == [])
    requires step >= 0.0 && n > 0 && Position(w, step, n - 1).Floor >= |w.unread|
    ensures var w' := Ticks(w, step, n).0;
            w'.ended && w'.unread == [] && w'.consumed == w.consumed + |w.unread| && w'.epoch == w.epoch
  {
    if w.ended {
      RestTicks(w, step, n);
    } else {
      PlaysOut(w, step, n);
      FloorGrows(Position(w, step, n - 1), step, |w.unread|);
    }
  }

  lemma {:induction false} FloorGrows(at: real, step: real, n: nat)
    requires step >= 0.0 && at.Floor >= n
    ensures (at + step).Floor >= n
  {
  }

  lemma {:induction false} FarEnough<F>(w: Worklet<F>, step: real, k: nat)
    requires w.fraction >= 0.0 && step >= 0.0 && k as real * step >= |w.unread| as real
    ensures Position(w, step, k).Floor >= |w.unread|
  {
    PositionIs(w, step, k);
  }

  lemma {:induction false} RestTicks<F>(w: Worklet<F>, step: real, n: nat)
    requires w.fraction >= 0.0 && step >= 0.0 && (!w.running || w.ended)
    ensures Ticks(w, step, n).0 == w
  {
    if n > 0 {
      RestTicks(w, step, n - 1);
    }
  }
}
