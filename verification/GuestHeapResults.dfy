/** The main results about marshalling: arrays of every modelled type round-trip and disturb nothing,
with the exact conditions where the code falls short of that.
 */
module GuestHeapResults {
  import opened Containers
  import opened Bytes
  import opened GuestHeap
  import opened GuestHeapProofs

  /** What writing an array achieves, whether or not it completes. */
  ghost predicate ArrayOk(shared: bool, h: Heap, t: ElemType, items: seq<Value>, w: Outcome) {
    && HeapOk(w.heap) && Kept(h, w.heap)
    && (w.Failed? ==> w.reason == NoBlock || (w.reason == StaleView && t == Str && !shared))
  }

  lemma {:induction false} BegunStrings(h: Heap, c: Heap, arr: Block, items: seq<Value>)
    requires Begun(h, c, arr, |items|) && arr.size == 8 + |items| * 4
    ensures ArrayIn(c, arr, |items|) && Filled(c, arr, items, 0)
  {
  }

  lemma {:induction false} StringsWritten(shared: bool, h: Heap, c: Heap, alloc: Allocator, arr: Block, items: seq<Value>)
    requires Sound(alloc) && Begun(h, c, arr, |items|) && arr.size == 8 + |items| * 4
    ensures var w := Fill(shared, c, alloc, Str, arr.ptr + 8, items, 0);
            && ArrayOk(shared, h, Str, items, w)
            && (w.Done? ==> ArrayIn(w.heap, arr, |items|) && Filled(w.heap, arr, items, |items|))
  {
    BegunStrings(h, c, arr, items);
    var w := Fill(shared, c, alloc, Str, arr.ptr + 8, items, 0);
    FillStrings(shared, c, alloc, arr, items);
    KeptThrough(h, c, w.heap, arr);
  }

  /** The elements, after a successful start. */
  lemma {:induction false} ElementsWritten(shared: bool, h: Heap, c: Heap, alloc: Allocator, t: ElemType, arr: Block,
                                           items: seq<Value>, later: Heap)
    requires Sound(alloc) && Begun(h, c, arr, |items|) && arr.size == 8 + |items| * Size(t)
    ensures var w := Fill(shared, c, alloc, t, arr.ptr + 8, items, 0);
            && ArrayOk(shared, h, t, items, w)
            && (w.Done? && Kept(w.heap, later) ==> ArrayHeld(later.memory, arr.ptr, t, items))
  {
    var w := Fill(shared, c, alloc, t, arr.ptr + 8, items, 0);
    if t == Str {
      StringsWritten(shared, h, c, alloc, arr, items);
      if w.Done? && Kept(w.heap, later) {
        StringsHeld(w.heap, later, arr, items);
      }
    } else {
      ScalarsFilled(shared, h, c, alloc, t, arr, items);
      if Kept(w.heap, later) {
        ScalarsHeld(w.heap, later, t, arr, items);
      }
    }
  }

  /** What follows a successful start. */
  lemma {:induction false} FromStart(shared: bool, h: Heap, alloc: Allocator, t: ElemType, items: seq<Value>, w: Outcome, c: Outcome)
    requires w == Malloc(h, alloc, 8 + |items| * Size(t)) && w.Done?
    requires c == Store(w.heap, w.ptr, Le(|items| % B32, 4)) && c.Done?
    ensures var f := Fill(shared, c.heap, alloc, t, w.ptr + 8, items, 0);
            WriteArray(shared, h, alloc, t, items) == if f.Failed? then f else Done(f.heap, w.ptr)
  {
  }

  lemma {:induction false} WrittenFromStart(shared: bool, h: Heap, alloc: Allocator, t: ElemType, items: seq<Value>, later: Heap, w: Outcome)
    requires Sound(alloc) && HeapOk(h) && w == Malloc(h, alloc, 8 + |items| * Size(t)) && w.Done?
    ensures var r := WriteArray(shared, h, alloc, t, items);
            && ArrayOk(shared, h, t, items, r)
            && (r.Done? && Kept(r.heap, later) ==> ArrayHeld(later.memory, r.ptr, t, items))
  {
    var arr := Block(w.ptr, 8 + |items| * Size(t));
    CountFits(|items|, Size(t));
    BeginArray(h, alloc, arr.size, |items|);
    var c := Store(w.heap, w.ptr, Le(|items| % B32, 4));
    FromStart(shared, h, alloc, t, items, w, c);
    ElementsWritten(shared, h, c.heap, alloc, t, arr, items, later);
  }

  lemma {:induction false} ArrayWritten(shared: bool, h: Heap, alloc: Allocator, t: ElemType, items: seq<Value>, later: Heap)
    requires Sound(alloc) && HeapOk(h)
    ensures var w := WriteArray(shared, h, alloc, t, items);
            && ArrayOk(shared, h, t, items, w)
            && (w.Done? && Kept(w.heap, later) ==> ArrayHeld(later.memory, w.ptr, t, items))
  {
    var w := Malloc(h, alloc, 8 + |items| * Size(t));
    if w.Done? {
      WrittenFromStart(shared, h, alloc, t, items, later, w);
    } else {
      KeptRefl(h, {});
    }
  }

  /** Writing an array leaves every earlier block as it was, even if it fails on the way.  It can fail only
  because a block is refused, or, for strings in memory that is not shared, because memory grew. */
  lemma {:induction false} WritingDisturbsNothing(shared: bool, h: Heap, alloc: Allocator, t: ElemType, items: seq<Value>)
    requires Sound(alloc) && HeapOk(h)
    ensures var w := WriteArray(shared, h, alloc, t, items);
            && HeapOk(w.heap) && Kept(h, w.heap)
            && (w.Failed? ==> w.reason == NoBlock || (w.reason == StaleView && t == Str && !shared))
  {
    ArrayWritten(shared, h, alloc, t, items, h);
  }

  /** An array that was written reads back, in every later state of the heap that keeps its blocks. */
  lemma {:induction false} ArrayRoundTrip(shared: bool, h: Heap, alloc: Allocator, t: TypeName, items: seq<Value>, later: Heap)
    requires Sound(alloc) && HeapOk(h) && (StrideAgrees(t) || |items| <= 1)
    requires WriteArray(shared, h, alloc, t.base, items).Done?
    requires Kept(WriteArray(shared, h, alloc, t.base, items).heap, later)
    ensures ReadArray(later.memory, WriteArray(shared, h, alloc, t.base, items).ptr, t) == Ok(Normals(t.base, items))
  {
    ArrayWritten(shared, h, alloc, t.base, items, later);
    HeldReads(later.memory, WriteArray(shared, h, alloc, t.base, items).ptr, t, items);
  }

  // ----- Strings and growing memory -----

  /** Storing a string in unshared memory succeeds exactly if it would in shared memory without growth. */
  lemma {:induction false} ElementUnshared(h: Heap, alloc: Allocator, at: nat, v: Value)
    ensures var u := WriteElement(false, h, alloc, Str, at, v);
            var s := WriteElement(true, h, alloc, Str, at, v);
            (u.Done? <==> s.Done? && |s.heap.memory| == |h.memory|) && (u.Done? ==> u == s)
  {
  }

  /** `unshared` writes what `shared` does, unless that would grow the memory. */
  ghost predicate WritesUnlessGrown(unshared: (Heap, nat, Value) -> Outcome, shared: (Heap, nat, Value) -> Outcome) {
    forall h: Heap, at: nat, v: Value {:trigger shared(h, at, v)} {:trigger unshared(h, at, v)} ::
      SameUnlessGrown(Str, |h.memory|, unshared(h, at, v), shared(h, at, v))
  }

  lemma {:induction false} PourUnlessGrown(unshared: (Heap, nat, Value) -> Outcome, shared: (Heap, nat, Value) -> Outcome,
                                           h: Heap, arr: Block, at: nat, items: seq<Value>, i: nat)
    requires WritesStrings(shared, true, arr) && WritesUnlessGrown(unshared, shared)
    requires HeapOk(h) && arr in h.blocks && arr.size == 8 + |items| * 4 && i <= |items| && at == Spot(arr, i)
    ensures |h.memory| <= |Pour(shared, h, at, 4, items, i).heap.memory|
    ensures SameUnlessGrown(Str, |h.memory|, Pour(unshared, h, at, 4, items, i), Pour(shared, h, at, 4, items, i))
    decreases |items| - i
  {
    if i < |items| {
      var s := shared(h, at, items[i]);
      if s.Done? {
        PourUnlessGrown(unshared, shared, s.heap, arr, at + 4, items, i + 1);
      }
    }
  }

  lemma {:induction false} UnsharedStrings(h: Heap, alloc: Allocator, arr: Block, items: seq<Value>)
    requires Sound(alloc) && HeapOk(h) && arr in h.blocks && arr.size == 8 + |items| * 4
    ensures SameUnlessGrown(Str, |h.memory|, Fill(false, h, alloc, Str, arr.ptr + 8, items, 0), Fill(true, h, alloc, Str, arr.ptr + 8, items, 0))
  {
    var unshared, shared := Writer(false, alloc, Str), Writer(true, alloc, Str);
    forall h: Heap, at: nat, v: Value ensures SameUnlessGrown(Str, |h.memory|, unshared(h, at, v), shared(h, at, v)) {
      ElementUnshared(h, alloc, at, v);
    }
    WriterWritesStrings(true, alloc, arr);
    PourUnlessGrown(unshared, shared, h, arr, arr.ptr + 8, items, 0);
  }

  /** How filling unshared memory relates to filling shared memory. */
  ghost predicate SameUnlessGrown(t: ElemType, length: nat, u: Outcome, s: Outcome) {
    (u.Done? <==> s.Done? && (t == Str ==> |s.heap.memory| == length)) && (u.Done? ==> u == s)
  }

  lemma {:induction false} UnsharedFill(h: Heap, c: Heap, alloc: Allocator, t: ElemType, arr: Block, items: seq<Value>)
    requires Sound(alloc) && Begun(h, c, arr, |items|) && arr.size == 8 + |items| * Size(t)
    ensures SameUnlessGrown(t, |c.memory|, Fill(false, c, alloc, t, arr.ptr + 8, items, 0), Fill(true, c, alloc, t, arr.ptr + 8, items, 0))
  {
    if t == Str {
      UnsharedStrings(c, alloc, arr, items);
    } else {
      ImageSize(t, items, 0);
      FillScalars(false, c, alloc, t, arr.ptr + 8, items, 0);
      FillScalars(true, c, alloc, t, arr.ptr + 8, items, 0);
    }
  }

  lemma {:induction false} UnsharedFromStart(h: Heap, alloc: Allocator, t: ElemType, items: seq<Value>, w: Outcome)
    requires Sound(alloc) && HeapOk(h) && w == Malloc(h, alloc, 8 + |items| * Size(t)) && w.Done?
    ensures SameUnlessGrown(t, |w.heap.memory|, WriteArray(false, h, alloc, t, items), WriteArray(true, h, alloc, t, items))
  {
    var size := 8 + |items| * Size(t);
    CountFits(|items|, Size(t));
    BeginArray(h, alloc, size, |items|);
    var c := Store(w.heap, w.ptr, Le(|items| % B32, 4));
    FromStart(false, h, alloc, t, items, w, c);
    FromStart(true, h, alloc, t, items, w, c);
    UnsharedFill(h, c.heap, alloc, t, Block(w.ptr, size), items);
  }

  /** Writing to unshared memory succeeds exactly if writing to shared memory does and, for strings, the
  memory does not grow once the array has its own block; then it writes the same. */
  lemma {:induction false} UnsharedArrays(h: Heap, alloc: Allocator, t: ElemType, items: seq<Value>)
    requires Sound(alloc) && HeapOk(h)
    ensures var u := WriteArray(false, h, alloc, t, items);
            var s := WriteArray(true, h, alloc, t, items);
            var begun := Malloc(h, alloc, 8 + |items| * Size(t));
            && (u.Done? <==> s.Done? && (t == Str ==> |s.heap.memory| == |begun.heap.memory|))
            && (u.Done? ==> u == s)
  {
    var w := Malloc(h, alloc, 8 + |items| * Size(t));
    if w.Done? {
      UnsharedFromStart(h, alloc, t, items, w);
    }
  }

  /** An allocator that grows the memory at every request. */
  function GrowingGrant(h: Heap, size: nat): Grant {
    if |h.memory| + 1 + size <= B31 then Granted(|h.memory| + 1, h.memory + seq(size + 1, _ => 0)) else Refused
  }

  lemma {:induction false} GrowingIsSound()
    ensures Sound(GrowingGrant)
  {
    forall h, size ensures GrantsWell(GrowingGrant, h, size) {
      var g := GrowingGrant(h, size);
      if HeapOk(h) && g.Granted? {
        forall b | b in h.blocks
          ensures Separate(b, Block(g.ptr, size)) && Unchanged(h.memory, g.memory, b)
        {
          assert Inside(h.memory, b);
        }
      }
    }
  }

  /** With a sound allocator, an array of a single string is lost if the memory is not shared. */
  lemma {:induction false} GrowthLosesStrings(s: Text)
    requires |s| < 1000
    ensures Sound(GrowingGrant) && HeapOk(Heap([], {}))
    ensures WriteArray(true, Heap([], {}), GrowingGrant, Str, [String(s)]).Done?
    ensures !WriteArray(false, Heap([], {}), GrowingGrant, Str, [String(s)]).Done?
  {
    GrowingIsSound();
    var h, items := Heap([], {}), [String(s)];
    var w := Malloc(h, GrowingGrant, 12);
    var c := Store(w.heap, w.ptr, Le(1 % B32, 4)).heap;
    ElementGrows(c, w.ptr + 8, String(s));
    SingleElement(true, c, GrowingGrant, w.ptr + 8, items);
    SingleElement(false, c, GrowingGrant, w.ptr + 8, items);
  }

  lemma {:induction false} SingleElement(shared: bool, h: Heap, alloc: Allocator, at: nat, items: seq<Value>)
    requires |items| == 1
    ensures Fill(shared, h, alloc, Str, at, items, 0).Done? <==> WriteElement(shared, h, alloc, Str, at, items[0]).Done?
  {
    var w := WriteElement(shared, h, alloc, Str, at, items[0]);
    if w.Done? {
      assert Fill(shared, w.heap, alloc, Str, at + 4, items, 1).Done?;
    }
  }

  lemma {:induction false} ElementGrows(c: Heap, at: nat, v: Value)
    requires |c.memory| < 1000 && at + 4 <= |c.memory| && |TextOf(v)| < 1000
    ensures WriteElement(true, c, GrowingGrant, Str, at, v).Done?
    ensures !WriteElement(false, c, GrowingGrant, Str, at, v).Done?
  {
  }
}
