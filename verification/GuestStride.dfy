/** The reader of arrays looks up the element size under the name it is given, suffix and all, whereas
the writer strips the suffix first.  For names such as `long?` the two disagree.
 */
module GuestStride {
  import opened Containers
  import opened Bytes
  import opened GuestHeap
  import opened GuestHeapProofs
  import opened GuestHeapResults

  /** The memory with an array of scalars written at `ptr`. */
  ghost function ArrayImage(m: seq<byte>, ptr: nat, t: ElemType, items: seq<Value>): (r: seq<byte>)
    requires t != Str && ptr + 8 + |items| * Size(t) <= |m|
    ensures |r| == |m|
  {
    ImageSize(t, items, 0);
    Put(Put(m, ptr, Le(|items|, 4)), ptr + 8, Image(t, items, 0))
  }

  ghost predicate Members(t: ElemType, items: seq<Value>) { forall v :: v in items ==> Member(t, v) }

  /** That is what writing an array of scalars leaves in the memory it is granted. */
  lemma {:induction false} WriteArrayIsImage(shared: bool, h: Heap, alloc: Allocator, t: ElemType, items: seq<Value>)
    requires Sound(alloc) && HeapOk(h) && t != Str
    ensures var g := Malloc(h, alloc, 8 + |items| * Size(t));
            var w := WriteArray(shared, h, alloc, t, items);
            && (w.Done? <==> g.Done?)
            && (w.Done? ==>
                  && w.ptr == g.ptr && 0 < w.ptr && w.ptr + 8 + |items| * Size(t) <= |g.heap.memory|
                  && |items| < B31 && w.heap.memory == ArrayImage(g.heap.memory, w.ptr, t, items))
  {
    var g := Malloc(h, alloc, 8 + |items| * Size(t));
    if g.Done? {
      ImageFromStart(shared, h, alloc, t, items, g);
    }
  }

  lemma {:induction false} ImageFromStart(shared: bool, h: Heap, alloc: Allocator, t: ElemType, items: seq<Value>, g: Outcome)
    requires Sound(alloc) && HeapOk(h) && t != Str && g == Malloc(h, alloc, 8 + |items| * Size(t)) && g.Done?
    ensures 0 < g.ptr && g.ptr + 8 + |items| * Size(t) <= |g.heap.memory| && |items| < B31
    ensures var w := WriteArray(shared, h, alloc, t, items);
            w.Done? && w.ptr == g.ptr && w.heap.memory == ArrayImage(g.heap.memory, g.ptr, t, items)
  {
    var arr := Block(g.ptr, 8 + |items| * Size(t));
    CountFits(|items|, Size(t));
    BeginArray(h, alloc, arr.size, |items|);
    var c := Store(g.heap, g.ptr, Le(|items| % B32, 4));
    FromStart(shared, h, alloc, t, items, g, c);
    StoredLength(g.heap, g.ptr, |items|, c);
    FilledIsImage(shared, h, g.heap.memory, c.heap, alloc, t, arr, items);
  }

  lemma {:induction false} StoredLength(h: Heap, ptr: nat, n: nat, c: Outcome)
    requires n < B31 && c == Store(h, ptr, Le(n % B32, 4)) && c.Done?
    ensures ptr + 4 <= |h.memory| && c.heap.memory == Put(h.memory, ptr, Le(n, 4)) && |c.heap.memory| == |h.memory|
  {
    assert n % B32 == n;
  }

  lemma {:induction false} FilledIsImage(shared: bool, h: Heap, m: seq<byte>, c: Heap, alloc: Allocator, t: ElemType, arr: Block, items: seq<Value>)
    requires t != Str && Begun(h, c, arr, |items|) && arr.size == 8 + |items| * Size(t)
    requires arr.ptr + arr.size <= |m| && c.memory == Put(m, arr.ptr, Le(|items|, 4))
    ensures var f := Fill(shared, c, alloc, t, arr.ptr + 8, items, 0);
            f.Done? && f.heap.memory == ArrayImage(m, arr.ptr, t, items)
  {
    ImageSize(t, items, 0);
    FillScalars(shared, c, alloc, t, arr.ptr + 8, items, 0);
  }

  lemma {:induction false} ImageHeld(m: seq<byte>, ptr: nat, t: ElemType, items: seq<Value>)
    requires t != Str && 0 < ptr && ptr + 8 + |items| * Size(t) <= |m| && |items| < B31
    ensures ArrayHeld(ArrayImage(m, ptr, t, items), ptr, t, items)
  {
    var head, image := Le(|items|, 4), Image(t, items, 0);
    ImageSize(t, items, 0);
    var m1 := Put(m, ptr, head);
    var m2 := Put(m1, ptr + 8, image);
    PutAt(m, ptr, head);
    PutSame(m1, ptr + 8, image, ptr, ptr + 8);
    AtSame(m1, m2, ptr, head, ptr, ptr + 8);
    I32Reads(m2, ptr, |items|);
    PutAt(m1, ptr + 8, image);
    ScalarsRead(m2, t, ptr + 8, items, 0);
  }

  // ----- Two arrays the reader cannot tell apart -----

  function SampleValue(t: ElemType, one: bool): Value {
    if t == Bool then Flag(one) else if !one then Num(0) else if Size(t) == 8 then Num(B32) else Num(1)
  }

  function Sample(t: ElemType, n: nat, one: bool): (r: seq<Value>)
    ensures |r| == n && forall j :: 0 <= j < n ==> r[j] == SampleValue(t, one && j == 1)
  {
    seq(n, j => SampleValue(t, one && j == 1))
  }

  lemma {:induction false} SampleMembers(t: ElemType, n: nat, one: bool)
    requires t != Str
    ensures Members(t, Sample(t, n, one))
  {
  }

  /** Elements of one byte. */
  lemma {:induction false} NarrowImage(t: ElemType, items: seq<Value>, i: nat, j: nat)
    requires t != Str && Size(t) == 1 && i <= j < |items|
    ensures j - i < |Image(t, items, i)| && Image(t, items, i)[j - i] == ScalarBytes(t, items[j])[0]
    decreases j - i
  {
    if i < j {
      NarrowImage(t, items, i + 1, j);
      assert Image(t, items, i)[j - i] == Image(t, items, i + 1)[j - (i + 1)];
    }
  }

  /** The first two elements of eight bytes. */
  lemma {:induction false} WideImage(t: ElemType, items: seq<Value>, k: nat)
    requires t != Str && Size(t) == 8 && |items| >= 2 && k < 16
    ensures k < |Image(t, items, 0)|
    ensures Image(t, items, 0)[k] == if k < 8 then ScalarBytes(t, items[0])[k] else ScalarBytes(t, items[1])[k - 8]
  {
    TwoParts(ScalarBytes(t, items[0]), ScalarBytes(t, items[1]), Image(t, items, 2), k);
    assert Image(t, items, 1) == ScalarBytes(t, items[1]) + Image(t, items, 2);
  }

  lemma {:induction false} TwoParts(a: seq<byte>, b: seq<byte>, c: seq<byte>, k: nat)
    requires |a| == 8 && |b| == 8 && k < 16
    ensures (a + (b + c))[k] == if k < 8 then a[k] else b[k - 8]
  {
  }

  lemma {:induction false} ZeroBytes(k: nat, off: nat)
    requires off < k
    ensures Le(0, k)[off] == 0
    decreases k
  {
    if off > 0 {
      ZeroBytes(k - 1, off - 1);
    }
  }

  /** The bytes of 256^j below number `j` are zero. */
  lemma {:induction false} BytesBelow(j: nat, k: nat, off: nat)
    requires off < j && off < k
    ensures Le(Pow256(j), k)[off] == 0
    decreases j
  {
    if off > 0 {
      BytesBelow(j - 1, k - 1, off - 1);
    }
    assert Pow256(j) % 256 == 0 && Pow256(j) / 256 == Pow256(j - 1);
  }

  lemma {:induction false} WideValues(t: ElemType, off: nat)
    requires t != Str && Size(t) == 8 && off < 4
    ensures ScalarBytes(t, SampleValue(t, false))[off] == ScalarBytes(t, SampleValue(t, true))[off]
  {
    WordPower();
    ZeroBytes(8, off);
    BytesBelow(4, 8, off);
    assert Stored(t, Num(0)) == 0 && Stored(t, Num(B32)) == B32;
  }

  lemma {:induction false} NarrowSample(t: ElemType, n: nat)
    requires t != Str && Size(t) == 1 && n > 4
    ensures |Image(t, Sample(t, n, false), 0)| > 4 && |Image(t, Sample(t, n, true), 0)| > 4
    ensures Image(t, Sample(t, n, false), 0)[4] == Image(t, Sample(t, n, true), 0)[4]
  {
    NarrowImage(t, Sample(t, n, false), 0, 4);
    NarrowImage(t, Sample(t, n, true), 0, 4);
  }

  lemma {:induction false} WideSample(t: ElemType, n: nat, k: nat)
    requires t != Str && Size(t) == 8 && n >= 2 && 4 <= k < 12
    ensures k < |Image(t, Sample(t, n, false), 0)| && k < |Image(t, Sample(t, n, true), 0)|
    ensures Image(t, Sample(t, n, false), 0)[k] == Image(t, Sample(t, n, true), 0)[k]
  {
    WideImage(t, Sample(t, n, false), k);
    WideImage(t, Sample(t, n, true), k);
    if k >= 8 {
      WideValues(t, k - 8);
    }
  }

  /** What stands at offset 4 of the elements, where the reader looks for the second, is the same in both. */
  lemma {:induction false} SampleSame(m: seq<byte>, ptr: nat, t: ElemType, n: nat, i: nat)
    requires t != Str && Size(t) != 4 && n >= 2 && ptr + 8 + n * Size(t) <= |m|
    requires ptr + 12 <= i < ptr + 12 + Size(t) && i < |m|
    ensures ArrayImage(m, ptr, t, Sample(t, n, false))[i] == ArrayImage(m, ptr, t, Sample(t, n, true))[i]
  {
    var k := i - (ptr + 8);
    ImageSize(t, Sample(t, n, false), 0);
    ImageSize(t, Sample(t, n, true), 0);
    if Size(t) == 8 {
      WideSample(t, n, k);
    } else if n > 4 {
      NarrowSample(t, n);
    }
  }

  lemma {:induction false} ReadSame(a: seq<byte>, b: seq<byte>, t: ElemType, at: nat)
    requires t != Str && |a| == |b| && forall i :: at <= i < at + Size(t) && i < |a| ==> a[i] == b[i]
    ensures ReadElement(a, t, at) == ReadElement(b, t, at)
  {
    if at + Size(t) <= |a| {
      assert Same(a, b, at, at + Size(t));
      UintSame(a, b, at, Size(t));
    }
  }

  lemma {:induction false} SecondElement(read: int -> Result<Value>, at: nat, size: nat, n: nat, items: seq<Value>)
    requires n >= 2 && Collect(read, at, size, n) == Ok(items)
    ensures read(at + size) == Ok(items[1])
  {
    var rest := Collect(read, at + size, size, n - 1);
    assert rest.Ok? && items == [items[0]] + rest.value;
  }

  lemma {:induction false} SecondOfArray(m: seq<byte>, ptr: nat, t: TypeName, items: seq<Value>)
    requires t.base != Str && 0 < ptr && I32(m, ptr) == Ok(|items|) && |items| >= 2
    requires !StrideAgrees(t) && ReadArray(m, ptr, t) == Ok(items)
    ensures ReadElement(m, t.base, ptr + 12) == Ok(items[1])
  {
    SecondElement(Reader(m, t.base), ptr + 8, 4, |items|, items);
  }

  lemma {:induction false} SecondOfImage(m: seq<byte>, ptr: nat, t: TypeName, items: seq<Value>)
    requires t.base != Str && !StrideAgrees(t) && 2 <= |items| < B31 && 0 < ptr && ptr + 8 + |items| * Size(t.base) <= |m|
    ensures var image := ArrayImage(m, ptr, t.base, items);
            ReadArray(image, ptr, t) == Ok(items) ==> ReadElement(image, t.base, ptr + 12) == Ok(items[1])
  {
    var image := ArrayImage(m, ptr, t.base, items);
    ImageHeld(m, ptr, t.base, items);
    if ReadArray(image, ptr, t) == Ok(items) {
      SecondOfArray(image, ptr, t, items);
    }
  }

  lemma {:induction false} Indistinct(m: seq<byte>, ptr: nat, t: ElemType, n: nat)
    requires t != Str && Size(t) != 4 && n >= 2 && ptr + 8 + n * Size(t) <= |m|
    ensures ReadElement(ArrayImage(m, ptr, t, Sample(t, n, false)), t, ptr + 12) ==
            ReadElement(ArrayImage(m, ptr, t, Sample(t, n, true)), t, ptr + 12)
  {
    var ma, mb := ArrayImage(m, ptr, t, Sample(t, n, false)), ArrayImage(m, ptr, t, Sample(t, n, true));
    forall i | ptr + 12 <= i < ptr + 12 + Size(t) && i < |m|
      ensures ma[i] == mb[i]
    {
      SampleSame(m, ptr, t, n, i);
    }
    ReadSame(ma, mb, t, ptr + 12);
  }

  lemma {:induction false} MismatchLoses(m: seq<byte>, ptr: nat, t: TypeName, n: nat)
    requires t.base != Str && !StrideAgrees(t) && n >= 2 && n < B31 && 0 < ptr && ptr + 8 + n * Size(t.base) <= |m|
    ensures var a, b := Sample(t.base, n, false), Sample(t.base, n, true);
            ReadArray(ArrayImage(m, ptr, t.base, a), ptr, t) != Ok(a) || ReadArray(ArrayImage(m, ptr, t.base, b), ptr, t) != Ok(b)
  {
    var a, b := Sample(t.base, n, false), Sample(t.base, n, true);
    Indistinct(m, ptr, t.base, n);
    assert a[1] == SampleValue(t.base, false) != SampleValue(t.base, true) == b[1];
    SecondOfImage(m, ptr, t, a);
    SecondOfImage(m, ptr, t, b);
  }

  /** Arrays of `n` scalars of a type round-trip exactly if the reader's element size is the writer's or
  there is at most one element, whatever the memory they are written to. */
  lemma {:induction false} StrideDecides(m: seq<byte>, ptr: nat, t: TypeName, n: nat)
    requires t.base != Str && n < B31 && 0 < ptr && ptr + 8 + n * Size(t.base) <= |m|
    ensures (forall items :: |items| == n && Members(t.base, items) ==>
               ReadArray(ArrayImage(m, ptr, t.base, items), ptr, t) == Ok(items))
       <==> StrideAgrees(t) || n <= 1
  {
    if StrideAgrees(t) || n <= 1 {
      forall items | |items| == n && Members(t.base, items)
        ensures ReadArray(ArrayImage(m, ptr, t.base, items), ptr, t) == Ok(items)
      {
        ImageHeld(m, ptr, t.base, items);
        HeldReads(ArrayImage(m, ptr, t.base, items), ptr, t, items);
        NormalsOfMembers(t.base, items);
      }
    } else {
      MismatchLoses(m, ptr, t, n);
      SampleMembers(t.base, n, false);
      SampleMembers(t.base, n, true);
    }
  }
}
