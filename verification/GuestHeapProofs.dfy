/** What is written to a guest's memory reads back as it was, and disturbs no other block. */
module GuestHeapProofs {
  import opened Bytes
  import opened GuestHeap

  lemma {:induction false} Powers()
    ensures Pow256(1) == 256 && Pow256(4) == B32 && Pow256(8) == B64
  {
    assert Pow256(4) == 256 * (256 * (256 * (256 * Pow256(0))));
    assert Pow256(8) == 256 * (256 * (256 * (256 * Pow256(4))));
  }

  /** A value reads back as itself exactly if it is one of its type. */
  lemma {:induction false} NormalIsIdentity(t: ElemType, v: Value)
    ensures Normal(t, v) == v <==> Member(t, v)
  {
    if v.Num? && t.Int? {
      SignedOfMod(v.n, B32);
    } else if v.Num? && t.Long? {
      SignedOfMod(v.n, B64);
    } else if v.Num? && t != Str && t != Bool {
      UnsignedOfMod(v.n, Modulus(t));
    }
  }

  lemma {:induction false} UnsignedOfMod(n: int, modulus: nat)
    requires modulus > 0
    ensures n % modulus == n <==> 0 <= n < modulus
  {
  }

  lemma {:induction false} SignedOfMod(n: int, modulus: nat)
    requires modulus == B32 || modulus == B64
    ensures Signed(n % modulus, modulus) == n <==> 0 <= n + modulus / 2 < modulus
  {
  }

  // ----- Strings -----

  lemma {:induction false} I32Reads(m: seq<byte>, at: nat, n: nat)
    requires At(m, at, Le(n, 4)) && n < B31
    ensures I32(m, at) == Ok(n)
  {
    Powers();
    UintReads(m, at, n, 4);
  }

  lemma {:induction false} UnitReads(m: seq<byte>, at: nat, u: unit)
    requires At(m, at, Le(u, 2))
    ensures Uint16(m, at) == u
  {
    assert Le(u / 256, 1) == [u / 256] + Le(u / 256 / 256, 0);
    assert Cell(Le(u, 2), 0) == m[at] && Cell(Le(u, 2), 1) == m[at + 1];
  }

  lemma {:induction false} UnitsRead(m: seq<byte>, start: nat, s: Text, n: nat)
    requires n <= |s| && At(m, start, Utf16(s, n))
    ensures forall i :: 0 <= i < n ==> Uint16(m, start + 2 * i) == s[i]
  {
    if n > 0 {
      AtSplit(m, start, Utf16(s, n - 1), Le(s[n - 1], 2));
      UnitReads(m, start + 2 * (n - 1), s[n - 1]);
      UnitsRead(m, start, s, n - 1);
    }
  }

  lemma {:induction false} SliceReads(m: seq<byte>, start: nat, s: Text)
    requires At(m, start, Utf16(s, |s|))
    ensures SliceUnits(m, start, start + 2 * |s|) == Ok(s)
  {
    UnitsRead(m, start, s, |s|);
    assert Units(m, start, |s|) == s;
  }

  lemma {:induction false} StringParts(m: seq<byte>, ptr: nat, s: Text)
    requires At(m, ptr, StringBytes(s)) && |s| < B31
    ensures I32(m, ptr) == Ok(|s|) && I32(m, ptr + 4) == Ok(0) && At(m, ptr + 8, Utf16(s, |s|))
  {
    assert |s| % B32 == |s|;
    HeaderReads(m, ptr, |s| % B32, 0, Utf16(s, |s|));
  }

  lemma {:induction false} HeaderReads(m: seq<byte>, ptr: nat, a: nat, b: nat, rest: seq<byte>)
    requires At(m, ptr, Le(a, 4) + Le(b, 4) + rest) && a < B31 && b < B31
    ensures I32(m, ptr) == Ok(a) && I32(m, ptr + 4) == Ok(b) && At(m, ptr + 8, rest)
  {
    AtSplit3(m, ptr, Le(a, 4), Le(b, 4), rest);
    I32Reads(m, ptr, a);
    I32Reads(m, ptr + 4, b);
  }

  lemma {:induction false} AtSplit3(m: seq<byte>, at: nat, a: seq<byte>, b: seq<byte>, c: seq<byte>)
    requires At(m, at, a + b + c)
    ensures At(m, at, a) && At(m, at + |a|, b) && At(m, at + |a| + |b|, c)
  {
    AtSplit(m, at, a + b, c);
    AtSplit(m, at, a, b);
  }

  /** A string of any length reads back. */
  lemma {:induction false} StringReads(m: seq<byte>, ptr: nat, s: Text)
    requires 0 < ptr && At(m, ptr, StringBytes(s)) && |s| < B31
    ensures ReadString(m, ptr) == Ok(s)
  {
    StringParts(m, ptr, s);
    SliceReads(m, ptr + 8, s);
  }

  /** A block holding `s`. */
  ghost predicate StringIn(h: Heap, b: Block, s: Text) {
    b in h.blocks && 0 < b.ptr && b.size == 8 + 2 * |s| && b.ptr + b.size <= B31 && At(h.memory, b.ptr, StringBytes(s))
  }

  lemma {:induction false} NewBlockOk(h: Heap, m: seq<byte>, b: Block)
    requires HeapOk(h) && |h.memory| <= |m| && Inside(m, b)
    requires forall o {:trigger Separate(o, b)} :: o in h.blocks ==> Separate(o, b)
    ensures HeapOk(Heap(m, h.blocks + {b}))
  {
    forall o | o in h.blocks + {b} ensures Inside(m, o) {
      assert o != b ==> Inside(h.memory, o);
    }
    forall x, y | x in h.blocks + {b} && y in h.blocks + {b} && x != y ensures Separate(x, y) {
      assert x == b ==> Separate(y, b);
    }
  }

  lemma {:induction false} MallocOk(h: Heap, alloc: Allocator, size: nat)
    requires Sound(alloc) && HeapOk(h) && size > 0
    ensures var w := Malloc(h, alloc, size);
            && (w.Failed? ==> w.heap == h && w.reason == NoBlock)
            && (w.Done? ==>
                 && HeapOk(w.heap) && Kept(h, w.heap) && 0 < w.ptr && w.ptr + size <= B31
                 && Block(w.ptr, size) in w.heap.blocks && Block(w.ptr, size) !in h.blocks)
  {
    var g := alloc(h, size);
    if g.Granted? {
      var b := Block(g.ptr, size);
      assert GrantsWell(alloc, h, size);
      assert b in h.blocks ==> Separate(b, b);
      NewBlockOk(h, g.memory, b);
    }
  }

  /** Writing inside a block changes no other block. */
  lemma {:induction false} PutKept(h: Heap, b: Block, at: nat, part: seq<byte>)
    requires HeapOk(h) && b in h.blocks && b.ptr <= at && at + |part| <= b.ptr + b.size && Inside(h.memory, b)
    ensures var h' := h.(memory := Put(h.memory, at, part)); HeapOk(h') && KeptBut(h, h', {b})
  {
    var m' := Put(h.memory, at, part);
    forall o | o in h.blocks ensures Inside(m', o) {
      assert Inside(h.memory, o);
    }
    forall o | o in h.blocks && o != b
      ensures Unchanged(h.memory, m', o)
    {
      assert Separate(o, b) && Inside(h.memory, o);
      PutSame(h.memory, at, part, o.ptr, o.ptr + o.size);
    }
  }

  lemma {:induction false} KeptButTrans(h: Heap, h1: Heap, h2: Heap, x: set<Block>, y: set<Block>)
    requires KeptBut(h, h1, x) && KeptBut(h1, h2, y)
    ensures KeptBut(h, h2, x + y)
  {
    forall b | b in h.blocks && b !in x + y
      ensures Unchanged(h.memory, h2.memory, b)
    {
      assert Unchanged(h.memory, h1.memory, b) && Unchanged(h1.memory, h2.memory, b);
      SameTrans(h.memory, h1.memory, h2.memory, b.ptr, b.ptr + b.size);
    }
  }

  lemma {:induction false} KeptRefl(h: Heap, but: set<Block>)
    requires HeapOk(h)
    ensures KeptBut(h, h, but)
  {
    forall b | b in h.blocks ensures Unchanged(h.memory, h.memory, b) {
      assert Inside(h.memory, b);
    }
  }

  /** Changes to a block that is not there yet do not matter. */
  lemma {:induction false} KeptIgnores(h: Heap, h': Heap, but: set<Block>, b: Block)
    requires KeptBut(h, h', but) && b !in h.blocks
    ensures KeptBut(h, h', but - {b})
  {
  }

  lemma {:induction false} StringKept(h: Heap, h': Heap, but: set<Block>, b: Block, s: Text)
    requires StringIn(h, b, s) && KeptBut(h, h', but) && b !in but
    ensures StringIn(h', b, s)
  {
    assert Unchanged(h.memory, h'.memory, b);
    AtSame(h.memory, h'.memory, b.ptr, StringBytes(s), b.ptr, b.ptr + b.size);
  }

  /** What writing a string achieves. */
  ghost predicate StringOk(h: Heap, s: Text, w: Outcome) {
    && HeapOk(w.heap) && Kept(h, w.heap) && (w.Failed? ==> w.reason == NoBlock && w.heap == h)
    && (w.Done? ==> StringIn(w.heap, Block(w.ptr, 8 + 2 * |s|), s) && Block(w.ptr, 8 + 2 * |s|) !in h.blocks)
  }

  lemma {:induction false} StringWritten(h: Heap, alloc: Allocator, s: Text)
    requires Sound(alloc) && HeapOk(h)
    ensures StringOk(h, s, WriteString(h, alloc, s))
  {
    var size := 8 + 2 * |s|;
    var w := Malloc(h, alloc, size);
    MallocOk(h, alloc, size);
    KeptRefl(h, {});
    if w.Done? {
      var b := Block(w.ptr, size);
      assert Inside(w.heap.memory, b);
      PutKept(w.heap, b, b.ptr, StringBytes(s));
      PutAt(w.heap.memory, b.ptr, StringBytes(s));
      var h' := WriteString(h, alloc, s).heap;
      KeptButTrans(h, w.heap, h', {}, {b});
      KeptIgnores(h, h', {} + {b}, b);
      assert {} + {b} - {b} == {};
    }
  }

  /** A string that was written reads back, in every later state of the heap that keeps its block. */
  lemma {:induction false} StringRoundTrip(h: Heap, alloc: Allocator, s: Text, later: Heap)
    requires Sound(alloc) && HeapOk(h) && WriteString(h, alloc, s).Done? && Kept(WriteString(h, alloc, s).heap, later)
    ensures ReadString(later.memory, WriteString(h, alloc, s).ptr) == Ok(s)
    ensures Kept(h, later)
  {
    var w := WriteString(h, alloc, s);
    var b := Block(w.ptr, 8 + 2 * |s|);
    StringWritten(h, alloc, s);
    StringKept(w.heap, later, {}, b, s);
    StringReads(later.memory, w.ptr, s);
    KeptButTrans(h, w.heap, later, {}, {});
  }

  // ----- Arrays of scalars -----

  /** The bytes of the elements from number `i` on. */
  function Image(t: ElemType, items: seq<Value>, i: nat): (r: seq<byte>)
    requires t != Str && i <= |items|
    decreases |items| - i
  {
    if i == |items| then [] else ScalarBytes(t, items[i]) + Image(t, items, i + 1)
  }

  lemma {:induction false} ImageSize(t: ElemType, items: seq<Value>, i: nat)
    requires t != Str && i <= |items|
    ensures |Image(t, items, i)| == (|items| - i) * Size(t)
    decreases |items| - i
  {
    if i < |items| {
      ImageSize(t, items, i + 1);
      assert (|items| - i) * Size(t) == Size(t) + (|items| - (i + 1)) * Size(t);
    }
  }

  /** What the elements from number `i` on read back as. */
  function NormalsFrom(t: ElemType, items: seq<Value>, i: nat): (r: seq<Value>)
    requires i <= |items|
    ensures |r| == |items| - i
    decreases |items| - i
  {
    if i == |items| then [] else [Normal(t, items[i])] + NormalsFrom(t, items, i + 1)
  }

  /** The values as the guest's type holds them. */
  function Normals(t: ElemType, items: seq<Value>): seq<Value> { NormalsFrom(t, items, 0) }

  lemma {:induction false} NormalsAt(t: ElemType, items: seq<Value>, i: nat, j: nat)
    requires i <= j < |items|
    ensures NormalsFrom(t, items, i)[j - i] == Normal(t, items[j])
    decreases |items| - i
  {
    if i < j {
      NormalsAt(t, items, i + 1, j);
    }
  }

  /** An array of values of its type reads back as it was. */
  lemma {:induction false} NormalsOfMembers(t: ElemType, items: seq<Value>)
    requires forall v :: v in items ==> Member(t, v)
    ensures Normals(t, items) == items
  {
    forall j | 0 <= j < |items|
      ensures Normals(t, items)[j] == items[j]
    {
      NormalsAt(t, items, 0, j);
      NormalIsIdentity(t, items[j]);
    }
  }

  /** Writing the elements one by one writes their image. */
  lemma {:induction false} FillScalars(shared: bool, h: Heap, alloc: Allocator, t: ElemType, at: nat, items: seq<Value>, i: nat)
    requires t != Str && i <= |items| && at + |Image(t, items, i)| <= |h.memory|
    ensures Fill(shared, h, alloc, t, at, items, i) ==
            Done(h.(memory := Put(h.memory, at, Image(t, items, i))), at + |Image(t, items, i)|)
    decreases |items| - i
  {
    if i == |items| {
      PutNothing(h.memory, at);
    } else {
      var part := ScalarBytes(t, items[i]);
      FillScalars(shared, h.(memory := Put(h.memory, at, part)), alloc, t, at + Size(t), items, i + 1);
      PutPut(h.memory, at, part, Image(t, items, i + 1));
    }
  }

  lemma {:induction false} ScalarReads(m: seq<byte>, t: ElemType, at: nat, v: Value)
    requires t != Str && At(m, at, ScalarBytes(t, v))
    ensures ReadElement(m, t, at) == Ok(Normal(t, v))
  {
    Powers();
    UintReads(m, at, Stored(t, v), Size(t));
  }

  lemma {:induction false} ScalarThen(m: seq<byte>, t: ElemType, at: nat, v: Value, rest: seq<byte>)
    requires t != Str && At(m, at, ScalarBytes(t, v) + rest)
    ensures ReadElement(m, t, at) == Ok(Normal(t, v)) && At(m, at + Size(t), rest)
  {
    AtSplit(m, at, ScalarBytes(t, v), rest);
    ScalarReads(m, t, at, v);
  }

  lemma {:induction false} CollectNext(read: int -> Result<Value>, at: int, size: nat, left: nat, v: Value, vs: seq<Value>)
    requires left > 0 && read(at) == Ok(v) && Collect(read, at + size, size, left - 1) == Ok(vs)
    ensures Collect(read, at, size, left) == Ok([v] + vs)
  {
  }

  lemma {:induction false} ScalarsRead(m: seq<byte>, t: ElemType, at: nat, items: seq<Value>, i: nat)
    requires t != Str && i <= |items| && At(m, at, Image(t, items, i))
    ensures Collect(Reader(m, t), at, Size(t), |items| - i) == Ok(NormalsFrom(t, items, i))
    decreases |items| - i
  {
    if i < |items| {
      ScalarThen(m, t, at, items[i], Image(t, items, i + 1));
      ScalarsRead(m, t, at + Size(t), items, i + 1);
      CollectNext(Reader(m, t), at, Size(t), |items| - i, Normal(t, items[i]), NormalsFrom(t, items, i + 1));
    }
  }

  // ----- Arrays of strings -----

  /** `at`, a place in the array, holds the address of a block holding `s`. */
  ghost predicate Pointed(h: Heap, arr: Block, at: nat, s: Text) {
    exists b :: b != arr && StringIn(h, b, s) && At(h.memory, at, Le(b.ptr, 4))
  }

  ghost predicate Filled(h: Heap, arr: Block, items: seq<Value>, i: nat)
    requires i <= |items|
  {
    forall j {:trigger Spot(arr, j)} :: 0 <= j < i ==> Pointed(h, arr, Spot(arr, j), TextOf(items[j]))
  }

  /** Where element `j` of an array of addresses stands. */
  function Spot(arr: Block, j: nat): nat { arr.ptr + 8 + j * 4 }

  lemma {:induction false} PointedKept(h: Heap, h': Heap, arr: Block, at: nat, s: Text)
    requires Pointed(h, arr, at, s) && KeptBut(h, h', {arr}) && Same(h.memory, h'.memory, at, at + 4)
    ensures Pointed(h', arr, at, s)
  {
    var b :| b != arr && StringIn(h, b, s) && At(h.memory, at, Le(b.ptr, 4));
    StringKept(h, h', {arr}, b, s);
    AtSame(h.memory, h'.memory, at, Le(b.ptr, 4), at, at + 4);
  }

  lemma {:induction false} SameWithin(m: seq<byte>, m': seq<byte>, from: nat, to: nat, a: nat, b: nat)
    requires Same(m, m', from, to) && from <= a && b <= to
    ensures Same(m, m', a, b)
  {
  }

  /** Writing four bytes in an array. */
  lemma {:induction false} StorePart(h: Heap, arr: Block, at: nat, part: seq<byte>)
    requires HeapOk(h) && arr in h.blocks && arr.ptr <= at && at + 4 <= arr.ptr + arr.size && |part| == 4
    ensures var w := Store(h, at, part);
            && w.Done? && w.heap.blocks == h.blocks && HeapOk(w.heap) && KeptBut(h, w.heap, {arr}) && At(w.heap.memory, at, part)
            && Same(h.memory, w.heap.memory, arr.ptr, at)
            && Same(h.memory, w.heap.memory, at + 4, arr.ptr + arr.size)
  {
    assert Inside(h.memory, arr);
    PutKept(h, arr, at, part);
    PutAt(h.memory, at, part);
    PutSame(h.memory, at, part, arr.ptr, at);
    PutSame(h.memory, at, part, at + 4, arr.ptr + arr.size);
  }

  lemma {:induction false} AddressStored(h: Heap, h': Heap, arr: Block, at: nat, b: Block, s: Text)
    requires b != arr && StringIn(h, b, s) && KeptBut(h, h', {arr}) && At(h'.memory, at, Le(b.ptr, 4))
    ensures Pointed(h', arr, at, s)
  {
    StringKept(h, h', {arr}, b, s);
  }

  /** Storing an address in an array. */
  lemma {:induction false} AddressIn(h: Heap, arr: Block, at: nat, b: Block, s: Text, part: seq<byte>)
    requires HeapOk(h) && arr in h.blocks && arr.ptr <= at && at + 4 <= arr.ptr + arr.size
    requires b != arr && StringIn(h, b, s) && part == Le(b.ptr, 4)
    ensures var w := Store(h, at, part);
            && w.Done? && HeapOk(w.heap) && KeptBut(h, w.heap, {arr}) && Pointed(w.heap, arr, at, s)
            && Same(h.memory, w.heap.memory, arr.ptr, at)
            && Same(h.memory, w.heap.memory, at + 4, arr.ptr + arr.size)
  {
    StorePart(h, arr, at, part);
    AddressStored(h, Store(h, at, part).heap, arr, at, b, s);
  }

  /** What writing a string as an element of an array achieves. */
  ghost predicate ElementOk(shared: bool, h: Heap, arr: Block, at: nat, s: Text, w: Outcome) {
    && HeapOk(w.heap) && KeptBut(h, w.heap, {arr})
    && (w.Failed? ==> w.reason == NoBlock || (w.reason == StaleView && !shared))
    && (w.Done? ==>
          && Pointed(w.heap, arr, at, s) && Same(h.memory, w.heap.memory, arr.ptr, at)
          && Same(h.memory, w.heap.memory, at + 4, arr.ptr + arr.size))
  }

  lemma {:induction false} ElementStored(shared: bool, h: Heap, h1: Heap, h': Heap, arr: Block, at: nat, s: Text)
    requires Kept(h, h1) && arr in h.blocks && arr.ptr <= at && at + 4 <= arr.ptr + arr.size
    requires HeapOk(h') && KeptBut(h1, h', {arr}) && Pointed(h', arr, at, s)
    requires Same(h1.memory, h'.memory, arr.ptr, at) && Same(h1.memory, h'.memory, at + 4, arr.ptr + arr.size)
    ensures ElementOk(shared, h, arr, at, s, Done(h', at))
  {
    KeptButTrans(h, h1, h', {}, {arr});
    assert {} + {arr} == {arr};
    assert Unchanged(h.memory, h1.memory, arr);
    SameWithin(h.memory, h1.memory, arr.ptr, arr.ptr + arr.size, arr.ptr, at);
    SameWithin(h.memory, h1.memory, arr.ptr, arr.ptr + arr.size, at + 4, arr.ptr + arr.size);
    SameTrans(h.memory, h1.memory, h'.memory, arr.ptr, at);
    SameTrans(h.memory, h1.memory, h'.memory, at + 4, arr.ptr + arr.size);
  }

  lemma {:induction false} AddressOk(shared: bool, h: Heap, h1: Heap, arr: Block, at: nat, b: Block, s: Text, part: seq<byte>)
    requires arr in h.blocks && arr.ptr <= at && at + 4 <= arr.ptr + arr.size
    requires HeapOk(h1) && Kept(h, h1) && b != arr && StringIn(h1, b, s) && part == Le(b.ptr, 4)
    ensures ElementOk(shared, h, arr, at, s, Store(h1, at, part))
  {
    AddressIn(h1, arr, at, b, s, part);
    ElementStored(shared, h, h1, Store(h1, at, part).heap, arr, at, s);
  }

  lemma {:induction false} AddressWritten(shared: bool, h: Heap, arr: Block, at: nat, s: Text, w: Outcome)
    requires arr in h.blocks && arr.ptr <= at && at + 4 <= arr.ptr + arr.size && Inside(h.memory, arr)
    requires StringOk(h, s, w)
    ensures ElementOk(shared, h, arr, at, s, StoreAddress(shared, |h.memory|, w, at))
  {
    assert KeptBut(h, w.heap, {arr});
    if w.Done? {
      assert w.ptr % B32 == w.ptr;
      AddressOk(shared, h, w.heap, arr, at, Block(w.ptr, 8 + 2 * |s|), s, Le(w.ptr, 4));
    }
  }

  lemma {:induction false} ElementWritten(shared: bool, h: Heap, alloc: Allocator, arr: Block, at: nat, v: Value)
    requires Sound(alloc) && HeapOk(h) && arr in h.blocks && arr.ptr <= at && at + 4 <= arr.ptr + arr.size
    ensures ElementOk(shared, h, arr, at, TextOf(v), WriteElement(shared, h, alloc, Str, at, v))
  {
    assert Inside(h.memory, arr);
    StringWritten(h, alloc, TextOf(v));
    AddressWritten(shared, h, arr, at, TextOf(v), WriteString(h, alloc, TextOf(v)));
  }

  /** The array of `n` strings is there and announces `n`. */
  ghost predicate ArrayIn(h: Heap, arr: Block, n: nat) {
    && arr in h.blocks && 0 < arr.ptr && arr.size == 8 + n * 4 && arr.ptr + arr.size <= B31
    && At(h.memory, arr.ptr, Le(n, 4))
  }

  lemma {:induction false} ArrayStays(h: Heap, h': Heap, arr: Block, n: nat, at: nat)
    requires ArrayIn(h, arr, n) && arr in h'.blocks && arr.ptr + 8 <= at && Same(h.memory, h'.memory, arr.ptr, at)
    ensures ArrayIn(h', arr, n)
  {
    AtSame(h.memory, h'.memory, arr.ptr, Le(n, 4), arr.ptr, at);
  }

  lemma {:induction false} PointedStays(h: Heap, h': Heap, arr: Block, a: nat, at: nat, s: Text)
    requires Pointed(h, arr, a, s) && KeptBut(h, h', {arr}) && arr.ptr <= a && a + 4 <= at
    requires Same(h.memory, h'.memory, arr.ptr, at)
    ensures Pointed(h', arr, a, s)
  {
    SameWithin(h.memory, h'.memory, arr.ptr, at, a, a + 4);
    PointedKept(h, h', arr, a, s);
  }

  lemma {:induction false} FilledNext(h: Heap, h': Heap, arr: Block, items: seq<Value>, i: nat)
    requires i < |items| && Filled(h, arr, items, i) && KeptBut(h, h', {arr})
    requires Same(h.memory, h'.memory, arr.ptr, Spot(arr, i))
    requires Pointed(h', arr, Spot(arr, i), TextOf(items[i]))
    ensures Filled(h', arr, items, i + 1)
  {
    forall j | 0 <= j < i
      ensures Pointed(h', arr, Spot(arr, j), TextOf(items[j]))
    {
      PointedStays(h, h', arr, Spot(arr, j), Spot(arr, i), TextOf(items[j]));
    }
  }

  /** What filling an array with strings achieves. */
  ghost predicate FillOk(shared: bool, h: Heap, arr: Block, items: seq<Value>, w: Outcome) {
    && HeapOk(w.heap) && KeptBut(h, w.heap, {arr})
    && (w.Failed? ==> w.reason == NoBlock || (w.reason == StaleView && !shared))
    && (w.Done? ==> ArrayIn(w.heap, arr, |items|) && Filled(w.heap, arr, items, |items|))
  }

  lemma {:induction false} FillNext(shared: bool, h: Heap, arr: Block, items: seq<Value>, w: Heap, r: Outcome)
    requires KeptBut(h, w, {arr}) && FillOk(shared, w, arr, items, r)
    ensures FillOk(shared, h, arr, items, r)
  {
    KeptButTrans(h, w, r.heap, {arr}, {arr});
    assert {arr} + {arr} == {arr};
  }

  lemma {:induction false} FilledFurther(shared: bool, h: Heap, w: Outcome, arr: Block, at: nat, items: seq<Value>, i: nat)
    requires i < |items| && ArrayIn(h, arr, |items|) && Filled(h, arr, items, i) && at == Spot(arr, i)
    requires w.Done? && ElementOk(shared, h, arr, at, TextOf(items[i]), w)
    ensures ArrayIn(w.heap, arr, |items|) && Filled(w.heap, arr, items, i + 1)
  {
    FilledNext(h, w.heap, arr, items, i);
    ArrayStays(h, w.heap, arr, |items|, at);
  }

  /** What filling the array from number `i` on needs. */
  ghost predicate Filling(h: Heap, arr: Block, at: nat, items: seq<Value>, i: nat) {
    && i <= |items| && at == Spot(arr, i)
    && HeapOk(h) && ArrayIn(h, arr, |items|) && Filled(h, arr, items, i)
  }

  lemma {:induction false} FilledUp(shared: bool, h: Heap, arr: Block, at: nat, items: seq<Value>)
    requires Filling(h, arr, at, items, |items|)
    ensures FillOk(shared, h, arr, items, Done(h, at))
  {
    KeptRefl(h, {arr});
  }

  lemma {:induction false} FillingNext(shared: bool, h: Heap, w: Outcome, arr: Block, at: nat, items: seq<Value>, i: nat)
    requires i < |items| && Filling(h, arr, at, items, i) && ElementOk(shared, h, arr, at, TextOf(items[i]), w)
    ensures if w.Failed? then FillOk(shared, h, arr, items, w) else Filling(w.heap, arr, at + 4, items, i + 1)
  {
    if w.Done? {
      FilledFurther(shared, h, w, arr, at, items, i);
    }
  }

  /** Inside the array, `write` does what writing a string as an element should. */
  ghost predicate WritesStrings(write: (Heap, nat, Value) -> Outcome, shared: bool, arr: Block) {
    forall h, at, v {:trigger write(h, at, v)} ::
      HeapOk(h) && arr in h.blocks && arr.ptr <= at && at + 4 <= arr.ptr + arr.size ==>
        ElementOk(shared, h, arr, at, TextOf(v), write(h, at, v))
  }

  lemma {:induction false} WriterWritesStrings(shared: bool, alloc: Allocator, arr: Block)
    requires Sound(alloc)
    ensures WritesStrings(Writer(shared, alloc, Str), shared, arr)
  {
    var write := Writer(shared, alloc, Str);
    forall h, at, v | HeapOk(h) && arr in h.blocks && arr.ptr <= at && at + 4 <= arr.ptr + arr.size
      ensures ElementOk(shared, h, arr, at, TextOf(v), write(h, at, v))
    {
      ElementWritten(shared, h, alloc, arr, at, v);
    }
  }

  lemma {:induction false} PourStrings(write: (Heap, nat, Value) -> Outcome, shared: bool, h: Heap, arr: Block, at: nat,
                                       items: seq<Value>, i: nat)
    requires WritesStrings(write, shared, arr) && Filling(h, arr, at, items, i)
    ensures FillOk(shared, h, arr, items, Pour(write, h, at, 4, items, i))
    decreases |items| - i
  {
    if i == |items| {
      FilledUp(shared, h, arr, at, items);
    } else {
      var w := write(h, at, items[i]);
      FillingNext(shared, h, w, arr, at, items, i);
      if w.Done? {
        PourStrings(write, shared, w.heap, arr, at + 4, items, i + 1);
        FillNext(shared, h, arr, items, w.heap, Pour(write, w.heap, at + 4, 4, items, i + 1));
      }
    }
  }

  lemma {:induction false} FillStrings(shared: bool, h: Heap, alloc: Allocator, arr: Block, items: seq<Value>)
    requires Sound(alloc) && Filling(h, arr, arr.ptr + 8, items, 0)
    ensures FillOk(shared, h, arr, items, Fill(shared, h, alloc, Str, arr.ptr + 8, items, 0))
  {
    WriterWritesStrings(shared, alloc, arr);
    PourStrings(Writer(shared, alloc, Str), shared, h, arr, arr.ptr + 8, items, 0);
  }

  lemma {:induction false} PointedReads(h: Heap, arr: Block, at: nat, s: Text)
    requires Pointed(h, arr, at, s)
    ensures ReadElement(h.memory, Str, at) == Ok(String(s))
  {
    var b :| b != arr && StringIn(h, b, s) && At(h.memory, at, Le(b.ptr, 4));
    I32Reads(h.memory, at, b.ptr);
    StringReads(h.memory, b.ptr, s);
  }

  /** At every place of the array the reader finds the string that was put there. */
  ghost predicate ReadsStrings(read: int -> Result<Value>, arr: Block, items: seq<Value>) {
    forall j {:trigger Spot(arr, j)} :: 0 <= j < |items| ==> read(Spot(arr, j)) == Ok(Normal(Str, items[j]))
  }

  lemma {:induction false} CollectStrings(read: int -> Result<Value>, arr: Block, at: nat, items: seq<Value>, i: nat)
    requires ReadsStrings(read, arr, items) && i <= |items| && at == Spot(arr, i)
    ensures Collect(read, at, 4, |items| - i) == Ok(NormalsFrom(Str, items, i))
    decreases |items| - i
  {
    if i < |items| {
      assert at + 4 == Spot(arr, i + 1);
      CollectStrings(read, arr, at + 4, items, i + 1);
      CollectNext(read, at, 4, |items| - i, Normal(Str, items[i]), NormalsFrom(Str, items, i + 1));
    }
  }

  lemma {:induction false} StringsRead(h: Heap, arr: Block, items: seq<Value>)
    requires Filled(h, arr, items, |items|)
    ensures ReadsStrings(Reader(h.memory, Str), arr, items)
  {
    forall j | 0 <= j < |items| ensures Reader(h.memory, Str)(Spot(arr, j)) == Ok(Normal(Str, items[j])) {
      PointedReads(h, arr, Spot(arr, j), TextOf(items[j]));
    }
  }

  // ----- Arrays -----

  /** The reader steps through the array as the writer did. */
  predicate StrideAgrees(t: TypeName) { ReadSize(t) == Size(t.base) }

  /** The block for an array, with its length written. */
  ghost predicate Begun(h: Heap, c: Heap, arr: Block, n: nat) {
    && HeapOk(c) && Kept(h, c) && arr in c.blocks && arr !in h.blocks && 0 < arr.ptr && arr.ptr + arr.size <= B31
    && Inside(c.memory, arr) && arr.size >= 8 && n < B31 && At(c.memory, arr.ptr, Le(n, 4))
  }

  lemma {:induction false} BeginArray(h: Heap, alloc: Allocator, size: nat, n: nat)
    requires Sound(alloc) && HeapOk(h) && size >= 8 && n <= size
    ensures var w := Malloc(h, alloc, size);
            && (w.Failed? ==> w.heap == h && w.reason == NoBlock)
            && (w.Done? ==>
                  var c := Store(w.heap, w.ptr, Le(n % B32, 4));
                  c.Done? && Begun(h, c.heap, Block(w.ptr, size), n) && |c.heap.memory| == |w.heap.memory|)
  {
    var w := Malloc(h, alloc, size);
    MallocOk(h, alloc, size);
    if w.Done? {
      var arr := Block(w.ptr, size);
      StorePartOf(h, w.heap, arr, Le(n % B32, 4));
      assert n < B31 ==> n % B32 == n;
    }
  }

  lemma {:induction false} StorePartOf(h: Heap, w: Heap, arr: Block, part: seq<byte>)
    requires HeapOk(w) && Kept(h, w) && arr in w.blocks && arr !in h.blocks && arr.size >= 8 && |part| == 4
    ensures var c := Store(w, arr.ptr, part);
            c.Done? && HeapOk(c.heap) && Kept(h, c.heap) && c.heap.blocks == w.blocks && At(c.heap.memory, arr.ptr, part)
              && Inside(c.heap.memory, arr)
  {
    assert Inside(w.memory, arr);
    PutKept(w, arr, arr.ptr, part);
    PutAt(w.memory, arr.ptr, part);
    var h' := w.(memory := Put(w.memory, arr.ptr, part));
    KeptThrough(h, w, h', arr);
  }

  /** Changes to a block that was not there at the start do not matter. */
  lemma {:induction false} KeptThrough(h: Heap, c: Heap, h': Heap, arr: Block)
    requires Kept(h, c) && KeptBut(c, h', {arr}) && arr !in h.blocks
    ensures Kept(h, h')
  {
    KeptButTrans(h, c, h', {}, {arr});
    KeptIgnores(h, h', {} + {arr}, arr);
    assert {} + {arr} - {arr} == {};
  }

  /** The elements of an array of scalars. */
  lemma {:induction false} ScalarsFilled(shared: bool, h: Heap, c: Heap, alloc: Allocator, t: ElemType, arr: Block, items: seq<Value>)
    requires t != Str && Begun(h, c, arr, |items|) && arr.size == 8 + |items| * Size(t)
    ensures arr.ptr + 8 + |Image(t, items, 0)| == arr.ptr + arr.size
    ensures var w := Fill(shared, c, alloc, t, arr.ptr + 8, items, 0);
            && w.Done? && HeapOk(w.heap) && Kept(h, w.heap) && w.heap.blocks == c.blocks
            && w.heap.memory == Put(c.memory, arr.ptr + 8, Image(t, items, 0))
            && At(w.heap.memory, arr.ptr, Le(|items|, 4)) && At(w.heap.memory, arr.ptr + 8, Image(t, items, 0))
  {
    var image, at := Image(t, items, 0), arr.ptr + 8;
    ImageSize(t, items, 0);
    FillScalars(shared, c, alloc, t, at, items, 0);
    PutKept(c, arr, at, image);
    KeptThrough(h, c, c.(memory := Put(c.memory, at, image)), arr);
    PutAt(c.memory, at, image);
    PutSame(c.memory, at, image, arr.ptr, at);
    AtSame(c.memory, Put(c.memory, at, image), arr.ptr, Le(|items|, 4), arr.ptr, at);
  }

  /** What is left of an array in a later heap: its length and its elements. */
  ghost predicate ArrayHeld(m: seq<byte>, ptr: nat, t: ElemType, items: seq<Value>) {
    && 0 < ptr && I32(m, ptr) == Ok(|items|) && ptr + 8 + |items| * Size(t) <= |m|
    && Collect(Reader(m, t), ptr + 8, Size(t), |items|) == Ok(Normals(t, items))
  }

  lemma {:induction false} ScalarsHeld(h: Heap, later: Heap, t: ElemType, arr: Block, items: seq<Value>)
    requires t != Str && arr in h.blocks && Inside(h.memory, arr) && Kept(h, later) && 0 < arr.ptr && arr.ptr + arr.size <= B31
    requires arr.size == 8 + |items| * Size(t) && arr.size == 8 + |Image(t, items, 0)| && |items| < B31
    requires At(h.memory, arr.ptr, Le(|items|, 4)) && At(h.memory, arr.ptr + 8, Image(t, items, 0))
    ensures ArrayHeld(later.memory, arr.ptr, t, items)
  {
    assert Unchanged(h.memory, later.memory, arr);
    AtSame(h.memory, later.memory, arr.ptr, Le(|items|, 4), arr.ptr, arr.ptr + arr.size);
    AtSame(h.memory, later.memory, arr.ptr + 8, Image(t, items, 0), arr.ptr, arr.ptr + arr.size);
    I32Reads(later.memory, arr.ptr, |items|);
    ScalarsRead(later.memory, t, arr.ptr + 8, items, 0);
  }

  lemma {:induction false} StringsHeld(h: Heap, later: Heap, arr: Block, items: seq<Value>)
    requires ArrayIn(h, arr, |items|) && Filled(h, arr, items, |items|) && Kept(h, later)
    ensures ArrayHeld(later.memory, arr.ptr, Str, items)
  {
    LengthHeld(h, later, arr, |items|);
    FilledHeld(h, later, arr, items);
    StringsRead(later, arr, items);
    CollectStrings(Reader(later.memory, Str), arr, arr.ptr + 8, items, 0);
  }

  lemma {:induction false} LengthHeld(h: Heap, later: Heap, arr: Block, n: nat)
    requires ArrayIn(h, arr, n) && Kept(h, later)
    ensures 0 < arr.ptr && I32(later.memory, arr.ptr) == Ok(n) && arr.ptr + 8 + n * 4 <= |later.memory|
  {
    assert Unchanged(h.memory, later.memory, arr);
    AtSame(h.memory, later.memory, arr.ptr, Le(n, 4), arr.ptr, arr.ptr + arr.size);
    I32Reads(later.memory, arr.ptr, n);
  }

  lemma {:induction false} FilledHeld(h: Heap, later: Heap, arr: Block, items: seq<Value>)
    requires ArrayIn(h, arr, |items|) && Filled(h, arr, items, |items|) && Kept(h, later)
    ensures Filled(later, arr, items, |items|)
  {
    assert Unchanged(h.memory, later.memory, arr);
    assert KeptBut(h, later, {arr});
    forall j | 0 <= j < |items|
      ensures Pointed(later, arr, Spot(arr, j), TextOf(items[j]))
    {
      PointedStays(h, later, arr, Spot(arr, j), arr.ptr + arr.size, TextOf(items[j]));
    }
  }

  /** The distance does not matter for at most one element. */
  lemma {:induction false} ShortElements(read: int -> Result<Value>, at: nat, a: nat, b: nat, n: nat)
    requires a == b || n <= 1
    ensures Collect(read, at, a, n) == Collect(read, at, b, n)
  {
  }

  lemma {:induction false} HeldReads(m: seq<byte>, ptr: nat, t: TypeName, items: seq<Value>)
    requires ArrayHeld(m, ptr, t.base, items) && (StrideAgrees(t) || |items| <= 1)
    ensures ReadArray(m, ptr, t) == Ok(Normals(t.base, items))
  {
    ShortElements(Reader(m, t.base), ptr + 8, Size(t.base), ReadSize(t), |items|);
  }
}
