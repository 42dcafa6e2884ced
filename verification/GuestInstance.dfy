/** The methods of an instance that write to and read from guest memory, proved against `GuestHeap`. */
module GuestInstance {
  import opened Containers
  import opened Bytes
  import opened GuestHeap
  import opened GuestHeapProofs
  import opened GuestHeapResults

  /** Writing an element inside the block of its array leaves a good heap that still has the block. */
  lemma {:induction false} ElementKeeps(shared: bool, h: Heap, alloc: Allocator, t: ElemType, arr: Block, at: nat, v: Value)
    requires Sound(alloc) && HeapOk(h) && arr in h.blocks && arr.ptr <= at && at + Size(t) <= arr.ptr + arr.size
    ensures var w := WriteElement(shared, h, alloc, t, at, v);
            HeapOk(w.heap) && arr in w.heap.blocks
  {
    if t == Str {
      ElementWritten(shared, h, alloc, arr, at, v);
    } else {
      assert Inside(h.memory, arr);
      PutKept(h, arr, at, ScalarBytes(t, v));
    }
  }

  lemma {:induction false} NextSpot(i: nat, n: nat, size: nat)
    requires i < n
    ensures (i + 1) * size == i * size + size <= n * size
  {
    assert n * size == i * size + (n - i) * size;
    assert (n - i) * size == size + (n - i - 1) * size;
    NotNegative(n - i - 1, size);
  }

  lemma {:induction false} NotNegative(a: nat, b: nat)
    ensures a * b >= 0
  {
  }

  /** Copying bytes in bulk writes what writing them one by one would. */
  lemma {:induction false} BulkImage(items: seq<Value>, bytes: seq<byte>, i: nat)
    requires |bytes| == |items| && i <= |items|
    requires forall j :: 0 <= j < |items| ==> bytes[j] == Stored(Byte, items[j])
    ensures Image(Byte, items, i) == bytes[i..]
    decreases |items| - i
  {
    if i < |items| {
      BulkImage(items, bytes, i + 1);
      assert Le(bytes[i], 1) == [bytes[i]] + Le(bytes[i] / 256, 0);
      assert bytes[i..] == [bytes[i]] + bytes[i + 1..];
    }
  }

  lemma {:induction false} BulkFill(shared: bool, h: Heap, alloc: Allocator, at: nat, items: seq<Value>, bytes: seq<byte>)
    requires |bytes| == |items| && at + |items| <= |h.memory|
    requires forall j :: 0 <= j < |items| ==> bytes[j] == Stored(Byte, items[j])
    ensures Fill(shared, h, alloc, Byte, at, items, 0) == Done(h.(memory := Put(h.memory, at, bytes)), at + |bytes|)
  {
    BulkImage(items, bytes, 0);
    assert bytes[0..] == bytes;
    FillScalars(shared, h, alloc, Byte, at, items, 0);
  }

  /** The first `k` of the elements that are read. */
  lemma {:induction false} CollectSplit(read: int -> Result<Value>, at: int, size: nat, left: nat, done: seq<Value>)
    requires left > 0
    ensures read(at).Thrown? ==> Collect(read, at, size, left).Thrown?
    ensures read(at).Ok? ==>
              Prefixed(done, Collect(read, at, size, left)) ==
              Prefixed(done + [read(at).value], Collect(read, at + size, size, left - 1))
  {
    var v, rest := read(at), Collect(read, at + size, size, left - 1);
    if v.Ok? && rest.Ok? {
      assert done + ([v.value] + rest.value) == done + [v.value] + rest.value;
    }
  }

  function Prefixed(done: seq<Value>, r: Result<seq<Value>>): Result<seq<Value>> {
    if r.Ok? then Ok(done + r.value) else Thrown
  }

  lemma {:induction false} PrefixedByNothing(r: Result<seq<Value>>)
    ensures Prefixed([], r) == r
  {
    if r.Ok? {
      assert [] + r.value == r.value;
    }
  }

  class Instance {
    const alloc: Allocator
    const shared: bool
    var memory: seq<byte>
    var blocks: set<Block>

    ghost function Model(): Heap
      reads this
    {
      Heap(memory, blocks)
    }

    constructor (alloc: Allocator, shared: bool)
      ensures Model() == Heap([], {}) && this.alloc == alloc && this.shared == shared
    {
      this.alloc, this.shared := alloc, shared;
      memory, blocks := [], {};
    }

    method GuestMalloc(size: nat) returns (ok: bool, ptr: nat)
      modifies this
      ensures var w := Malloc(old(Model()), alloc, size);
              Model() == w.heap && ok == w.Done? && (ok ==> ptr == w.ptr)
    {
      match alloc(Heap(memory, blocks), size) {
        case Refused =>
          return false, 0;
        case Granted(p, m) =>
          memory, blocks := m, blocks + {Block(p, size)};
          return true, p;
      }
    }

    method WriteString(str: Text) returns (ok: bool, ptr: nat)
      requires Sound(alloc) && HeapOk(Model())
      modifies this
      ensures var w := GuestHeap.WriteString(old(Model()), alloc, str);
              Model() == w.heap && ok == w.Done? && (ok ==> ptr == w.ptr)
    {
      MallocOk(Model(), alloc, 8 + 2 * |str|);
      ok, ptr := GuestMalloc(8 + 2 * |str|);
      if !ok {
        return;
      }
      assert Inside(memory, Block(ptr, 8 + 2 * |str|));
      StoreString(ptr, str);
    }

    /** Writes the length, the pad and the units of a string. */
    method StoreString(ptr: nat, str: Text)
      requires ptr + 8 + 2 * |str| <= |memory|
      modifies `memory
      ensures memory == Put(old(memory), ptr, StringBytes(str))
    {
      ghost var granted, head := memory, Le(|str| % B32, 4) + Le(0, 4);
      memory := Put(memory, ptr, Le(|str| % B32, 4));
      memory := Put(memory, ptr + 4, Le(0, 4));
      PutPut(granted, ptr, Le(|str| % B32, 4), Le(0, 4));
      assert head + Utf16(str, 0) == head;
      for i := 0 to |str|
        invariant |memory| == |granted| && memory == Put(granted, ptr, head + Utf16(str, i))
      {
        memory := Put(memory, ptr + 8 + 2 * i, Le(str[i], 2));
        PutPut(granted, ptr, head + Utf16(str, i), Le(str[i], 2));
        Regroup(head, Utf16(str, i), Le(str[i], 2));
      }
    }

    method StringUnitsStart(ptr: int) returns (r: Result<int>)
      ensures r == UnitsStart(memory, ptr)
    {
      var pad := I32(memory, ptr + 4);
      if pad.Thrown? {
        return Thrown;
      }
      if pad.value == 1 {
        return I32(memory, ptr + 12);
      }
      return Ok(ptr + 8);
    }

    method ReadString(ptr: int) returns (r: Result<Text>)
      ensures r == GuestHeap.ReadString(memory, ptr)
    {
      if ptr == 0 {
        return Ok([]);
      }
      var n := I32(memory, ptr);
      if n.Thrown? {
        return Thrown;
      }
      if n.value <= 0 {
        return Ok([]);
      }
      var start := StringUnitsStart(ptr);
      if start.Thrown? {
        return Thrown;
      }
      var sliced := SliceUnits(memory, start.value, start.value + n.value * 2);
      if sliced.Thrown? {
        return Thrown;
      }
      var u16 := sliced.value;
      if |u16| <= 8192 {
        return Ok(u16);
      }
      var s, i := [], 0;
      while i < |u16|
        invariant 0 <= i && s == u16[..if i < |u16| then i else |u16|]
      {
        s := s + u16[i..if i + 8192 < |u16| then i + 8192 else |u16|];
        i := i + 8192;
      }
      assert s == u16;
      return Ok(s);
    }

    method WriteElement(at: nat, t: ElemType, v: Value) returns (ok: bool)
      requires Sound(alloc) && HeapOk(Model()) && (t != Str ==> at + Size(t) <= |memory|)
      modifies this
      ensures var w := GuestHeap.WriteElement(shared, old(Model()), alloc, t, at, v);
              Model() == w.heap && ok == w.Done?
    {
      if t != Str {
        memory := Put(memory, at, ScalarBytes(t, v));
        return true;
      }
      var length := |memory|;
      var ptr;
      ok, ptr := WriteString(TextOf(v));
      if !ok {
        return;
      }
      StringWritten(old(Model()), alloc, TextOf(v));
      if (!shared && |memory| != length) || at + 4 > length {
        return false;
      }
      memory := Put(memory, at, Le(ptr % B32, 4));
    }

    /** Gets the block for an array and writes its length. */
    method BeginArray(n: nat, size: nat) returns (ok: bool, ptr: nat)
      requires Sound(alloc) && HeapOk(Model()) && size >= 8 && n <= size
      modifies this
      ensures var w := Malloc(old(Model()), alloc, size);
              && ok == w.Done?
              && if ok then
                   && ptr == w.ptr && Begun(old(Model()), Model(), Block(ptr, size), n)
                   && Store(w.heap, w.ptr, Le(n % B32, 4)) == Done(Model(), ptr)
                 else Model() == w.heap
    {
      GuestHeapProofs.BeginArray(Model(), alloc, size, n);
      ok, ptr := GuestMalloc(size);
      if ok {
        memory := Put(memory, ptr, Le(n % B32, 4));
      }
    }

    method WriteArray(items: seq<Value>, t: ElemType) returns (ok: bool, ptr: nat)
      requires Sound(alloc) && HeapOk(Model())
      modifies this
      ensures var w := GuestHeap.WriteArray(shared, old(Model()), alloc, t, items);
              Model() == w.heap && ok == w.Done? && (ok ==> ptr == w.ptr)
    {
      var size := Size(t);
      CountFits(|items|, size);
      ok, ptr := BeginArray(|items|, 8 + |items| * size);
      if !ok {
        return;
      }
      FromStart(shared, old(Model()), alloc, t, items, Malloc(old(Model()), alloc, 8 + |items| * size), Done(Model(), ptr));
      if t == Byte {
        CopyBytes(items, ptr);
      } else {
        ok := FillArray(items, t, ptr);
      }
    }

    /** The bulk copy of `WriteArray`. */
    method CopyBytes(items: seq<Value>, ptr: nat)
      requires ptr + 8 + |items| <= |memory|
      modifies this`memory
      ensures var w := Fill(shared, old(Model()), alloc, Byte, ptr + 8, items, 0);
              w.Done? && Model() == w.heap
    {
      var bytes := seq(|items|, i requires 0 <= i < |items| => Stored(Byte, items[i]));
      BulkFill(shared, Model(), alloc, ptr + 8, items, bytes);
      memory := Put(memory, ptr + 8, bytes);
    }

    /** The element loop of `WriteArray`; addresses are added up rather than multiplied out. */
    method FillArray(items: seq<Value>, t: ElemType, ptr: nat) returns (ok: bool)
      requires Sound(alloc) && HeapOk(Model()) && Block(ptr, 8 + |items| * Size(t)) in blocks
      modifies this
      ensures var w := Fill(shared, old(Model()), alloc, t, ptr + 8, items, 0);
              Model() == w.heap && ok == w.Done?
    {
      var size := Size(t);
      ghost var arr := Block(ptr, 8 + |items| * size);
      ghost var all := Fill(shared, Model(), alloc, t, ptr + 8, items, 0);
      var at := ptr + 8;
      for i := 0 to |items|
        invariant HeapOk(Model()) && arr in blocks
        invariant at == ptr + 8 + i * size && Fill(shared, Model(), alloc, t, at, items, i) == all
      {
        NextSpot(i, |items|, size);
        ok := FillOne(items, t, at, i, arr);
        if !ok {
          return;
        }
        at := at + size;
      }
      return true;
    }

    /** One turn of that loop. */
    method FillOne(items: seq<Value>, t: ElemType, at: nat, i: nat, ghost arr: Block) returns (ok: bool)
      requires Sound(alloc) && HeapOk(Model()) && arr in blocks && i < |items|
      requires arr.ptr <= at && at + Size(t) <= arr.ptr + arr.size
      modifies this
      ensures HeapOk(Model()) && arr in blocks
      ensures var all := Fill(shared, old(Model()), alloc, t, at, items, i);
              if ok then all == Fill(shared, Model(), alloc, t, at + Size(t), items, i + 1) else all.Failed? && Model() == all.heap
    {
      assert Inside(memory, arr);
      ElementKeeps(shared, Model(), alloc, t, arr, at, items[i]);
      ok := WriteElement(at, t, items[i]);
    }

    method ReadElement(at: int, t: ElemType) returns (r: Result<Value>)
      ensures r == GuestHeap.ReadElement(memory, t, at)
    {
      if t != Str {
        return ReadScalar(memory, t, at);
      }
      var ptr := I32(memory, at);
      if ptr.Thrown? {
        return Thrown;
      }
      var s := ReadString(ptr.value);
      return if s.Ok? then Ok(String(s.value)) else Thrown;
    }

    method ReadArray(ptr: int, t: TypeName) returns (r: Result<seq<Value>>)
      ensures r == GuestHeap.ReadArray(memory, ptr, t)
    {
      if ptr == 0 {
        return Ok([]);
      }
      var count := I32(memory, ptr);
      if count.Thrown? || count.value < 0 {
        return Thrown;
      }
      var n := count.value;
      if t == TypeName(Byte, false) && !(0 <= ptr + 8 && ptr + 8 + n <= |memory|) {
        return Thrown;
      }
      r := ReadAll(ptr + 8, t.base, ReadSize(t), n);
    }

    /** The element loop of `ReadArray`; addresses are added up rather than multiplied out. */
    method ReadAll(start: int, t: ElemType, size: nat, n: nat) returns (r: Result<seq<Value>>)
      ensures r == Collect(Reader(memory, t), start, size, n)
    {
      var out := [];
      var at := start;
      ghost var read := Reader(memory, t);
      ghost var all := Collect(read, start, size, n);
      PrefixedByNothing(all);
      for i := 0 to n
        invariant Prefixed(out, Collect(read, at, size, n - i)) == all
      {
        CollectSplit(read, at, size, n - i, out);
        var v := ReadElement(at, t);
        if v.Thrown? {
          return Thrown;
        }
        out, at := out + [v.value], at + size;
      }
      assert out + [] == out;
      return Ok(out);
    }
  }
}
