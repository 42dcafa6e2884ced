/** Strings and arrays in the memory of a guest: what the host writes and what it reads.

The guest's allocator is a parameter: a function from the memory and the blocks handed out so far to
the block it grants.  It may grow the memory and write outside the blocks already handed out.
 */
module GuestHeap {
  import opened Bytes

  /** A UTF-16 code unit. */
  type unit = x: int | 0 <= x < 0x1_0000

  type Text = seq<unit>

  datatype Result<+T> = Ok(value: T) | Thrown

  // ----- Element types -----

  datatype ElemType = Int | UInt | Byte | Bool | Long | ULong | Str

  /** A type as it is named, possibly with the suffix `?`. */
  datatype TypeName = TypeName(base: ElemType, optional: bool)

  /** A host value; `Undefined` stands for null as well. */
  datatype Value = Num(n: int) | Flag(b: bool) | String(s: Text) | Undefined

  function Size(t: ElemType): nat {
    match t
    case Byte => 1
    case Bool => 1
    case Long => 8
    case ULong => 8
    case _ => 4
  }

  /** The distance of elements for the reader, which looks the name up with its suffix. */
  function ReadSize(t: TypeName): nat { if t.optional then 4 else Size(t.base) }

  function Modulus(t: ElemType): nat { if Size(t) == 1 then 256 else if Size(t) == 4 then B32 else B64 }

  function ToNum(v: Value): int {
    match v
    case Num(n) => n
    case Flag(b) => if b then 1 else 0
    case _ => 0
  }

  function TextOf(v: Value): Text { if v.String? then v.s else [] }

  /** The number an element other than a string is stored as. */
  function Stored(t: ElemType, v: Value): (r: nat)
    ensures r < Modulus(t)
  {
    if t == Bool then (if ToNum(v) != 0 then 1 else 0) else ToNum(v) % Modulus(t)
  }

  function Meaning(t: ElemType, u: nat): Value {
    match t
    case Int => Num(Signed(u, B32))
    case Long => Num(Signed(u, B64))
    case Bool => Flag(u != 0)
    case _ => Num(u)
  }

  /** The value as the guest's type holds it. */
  function Normal(t: ElemType, v: Value): Value {
    if t == Str then String(TextOf(v)) else Meaning(t, Stored(t, v))
  }

  /** The values of the type. */
  predicate Member(t: ElemType, v: Value) {
    match t
    case Int => v.Num? && -B31 <= v.n < B31
    case UInt => v.Num? && 0 <= v.n < B32
    case Byte => v.Num? && 0 <= v.n < 256
    case Bool => v.Flag?
    case Long => v.Num? && -B64 / 2 <= v.n < B64 / 2
    case ULong => v.Num? && 0 <= v.n < B64
    case Str => v.String?
  }

  // ----- Reading -----

  function I32(m: seq<byte>, at: int): Result<int> {
    if 0 <= at && at + 4 <= |m| then Ok(Signed(Uint(m, at, 4), B32)) else Thrown
  }

  /** Where a slice bound falls in a buffer of length `n`; negative bounds count from the end. */
  function Clip(i: int, n: nat): (r: nat)
    ensures r <= n
  {
    if i < 0 then (if n + i < 0 then 0 else n + i) else if i > n then n else i
  }

  function Units(m: seq<byte>, start: nat, n: nat): (r: Text)
    requires start + 2 * n <= |m|
    ensures |r| == n
  {
    seq(n, i requires 0 <= i < n => Uint16(m, start + 2 * i))
  }

  function Uint16(m: seq<byte>, at: nat): unit
    requires at + 2 <= |m|
  {
    m[at] as int + 256 * m[at + 1] as int
  }

  /** The units of the buffer slice from `start` to `end`, which must hold whole units. */
  function SliceUnits(m: seq<byte>, start: int, end: int): Result<Text> {
    var lo, hi := Clip(start, |m|), Clip(end, |m|);
    if hi <= lo then Ok([]) else if (hi - lo) % 2 != 0 then Thrown else Ok(Units(m, lo, (hi - lo) / 2))
  }

  /** A string that is a slice has 1 after its length, and the address of its units at offset 12. */
  function UnitsStart(m: seq<byte>, ptr: int): Result<int> {
    match I32(m, ptr + 4)
    case Thrown => Thrown
    case Ok(pad) => if pad == 1 then I32(m, ptr + 12) else Ok(ptr + 8)
  }

  function ReadString(m: seq<byte>, ptr: int): Result<Text> {
    if ptr == 0 then Ok([])
    else
      match I32(m, ptr)
      case Thrown => Thrown
      case Ok(n) =>
        if n <= 0 then Ok([])
        else
          match UnitsStart(m, ptr)
          case Thrown => Thrown
          case Ok(start) => SliceUnits(m, start, start + n * 2)
  }

  /** Single bytes are read through a typed array, which has no bounds error. */
  function ReadScalar(m: seq<byte>, t: ElemType, at: int): Result<Value> {
    if 0 <= at && at + Size(t) <= |m| then Ok(Meaning(t, Uint(m, at, Size(t))))
    else if t == Byte then Ok(Undefined)
    else if t == Bool then Ok(Flag(true))
    else Thrown
  }

  function ReadElement(m: seq<byte>, t: ElemType, at: int): Result<Value> {
    if t != Str then ReadScalar(m, t, at)
    else
      match I32(m, at)
      case Thrown => Thrown
      case Ok(ptr) =>
        match ReadString(m, ptr)
        case Thrown => Thrown
        case Ok(s) => Ok(String(s))
  }

  function Reader(m: seq<byte>, t: ElemType): int -> Result<Value> { at => ReadElement(m, t, at) }

  /** What is read at `left` places, `size` apart, from `at` on. */
  function Collect(read: int -> Result<Value>, at: int, size: nat, left: nat): (r: Result<seq<Value>>)
    ensures r.Ok? ==> |r.value| == left
    decreases left
  {
    if left == 0 then Ok([])
    else
      match read(at)
      case Thrown => Thrown
      case Ok(v) =>
        match Collect(read, at + size, size, left - 1)
        case Thrown => Thrown
        case Ok(vs) => Ok([v] + vs)
  }

  function ReadArray(m: seq<byte>, ptr: int, t: TypeName): Result<seq<Value>> {
    if ptr == 0 then Ok([])
    else
      match I32(m, ptr)
      case Thrown => Thrown
      case Ok(count) =>
        if count < 0 then Thrown
        else if t == TypeName(Byte, false) && !(0 <= ptr + 8 && ptr + 8 + count <= |m|) then Thrown
        else Collect(Reader(m, t.base), ptr + 8, ReadSize(t), count)
  }

  // ----- The heap -----

  datatype Block = Block(ptr: nat, size: nat)

  datatype Heap = Heap(memory: seq<byte>, blocks: set<Block>)

  datatype Grant = Refused | Granted(ptr: nat, memory: seq<byte>)

  type Allocator = (Heap, nat) -> Grant

  predicate Separate(a: Block, b: Block) { a.ptr + a.size <= b.ptr || b.ptr + b.size <= a.ptr }

  ghost predicate Unchanged(m: seq<byte>, m': seq<byte>, b: Block) { Same(m, m', b.ptr, b.ptr + b.size) }

  /** The granted block is fresh and below 2^31, and the blocks in use are untouched. */
  ghost predicate GrantOk(h: Heap, size: nat, g: Grant)
    requires g.Granted?
  {
    && 0 < g.ptr && g.ptr + size <= B31 && g.ptr + size <= |g.memory| && |h.memory| <= |g.memory|
    && (forall b {:trigger Separate(b, Block(g.ptr, size))} {:trigger Unchanged(h.memory, g.memory, b)} ::
          b in h.blocks ==> Separate(b, Block(g.ptr, size)) && Unchanged(h.memory, g.memory, b))
  }

  ghost predicate GrantsWell(alloc: Allocator, h: Heap, size: nat) {
    HeapOk(h) && alloc(h, size).Granted? ==> GrantOk(h, size, alloc(h, size))
  }

  ghost predicate Sound(alloc: Allocator) {
    forall h, size {:trigger GrantsWell(alloc, h, size)} :: GrantsWell(alloc, h, size)
  }

  predicate Inside(m: seq<byte>, b: Block) { b.size > 0 && b.ptr + b.size <= |m| }

  ghost predicate HeapOk(h: Heap) {
    && (forall b {:trigger Inside(h.memory, b)} :: b in h.blocks ==> Inside(h.memory, b))
    && (forall a, b {:trigger Separate(a, b)} :: a in h.blocks && b in h.blocks && a != b ==> Separate(a, b))
  }

  /** The blocks of `h` are still there in `h'`, with the same contents; `but` may have changed. */
  ghost predicate KeptBut(h: Heap, h': Heap, but: set<Block>) {
    && |h.memory| <= |h'.memory| && h.blocks <= h'.blocks
    && (forall b {:trigger Unchanged(h.memory, h'.memory, b)} ::
          b in h.blocks && b !in but ==> Unchanged(h.memory, h'.memory, b))
  }

  ghost predicate Kept(h: Heap, h': Heap) { KeptBut(h, h', {}) }

  // ----- Writing -----

  /** Why a write did not complete: no block, or the memory grew under a view that was in use. */
  datatype Reason = NoBlock | StaleView | OutOfRange

  datatype Outcome = Done(heap: Heap, ptr: nat) | Failed(heap: Heap, reason: Reason)

  function Malloc(h: Heap, alloc: Allocator, size: nat): Outcome {
    match alloc(h, size)
    case Refused => Failed(h, NoBlock)
    case Granted(ptr, memory) => Done(Heap(memory, h.blocks + {Block(ptr, size)}), ptr)
  }

  function Store(h: Heap, at: nat, part: seq<byte>): Outcome {
    if at + |part| <= |h.memory| then Done(h.(memory := Put(h.memory, at, part)), at) else Failed(h, OutOfRange)
  }

  /** The first `n` units, lowest byte first. */
  function Utf16(s: Text, n: nat): (r: seq<byte>)
    requires n <= |s|
    ensures |r| == 2 * n
  {
    if n == 0 then [] else Utf16(s, n - 1) + Le(s[n - 1], 2)
  }

  function StringBytes(s: Text): (r: seq<byte>)
    ensures |r| == 8 + 2 * |s|
  {
    Le(|s| % B32, 4) + Le(0, 4) + Utf16(s, |s|)
  }

  function WriteString(h: Heap, alloc: Allocator, s: Text): Outcome {
    var w := Malloc(h, alloc, 8 + 2 * |s|);
    if w.Failed? then w else Store(w.heap, w.ptr, StringBytes(s))
  }

  function ScalarBytes(t: ElemType, v: Value): (r: seq<byte>)
    requires t != Str
    ensures |r| == Size(t)
  {
    Le(Stored(t, v), Size(t))
  }

  /** Stores the address of a string that was written as `w`.  The view used for that was taken before,
  when the memory had length `length`: if it has grown since, the view is stale, unless memory is shared. */
  function StoreAddress(shared: bool, length: nat, w: Outcome, at: nat): Outcome {
    if w.Failed? then w
    else if !shared && |w.heap.memory| != length then Failed(w.heap, StaleView)
    else if at + 4 > length then Failed(w.heap, OutOfRange)
    else Store(w.heap, at, Le(w.ptr % B32, 4))
  }

  function WriteElement(shared: bool, h: Heap, alloc: Allocator, t: ElemType, at: nat, v: Value): Outcome {
    if t != Str then Store(h, at, ScalarBytes(t, v))
    else StoreAddress(shared, |h.memory|, WriteString(h, alloc, TextOf(v)), at)
  }

  function Writer(shared: bool, alloc: Allocator, t: ElemType): (Heap, nat, Value) -> Outcome {
    (h: Heap, at: nat, v: Value) => WriteElement(shared, h, alloc, t, at, v)
  }

  /** Writes the elements from number `i` on, `size` apart, from `at` on. */
  function Pour(write: (Heap, nat, Value) -> Outcome, h: Heap, at: nat, size: nat, items: seq<Value>, i: nat): Outcome
    requires i <= |items|
    decreases |items| - i
  {
    if i == |items| then Done(h, at)
    else
      var w := write(h, at, items[i]);
      if w.Failed? then w else Pour(write, w.heap, at + size, size, items, i + 1)
  }

  function Fill(shared: bool, h: Heap, alloc: Allocator, t: ElemType, at: nat, items: seq<Value>, i: nat): Outcome
    requires i <= |items|
  {
    Pour(Writer(shared, alloc, t), h, at, Size(t), items, i)
  }

  function WriteArray(shared: bool, h: Heap, alloc: Allocator, t: ElemType, items: seq<Value>): Outcome {
    var w := Malloc(h, alloc, 8 + |items| * Size(t));
    if w.Failed? then w
    else
      var c := Store(w.heap, w.ptr, Le(|items| % B32, 4));
      if c.Failed? then c
      else
        var f := Fill(shared, c.heap, alloc, t, w.ptr + 8, items, 0);
        if f.Failed? then f else Done(f.heap, w.ptr)
  }
}
