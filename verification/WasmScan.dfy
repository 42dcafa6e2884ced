/** The scanner that finds out whether a WebAssembly module imports shared memory
(`memoryImportIsShared`), and the writer of LEB128 numbers and custom sections on the compiler side.

Sizes are exact integers here; the scanner computes them in doubles, which agree up to 2^53.
 */
module WasmScan {
  import opened Bytes

  // ----- Writer -----

  /** The shortest LEB128 form of `n`. */
  function Uleb(n: nat): (out: seq<byte>)
    ensures |out| > 0
  {
    if n < 128 then [n] else [n % 128 + 128] + Uleb(n / 128)
  }

  method Uleb32(value: nat) returns (out: seq<byte>)
    requires value < B32
    ensures out == Uleb(value)
  {
    var n := value;
    out := [];
    while true
      invariant out + Uleb(n) == Uleb(value)
      decreases n
    {
      var b := n % 128;
      var more := n / 128;
      if more != 0 {
        b := b + 128;
      }
      assert Uleb(n) == [b] + if more != 0 then Uleb(more) else [];
      out := out + [b];
      n := more;
      if n == 0 {
        break;
      }
    }
  }

  /** What a custom section called `name` holds; lengths are written as 32-bit numbers. */
  function CustomBody(name: seq<byte>, payload: seq<byte>): seq<byte> {
    Uleb(|name| % B32) + name + payload
  }

  function CustomSection(name: seq<byte>, payload: seq<byte>): seq<byte> {
    var body := CustomBody(name, payload);
    [0] + Uleb(|body| % B32) + body
  }

  method WasmCustomSection(name: seq<byte>, payload: seq<byte>) returns (sec: seq<byte>)
    ensures sec == CustomSection(name, payload)
  {
    var body := Uleb32(|name| % B32);
    body := body + name;
    body := body + payload;
    sec := [0];
    var size := Uleb32(|body| % B32);
    sec := sec + size;
    sec := sec + body;
  }

  // ----- Scanner -----

  /** The number at `pos` and the position after it; past the end a byte reads as the end of a number. */
  function Leb(u8: seq<byte>, pos: nat): (r: (nat, nat))
    ensures r.1 > pos
    decreases |u8| - pos
  {
    if pos >= |u8| then (0, pos + 1)
    else if u8[pos] < 128 then (u8[pos], pos + 1)
    else
      var (high, next) := Leb(u8, pos + 1);
      (u8[pos] - 128 + 128 * high, next)
  }

  /** The flags of a limits record and the position after it. */
  function Limits(u8: seq<byte>, pos: nat): (r: (nat, nat))
    ensures r.1 > pos
  {
    var (flags, p1) := Leb(u8, pos);
    var p2 := Leb(u8, p1).1;
    (flags, if HasMax(flags) then Leb(u8, p2).1 else p2)
  }

  /** Bit 0 of the flags: a maximum follows. */
  predicate HasMax(flags: nat) { if flags < 2 then flags == 1 else HasMax(flags - 2) }

  /** Bit 1 of the flags: the memory is shared. */
  predicate SharedFlag(flags: nat) { if flags < 4 then flags >= 2 else SharedFlag(flags - 4) }

  /** The two predicates are the bits that the scanner masks out. */
  lemma {:induction false} FlagBits(flags: nat)
    ensures HasMax(flags) <==> flags % 2 == 1
    ensures SharedFlag(flags) <==> flags / 2 % 2 == 1
    decreases flags
  {
    if flags >= 4 {
      FlagBits(flags - 4);
      assert HasMax(flags) == HasMax(flags - 2) == HasMax(flags - 4);
      FourMore(flags - 4);
    }
  }

  lemma {:induction false} FourMore(n: nat)
    ensures (n + 4) % 2 == n % 2 && (n + 4) / 2 % 2 == n / 2 % 2
  {
  }

  /** The position of the kind byte of the import at `pos`. */
  function KindAt(u8: seq<byte>, pos: nat): (r: nat)
    ensures r > pos
  {
    var (moduleLen, p1) := Leb(u8, pos);
    var (nameLen, p2) := Leb(u8, p1 + moduleLen);
    p2 + nameLen
  }

  /** The position after an import whose kind byte, neither 2 nor unknown, is at `k`. */
  function AfterImport(u8: seq<byte>, k: nat): (r: nat)
    requires k < |u8|
    ensures r > k
  {
    if u8[k] == 0 then Leb(u8, k + 1).1
    else if u8[k] == 1 then Limits(u8, k + 2).1
    else k + 3
  }

  /** Looks for a memory among `left` imports from `pos`, not going past `end`. */
  function ScanImports(u8: seq<byte>, pos: nat, end: nat, left: nat): bool
    decreases |u8| - pos
  {
    if left == 0 || pos >= end then false
    else
      var k := KindAt(u8, pos);
      if k >= |u8| then false
      else if u8[k] == 2 then SharedFlag(Limits(u8, k + 1).0)
      else if u8[k] > 3 then false
      else ScanImports(u8, AfterImport(u8, k), end, left - 1)
  }

  /** The import section: where its imports start, where it ends, and how many imports it announces. */
  datatype Located = Absent | Present(start: nat, end: nat, count: nat)

  /** Looks for the import section among the sections from `pos` on. */
  function Locate(u8: seq<byte>, pos: nat): Located
    decreases |u8| - pos
  {
    if pos >= |u8| then Absent
    else
      var (size, p) := Leb(u8, pos + 1);
      if u8[pos] != 2 then Locate(u8, p + size)
      else
        var (count, q) := Leb(u8, p);
        Present(q, p + size, count)
  }

  function ScanLocated(u8: seq<byte>, at: Located): bool {
    at.Present? && ScanImports(u8, at.start, at.end, at.count)
  }

  /** The answer for a module: the section list starts after magic and version. */
  function Scan(u8: seq<byte>): bool { ScanLocated(u8, Locate(u8, 8)) }

  method ReadLeb(u8: seq<byte>, start: nat) returns (result: nat, pos: nat)
    ensures (result, pos) == Leb(u8, start)
  {
    result, pos := 0, start;
    var scale := 1;
    while true
      invariant pos >= start && scale >= 1
      invariant Leb(u8, start) == (result + scale * Leb(u8, pos).0, Leb(u8, pos).1)
      decreases |u8| - pos
    {
      if pos >= |u8| {
        return result, pos + 1;
      }
      var b := u8[pos];
      ghost var rest := Leb(u8, pos + 1).0;
      pos := pos + 1;
      if b < 128 {
        return result + scale * b, pos;
      }
      ScaleStep(scale, b - 128, rest);
      result := result + scale * (b - 128);
      scale := scale * 128;
    }
  }

  lemma {:induction false} ScaleStep(scale: nat, low: nat, high: nat)
    ensures scale * (low + 128 * high) == scale * low + scale * 128 * high
  {
  }

  method ReadLimits(u8: seq<byte>, start: nat) returns (flags: nat, pos: nat)
    ensures (flags, pos) == Limits(u8, start)
  {
    flags, pos := ReadLeb(u8, start);
    var unused;
    unused, pos := ReadLeb(u8, pos);
    FlagBits(flags);
    if flags % 2 == 1 {
      unused, pos := ReadLeb(u8, pos);
    }
  }

  /** Terminates on every byte string, and answers as `Scan` says. */
  method MemoryImportIsShared(u8: seq<byte>) returns (shared: bool)
    ensures shared == Scan(u8)
  {
    var pos := 8;
    while pos < |u8|
      invariant pos >= 8 && Locate(u8, pos) == Locate(u8, 8)
      decreases |u8| - pos
    {
      var id := u8[pos];
      var size;
      size, pos := ReadLeb(u8, pos + 1);
      if id != 2 {
        pos := pos + size;
        continue;
      }
      var end := pos + size;
      var count;
      count, pos := ReadLeb(u8, pos);
      shared := ScanImportSection(u8, pos, end, count);
      return;
    }
    return false;
  }

  /** Skips the two names of an import. */
  method ReadNames(u8: seq<byte>, start: nat) returns (pos: nat)
    ensures pos == KindAt(u8, start)
  {
    var length;
    length, pos := ReadLeb(u8, start);
    pos := pos + length;
    length, pos := ReadLeb(u8, pos);
    pos := pos + length;
  }

  /** Skips what follows the kind byte of a function, table or global. */
  method SkipImport(u8: seq<byte>, kindAt: nat) returns (pos: nat)
    requires kindAt < |u8|
    ensures pos == AfterImport(u8, kindAt)
  {
    var skipped;
    pos := kindAt + 1;
    if u8[kindAt] == 0 {
      skipped, pos := ReadLeb(u8, pos);
    } else if u8[kindAt] == 1 {
      skipped, pos := ReadLimits(u8, pos + 1);
    } else {
      pos := pos + 2;
    }
  }

  method ScanImportSection(u8: seq<byte>, start: nat, end: nat, count: nat) returns (shared: bool)
    ensures shared == ScanImports(u8, start, end, count)
  {
    var pos: nat, i: nat := start, 0;
    while i < count && pos < end
      invariant i <= count
      invariant ScanImports(u8, pos, end, count - i) == ScanImports(u8, start, end, count)
      decreases count - i
    {
      var kindAt := ReadNames(u8, pos);
      if kindAt >= |u8| || u8[kindAt] > 3 {
        return false;
      }
      if u8[kindAt] == 2 {
        var flags, _ := ReadLimits(u8, kindAt + 1);
        FlagBits(flags);
        return flags / 2 % 2 == 1;
      }
      pos := SkipImport(u8, kindAt);
      i := i + 1;
    }
    return false;
  }
}
