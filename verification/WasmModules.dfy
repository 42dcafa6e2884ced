/** Well-formed modules, as sections 5.2.2, 5.5.2 and 5.5.5 of the WebAssembly Core Specification lay
them out, and the answers the scanner gives for them.  Numbers may be written in any LEB128 form of
at most five bytes, not only in the shortest.
 */
module WasmModules {
  import opened Containers
  import opened Bytes
  import opened WasmScan

  type digit = x: int | 0 <= x < 128

  /** A number as it is written: seven bits a byte, lowest first. */
  datatype Digits = Last(low: digit) | More(low: digit, high: Digits)

  function Value(d: Digits): nat {
    match d
    case Last(low) => low
    case More(low, high) => low + 128 * Value(high)
  }

  function NumBytes(d: Digits): (out: seq<byte>)
    ensures |out| > 0
  {
    match d
    case Last(low) => [low]
    case More(low, high) => [low as int + 128] + NumBytes(high)
  }

  /** A 32-bit number. */
  predicate IsU32(d: Digits) { |NumBytes(d)| <= 5 && Value(d) < B32 }

  datatype MemLimits = MemLimits(flags: digit, min: Digits, max: Option<Digits>)

  datatype Desc = Func(index: Digits) | Table(elem: byte, limits: MemLimits) | Memory(limits: MemLimits) | Global(valtype: byte, mutability: byte)

  datatype Import = Import(moduleLen: Digits, moduleName: seq<byte>, nameLen: Digits, name: seq<byte>, desc: Desc)

  datatype Section =
    | Other(id: byte, size: Digits, body: seq<byte>)
    | Imports(size: Digits, count: Digits, imports: List<Import>)

  datatype Module = Module(header: seq<byte>, sections: List<Section>)

  // ----- Well-formedness and encoding -----

  predicate LimitsOk(l: MemLimits) {
    IsU32(l.min) && (l.max.Some? <==> HasMax(l.flags)) && (l.max.Some? ==> IsU32(l.max.value))
  }

  function LimitsBytes(l: MemLimits): seq<byte>
    requires LimitsOk(l)
  {
    [l.flags] + (NumBytes(l.min) + if l.max.Some? then NumBytes(l.max.value) else [])
  }

  predicate DescOk(d: Desc) {
    match d
    case Func(index) => IsU32(index)
    case Table(_, limits) => LimitsOk(limits)
    case Memory(limits) => LimitsOk(limits)
    case Global(_, _) => true
  }

  function DescBytes(d: Desc): seq<byte>
    requires DescOk(d)
  {
    match d
    case Func(index) => [0] + NumBytes(index)
    case Table(elem, limits) => [1, elem] + LimitsBytes(limits)
    case Memory(limits) => [2] + LimitsBytes(limits)
    case Global(valtype, mutability) => [3, valtype, mutability]
  }

  predicate ImportOk(i: Import) {
    && IsU32(i.moduleLen) && Value(i.moduleLen) == |i.moduleName|
    && IsU32(i.nameLen) && Value(i.nameLen) == |i.name| && DescOk(i.desc)
  }

  function ImportBytes(i: Import): seq<byte>
    requires ImportOk(i)
  {
    NumBytes(i.moduleLen) + (i.moduleName + (NumBytes(i.nameLen) + (i.name + DescBytes(i.desc))))
  }

  predicate ImportsOk(imps: List<Import>) { imps.Nil? || (ImportOk(imps.head) && ImportsOk(imps.tail)) }

  function ImportsBytes(imps: List<Import>): seq<byte>
    requires ImportsOk(imps)
  {
    if imps.Nil? then [] else ImportBytes(imps.head) + ImportsBytes(imps.tail)
  }

  predicate SectionOk(s: Section) {
    match s
    case Other(id, size, body) => id != 2 && IsU32(size) && Value(size) == |body|
    case Imports(size, count, imports) =>
      && ImportsOk(imports) && IsU32(count) && Value(count) == Length(imports)
        && IsU32(size) && Value(size) == |NumBytes(count)| + |ImportsBytes(imports)|
  }

  function SectionBytes(s: Section): seq<byte>
    requires SectionOk(s)
  {
    match s
    case Other(id, size, body) => [id] + (NumBytes(size) + body)
    case Imports(size, count, imports) => [2] + (NumBytes(size) + (NumBytes(count) + ImportsBytes(imports)))
  }

  predicate SectionsOk(ss: List<Section>) { ss.Nil? || (SectionOk(ss.head) && SectionsOk(ss.tail)) }

  function SectionsBytes(ss: List<Section>): seq<byte>
    requires SectionsOk(ss)
  {
    if ss.Nil? then [] else SectionBytes(ss.head) + SectionsBytes(ss.tail)
  }

  predicate NoImportSection(ss: List<Section>) { ss.Nil? || (!ss.head.Imports? && NoImportSection(ss.tail)) }

  predicate OneImportSection(ss: List<Section>) {
    ss.Nil? || if ss.head.Imports? then NoImportSection(ss.tail) else OneImportSection(ss.tail)
  }

  /** Magic and version, then sections of which at most one holds imports. */
  predicate ModuleOk(m: Module) {
    |m.header| == 8 && SectionsOk(m.sections) && OneImportSection(m.sections)
  }

  function ModuleBytes(m: Module): seq<byte>
    requires ModuleOk(m)
  {
    m.header + SectionsBytes(m.sections)
  }

  /** Everything the sections import, in order. */
  function AllImports(ss: List<Section>): List<Import> {
    if ss.Nil? then Nil else Append(if ss.head.Imports? then ss.head.imports else Nil, AllImports(ss.tail))
  }

  /** The shared bit of the first memory import, or false if there is none. */
  function FirstMemoryShared(imps: List<Import>): bool {
    if imps.Nil? then false
    else if imps.head.desc.Memory? then SharedFlag(imps.head.desc.limits.flags)
    else FirstMemoryShared(imps.tail)
  }

  // ----- Reading what was written -----

  /** The reader inverts every way of writing a number. */
  lemma {:induction false} LebReads(u8: seq<byte>, pos: nat, d: Digits)
    requires At(u8, pos, NumBytes(d))
    ensures Leb(u8, pos) == (Value(d), pos + |NumBytes(d)|)
    decreases d
  {
    AtHead(u8, pos, NumBytes(d));
    if d.More? {
      AtSplit(u8, pos, [d.low as int + 128], NumBytes(d.high));
      LebReads(u8, pos + 1, d.high);
    }
  }

  lemma {:induction false} LimitsReads(u8: seq<byte>, pos: nat, l: MemLimits)
    requires LimitsOk(l) && At(u8, pos, LimitsBytes(l))
    ensures Limits(u8, pos) == (l.flags, pos + |LimitsBytes(l)|)
  {
    var rest := NumBytes(l.min) + if l.max.Some? then NumBytes(l.max.value) else [];
    AtSplit(u8, pos, [l.flags], rest);
    LebReads(u8, pos, Last(l.flags));
    AtSplit(u8, pos + 1, NumBytes(l.min), if l.max.Some? then NumBytes(l.max.value) else []);
    LebReads(u8, pos + 1, l.min);
    if l.max.Some? {
      LebReads(u8, pos + 1 + |NumBytes(l.min)|, l.max.value);
    }
  }

  /** A counted run of bytes, as names are written. */
  lemma {:induction false} NameReads(u8: seq<byte>, pos: nat, len: Digits, name: seq<byte>, rest: seq<byte>)
    requires IsU32(len) && Value(len) == |name| && At(u8, pos, NumBytes(len) + (name + rest))
    ensures Leb(u8, pos) == (|name|, pos + |NumBytes(len)|) && At(u8, pos + |NumBytes(len)| + |name|, rest)
  {
    AtSplit(u8, pos, NumBytes(len), name + rest);
    LebReads(u8, pos, len);
    AtSplit(u8, pos + |NumBytes(len)|, name, rest);
  }

  lemma {:induction false} KindFound(u8: seq<byte>, pos: nat, a: nat, p: nat, b: nat, q: nat)
    requires Leb(u8, pos) == (a, p) && Leb(u8, p + a) == (b, q)
    ensures KindAt(u8, pos) == q + b
  {
  }

  /** The scanner finds the kind byte of an import. */
  lemma {:induction false} KindReads(u8: seq<byte>, pos: nat, i: Import)
    requires ImportOk(i) && At(u8, pos, ImportBytes(i))
    ensures At(u8, KindAt(u8, pos), DescBytes(i.desc))
    ensures KindAt(u8, pos) + |DescBytes(i.desc)| == pos + |ImportBytes(i)|
  {
    var rest := NumBytes(i.nameLen) + (i.name + DescBytes(i.desc));
    NameReads(u8, pos, i.moduleLen, i.moduleName, rest);
    var p := pos + |NumBytes(i.moduleLen)| + |i.moduleName|;
    NameReads(u8, p, i.nameLen, i.name, DescBytes(i.desc));
    KindFound(u8, pos, |i.moduleName|, pos + |NumBytes(i.moduleLen)|, |i.name|, p + |NumBytes(i.nameLen)|);
  }

  lemma {:induction false} DescReads(u8: seq<byte>, k: nat, d: Desc)
    requires DescOk(d) && At(u8, k, DescBytes(d))
    ensures k < |u8| && u8[k] <= 3 && (u8[k] == 2 <==> d.Memory?)
    ensures d.Memory? ==> Limits(u8, k + 1).0 == d.limits.flags
    ensures !d.Memory? ==> AfterImport(u8, k) == k + |DescBytes(d)|
  {
    AtHead(u8, k, DescBytes(d));
    match d
    case Func(index) =>
      AtSplit(u8, k, [0], NumBytes(index));
      LebReads(u8, k + 1, index);
    case Table(elem, limits) =>
      AtSplit(u8, k, [1, elem], LimitsBytes(limits));
      LimitsReads(u8, k + 2, limits);
    case Memory(limits) =>
      AtSplit(u8, k, [2], LimitsBytes(limits));
      LimitsReads(u8, k + 1, limits);
    case Global(_, _) =>
  }

  /** The import loop, at `pos`, meets an import like `i` that ends at `next`. */
  predicate Met(u8: seq<byte>, pos: nat, i: Import, next: nat) {
    var k := KindAt(u8, pos);
    && pos < next && k < |u8| && u8[k] <= 3 && (u8[k] == 2 <==> i.desc.Memory?)
    && (if i.desc.Memory? then Limits(u8, k + 1).0 == i.desc.limits.flags else AfterImport(u8, k) == next)
  }

  /** From `pos` to `end` the import loop meets `imps`. */
  predicate AllMet(u8: seq<byte>, pos: nat, imps: List<Import>, end: nat)
    decreases imps
  {
    match imps
    case Nil => pos == end
    case Cons(i, rest) => exists next :: pos < next <= end && Met(u8, pos, i, next) && AllMet(u8, next, rest, end)
  }

  lemma {:induction false} ImportMet(u8: seq<byte>, pos: nat, i: Import, rest: seq<byte>) returns (next: nat)
    requires ImportOk(i) && At(u8, pos, ImportBytes(i) + rest)
    ensures Met(u8, pos, i, next) && At(u8, next, rest) && next + |rest| == pos + |ImportBytes(i) + rest|
  {
    next := pos + |ImportBytes(i)|;
    AtSplit(u8, pos, ImportBytes(i), rest);
    KindReads(u8, pos, i);
    DescReads(u8, KindAt(u8, pos), i.desc);
  }

  lemma {:induction false} ImportsMet(u8: seq<byte>, pos: nat, imps: List<Import>)
    requires ImportsOk(imps) && At(u8, pos, ImportsBytes(imps))
    ensures AllMet(u8, pos, imps, pos + |ImportsBytes(imps)|)
    decreases imps
  {
    if imps.Cons? {
      var next := ImportMet(u8, pos, imps.head, ImportsBytes(imps.tail));
      ImportsMet(u8, next, imps.tail);
    }
  }

  lemma {:induction false} ScanOfMet(u8: seq<byte>, pos: nat, imps: List<Import>, end: nat)
    requires AllMet(u8, pos, imps, end)
    ensures ScanImports(u8, pos, end, Length(imps)) == FirstMemoryShared(imps)
    decreases imps
  {
    if imps.Cons? && !imps.head.desc.Memory? {
      var next :| pos < next <= end && Met(u8, pos, imps.head, next) && AllMet(u8, next, imps.tail, end);
      ScanOfMet(u8, next, imps.tail, end);
    }
  }

  lemma {:induction false} NoImports(ss: List<Section>)
    requires NoImportSection(ss)
    ensures AllImports(ss) == Nil
  {
    if ss.Cons? {
      NoImports(ss.tail);
    }
  }

  /** What the scanner reads before the contents of a section. */
  lemma {:induction false} SectionHeader(u8: seq<byte>, pos: nat, id: byte, size: Digits, body: seq<byte>)
    requires IsU32(size) && At(u8, pos, [id] + (NumBytes(size) + body))
    ensures pos < |u8| && u8[pos] == id && Leb(u8, pos + 1) == (Value(size), pos + 1 + |NumBytes(size)|)
    ensures At(u8, pos + 1 + |NumBytes(size)|, body)
  {
    AtHead(u8, pos, [id] + (NumBytes(size) + body));
    AtSplit(u8, pos, [id], NumBytes(size) + body);
    AtSplit(u8, pos + 1, NumBytes(size), body);
    LebReads(u8, pos + 1, size);
  }

  lemma {:induction false} LocateHere(u8: seq<byte>, pos: nat, size: nat, p: nat, count: nat, q: nat)
    requires pos < |u8| && u8[pos] == 2 && Leb(u8, pos + 1) == (size, p) && Leb(u8, p) == (count, q)
    ensures Locate(u8, pos) == Present(q, p + size, count)
  {
  }

  lemma {:induction false} ImportSectionFound(u8: seq<byte>, pos: nat, size: Digits, count: Digits, content: seq<byte>) returns (start: nat)
    requires IsU32(count) && IsU32(size) && Value(size) == |NumBytes(count)| + |content|
    requires At(u8, pos, [2] + (NumBytes(size) + (NumBytes(count) + content)))
    ensures Locate(u8, pos) == Present(start, start + |content|, Value(count)) && At(u8, start, content)
  {
    SectionHeader(u8, pos, 2, size, NumBytes(count) + content);
    var p := pos + 1 + |NumBytes(size)|;
    AtSplit(u8, p, NumBytes(count), content);
    LebReads(u8, p, count);
    start := p + |NumBytes(count)|;
    LocateHere(u8, pos, Value(size), p, Value(count), start);
  }

  lemma {:induction false} OtherSectionSkipped(u8: seq<byte>, pos: nat, s: Section)
    requires SectionOk(s) && s.Other? && At(u8, pos, SectionBytes(s))
    ensures Locate(u8, pos) == Locate(u8, pos + |SectionBytes(s)|)
  {
    SectionHeader(u8, pos, s.id, s.size, s.body);
  }

  lemma {:induction false} ImportsEnd(ss: List<Section>)
    requires OneImportSection(ss) && ss.Cons?
    ensures AllImports(ss) == if ss.head.Imports? then ss.head.imports else AllImports(ss.tail)
  {
    if ss.head.Imports? {
      NoImports(ss.tail);
      AppendNil(ss.head.imports);
    }
  }

  lemma {:induction false} ContentMet(u8: seq<byte>, start: nat, imps: List<Import>, content: seq<byte>)
    requires ImportsOk(imps) && content == ImportsBytes(imps) && At(u8, start, content)
    ensures AllMet(u8, start, imps, start + |content|)
  {
    ImportsMet(u8, start, imps);
  }

  lemma {:induction false} ContentFound(u8: seq<byte>, pos: nat, size: Digits, count: Digits, imps: List<Import>, content: seq<byte>)
    returns (start: nat, end: nat)
    requires ImportsOk(imps) && content == ImportsBytes(imps)
    requires IsU32(count) && IsU32(size) && Value(size) == |NumBytes(count)| + |content|
    requires At(u8, pos, [2] + (NumBytes(size) + (NumBytes(count) + content)))
    ensures Locate(u8, pos) == Present(start, end, Value(count)) && AllMet(u8, start, imps, end)
  {
    start := ImportSectionFound(u8, pos, size, count, content);
    end := start + |content|;
    ContentMet(u8, start, imps, content);
  }

  lemma {:induction false} ImportSectionScans(u8: seq<byte>, pos: nat, s: Section)
    requires SectionOk(s) && s.Imports? && At(u8, pos, SectionBytes(s))
    ensures ScanLocated(u8, Locate(u8, pos)) == FirstMemoryShared(s.imports)
  {
    var start, end := ContentFound(u8, pos, s.size, s.count, s.imports, ImportsBytes(s.imports));
    ScanOfMet(u8, start, s.imports, end);
  }

  lemma {:induction false} SectionTurn(u8: seq<byte>, pos: nat, s: Section, rest: seq<byte>) returns (next: nat)
    requires SectionOk(s) && At(u8, pos, SectionBytes(s) + rest) && pos + |SectionBytes(s) + rest| == |u8|
    ensures At(u8, next, rest) && next + |rest| == |u8|
    ensures if s.Imports? then ScanLocated(u8, Locate(u8, pos)) == FirstMemoryShared(s.imports)
            else Locate(u8, pos) == Locate(u8, next)
  {
    next := pos + |SectionBytes(s)|;
    AtSplit(u8, pos, SectionBytes(s), rest);
    if s.Imports? {
      ImportSectionScans(u8, pos, s);
    } else {
      OtherSectionSkipped(u8, pos, s);
    }
  }

  lemma {:induction false} SectionsScan(u8: seq<byte>, pos: nat, ss: List<Section>)
    requires SectionsOk(ss) && At(u8, pos, SectionsBytes(ss)) && pos + |SectionsBytes(ss)| == |u8|
    requires OneImportSection(ss)
    ensures ScanLocated(u8, Locate(u8, pos)) == FirstMemoryShared(AllImports(ss))
    decreases ss
  {
    if ss.Cons? {
      ImportsEnd(ss);
      var next := SectionTurn(u8, pos, ss.head, SectionsBytes(ss.tail));
      if ss.head.Other? {
        SectionsScan(u8, next, ss.tail);
      }
    }
  }

  /** For every well-formed module the scan returns the shared bit of its first memory import. */
  lemma {:induction false} ScanMeetsModule(m: Module)
    requires ModuleOk(m)
    ensures Scan(ModuleBytes(m)) == FirstMemoryShared(AllImports(m.sections))
  {
    var u8 := ModuleBytes(m);
    assert At(u8, 0, u8);
    AtSplit(u8, 0, m.header, SectionsBytes(m.sections));
    SectionsScan(u8, 8, m.sections);
  }

  // ----- The compiler's writer -----

  /** The digits of the shortest form of `n`. */
  function DigitsOf(n: nat): (d: Digits)
    ensures Value(d) == n
  {
    if n < 128 then Last(n) else More(n % 128, DigitsOf(n / 128))
  }

  lemma {:induction false} UlebIsDigits(n: nat)
    ensures Uleb(n) == NumBytes(DigitsOf(n))
  {
    if n >= 128 {
      UlebIsDigits(n / 128);
    }
  }

  lemma {:induction false} DigitsAreShort(n: nat, k: nat)
    requires k >= 1 && n < Power128(k)
    ensures |NumBytes(DigitsOf(n))| <= k
    decreases k
  {
    if n >= 128 {
      DigitsAreShort(n / 128, k - 1);
    }
  }

  function Power128(k: nat): nat { if k == 0 then 1 else 128 * Power128(k - 1) }

  lemma {:induction false} U32IsShort(n: nat)
    requires n < B32
    ensures IsU32(DigitsOf(n))
  {
    assert Power128(5) == 128 * (128 * (128 * (128 * (128 * Power128(0)))));
    DigitsAreShort(n, 5);
  }

  /** The scanner's number reader inverts the compiler's writer for every 32-bit number, whatever follows. */
  lemma {:induction false} LebInvertsUleb(n: nat, rest: seq<byte>)
    requires n < B32
    ensures Leb(Uleb(n) + rest, 0) == (n, |Uleb(n)|) && |Uleb(n)| <= 5
  {
    UlebIsDigits(n);
    U32IsShort(n);
    var u8 := Uleb(n) + rest;
    assert At(u8, 0, u8);
    AtSplit(u8, 0, Uleb(n), rest);
    LebReads(u8, 0, DigitsOf(n));
  }

  lemma {:induction false} SectionsAppend(ss: List<Section>, s: Section)
    requires SectionsOk(ss) && SectionOk(s)
    ensures SectionsOk(Append(ss, Cons(s, Nil))) && SectionsBytes(Append(ss, Cons(s, Nil))) == SectionsBytes(ss) + SectionBytes(s)
  {
    if ss.Cons? {
      SectionsAppend(ss.tail, s);
      Regroup(SectionBytes(ss.head), SectionsBytes(ss.tail), SectionBytes(s));
    }
  }

  lemma {:induction false} ImportsAppend(ss: List<Section>, s: Section)
    requires !s.Imports?
    ensures AllImports(Append(ss, Cons(s, Nil))) == AllImports(ss)
    ensures NoImportSection(ss) ==> NoImportSection(Append(ss, Cons(s, Nil)))
    ensures OneImportSection(ss) ==> OneImportSection(Append(ss, Cons(s, Nil)))
  {
    if ss.Cons? {
      ImportsAppend(ss.tail, s);
    }
  }

  /** The compiler's custom section is a well-formed section of its own. */
  lemma {:induction false} CustomIsOther(name: seq<byte>, payload: seq<byte>)
    requires |CustomBody(name, payload)| < B32
    ensures var body := CustomBody(name, payload);
            var s := Other(0, DigitsOf(|body|), body);
            SectionOk(s) && CustomSection(name, payload) == SectionBytes(s)
  {
    var body := CustomBody(name, payload);
    UlebIsDigits(|body|);
    U32IsShort(|body|);
    Regroup([0], NumBytes(DigitsOf(|body|)), body);
  }

  lemma {:induction false} ModuleAppend(m: Module, s: Section)
    requires ModuleOk(m) && SectionOk(s) && s.Other?
    ensures var m' := m.(sections := Append(m.sections, Cons(s, Nil)));
            && ModuleOk(m') && ModuleBytes(m') == ModuleBytes(m) + SectionBytes(s)
            && AllImports(m'.sections) == AllImports(m.sections)
  {
    SectionsAppend(m.sections, s);
    ImportsAppend(m.sections, s);
    Regroup(m.header, SectionsBytes(m.sections), SectionBytes(s));
  }

  /** The answer depends on the imports alone. */
  lemma {:induction false} SameImportsSameScan(m: Module, m': Module, u8: seq<byte>, u8': seq<byte>)
    requires ModuleOk(m) && ModuleOk(m') && AllImports(m.sections) == AllImports(m'.sections)
    requires u8 == ModuleBytes(m) && u8' == ModuleBytes(m')
    ensures Scan(u8) == Scan(u8')
  {
    ScanMeetsModule(m);
    ScanMeetsModule(m');
  }

  /** Appending a section built by the compiler leaves a well-formed module whose scan gives the same
  answer; the section must fit the 32-bit size it is written with. */
  lemma {:induction false} CustomSectionIsInvisible(m: Module, name: seq<byte>, payload: seq<byte>)
    requires ModuleOk(m) && |CustomBody(name, payload)| < B32
    ensures Scan(ModuleBytes(m) + CustomSection(name, payload)) == Scan(ModuleBytes(m))
  {
    CustomIsOther(name, payload);
    var s := Other(0, DigitsOf(|CustomBody(name, payload)|), CustomBody(name, payload));
    ModuleAppend(m, s);
    SameImportsSameScan(m, m.(sections := Append(m.sections, Cons(s, Nil))), ModuleBytes(m), ModuleBytes(m) + CustomSection(name, payload));
  }
}
