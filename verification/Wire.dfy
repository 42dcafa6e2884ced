/** Records of little-endian integers and byte runs, as host operations are written and read. */
module Wire {
  import opened Containers
  import opened Bytes

  datatype Kind = KindU8 | KindI32 | KindRun

  datatype Field = U8(n: int) | I32(n: int) | Run(bytes: seq<byte>)

  function KindOf(f: Field): Kind {
    match f
    case U8(_) => KindU8
    case I32(_) => KindI32
    case Run(_) => KindRun
  }

  function KindsOf(fs: List<Field>): List<Kind> { if fs.Nil? then Nil else Cons(KindOf(fs.head), KindsOf(fs.tail)) }

  // ----- Writing -----

  function FieldBytes(f: Field): seq<byte> {
    match f
    case U8(n) => [n % 256]
    case I32(n) => Le(n % B32, 4)
    case Run(bytes) => Le(|bytes| % B32, 4) + bytes
  }

  function Encode(fs: List<Field>): seq<byte> { if fs.Nil? then [] else FieldBytes(fs.head) + Encode(fs.tail) }

  /** What the reader makes of a field: integers are cut to their width. */
  function Canonical(f: Field): Field {
    match f
    case U8(n) => U8(n % 256)
    case I32(n) => I32(Signed(n % B32, B32))
    case Run(_) => f
  }

  function CanonicalAll(fs: List<Field>): List<Field> {
    if fs.Nil? then Nil else Cons(Canonical(fs.head), CanonicalAll(fs.tail))
  }

  /** Lengths are written as non-negative 32-bit integers. */
  predicate RunsFit(fs: List<Field>) { fs.Nil? || ((fs.head.Run? ==> |fs.head.bytes| < B31) && RunsFit(fs.tail)) }

  // ----- Reading -----

  /** A field, and the position after it; none if it is malformed. */
  function ReadField(k: Kind, m: seq<byte>, at: nat): (r: Option<(Field, nat)>)
    requires at <= |m|
    ensures r.Some? ==> at < r.value.1 <= |m|
  {
    match k
    case KindU8 => if |m| - at < 1 then None else Some((U8(m[at]), at + 1))
    case KindI32 => if |m| - at < 4 then None else Some((I32(Signed(Uint(m, at, 4), B32)), at + 4))
    case KindRun =>
      if |m| - at < 4 then None
      else
        var n := Signed(Uint(m, at, 4), B32);
        if n < 0 || |m| - (at + 4) < n then None else Some((Run(Slice(m, at + 4, n)), at + 4 + n))
  }

  /** Reads fields of the given kinds, after which nothing may be left. */
  function Decode(ks: List<Kind>, m: seq<byte>, at: nat): Option<List<Field>>
    requires at <= |m|
  {
    if ks.Nil? then if at == |m| then Some(Nil) else None
    else
      match ReadField(ks.head, m, at)
      case None => None
      case Some((f, next)) =>
        match Decode(ks.tail, m, next)
        case None => None
        case Some(fs) => Some(Cons(f, fs))
  }

  // ----- Round trips -----

  lemma {:induction false} FieldReads(f: Field, m: seq<byte>, at: nat)
    requires At(m, at, FieldBytes(f)) && (f.Run? ==> |f.bytes| < B31)
    ensures ReadField(KindOf(f), m, at) == Some((Canonical(f), at + |FieldBytes(f)|))
  {
    WordPower();
    match f
    case U8(n) =>
      AtHead(m, at, [n % 256]);
    case I32(n) =>
      UintReads(m, at, n % B32, 4);
    case Run(bytes) =>
      RunReads(bytes, m, at, |bytes| % B32);
  }

  lemma {:induction false} RunReads(bytes: seq<byte>, m: seq<byte>, at: nat, n: nat)
    requires At(m, at, Le(n, 4) + bytes) && n == |bytes| < B31
    ensures at + 4 + n <= |m| && Uint(m, at, 4) == n && Slice(m, at + 4, n) == bytes
  {
    WordPower();
    AtSplit(m, at, Le(n, 4), bytes);
    UintReads(m, at, n, 4);
    SliceIs(m, at + 4, bytes);
  }

  lemma {:induction false} FieldThen(f: Field, rest: seq<byte>, m: seq<byte>, at: nat) returns (next: nat)
    requires At(m, at, FieldBytes(f) + rest) && (f.Run? ==> |f.bytes| < B31)
    ensures ReadField(KindOf(f), m, at) == Some((Canonical(f), next))
    ensures At(m, next, rest) && next + |rest| == at + |FieldBytes(f) + rest|
  {
    AtSplit(m, at, FieldBytes(f), rest);
    FieldReads(f, m, at);
    next := at + |FieldBytes(f)|;
  }

  lemma {:induction false} DecodeWritten(fs: List<Field>, m: seq<byte>, at: nat)
    requires RunsFit(fs) && At(m, at, Encode(fs)) && at + |Encode(fs)| == |m|
    ensures Decode(KindsOf(fs), m, at) == Some(CanonicalAll(fs))
    decreases fs
  {
    if fs.Cons? {
      var next := FieldThen(fs.head, Encode(fs.tail), m, at);
      DecodeWritten(fs.tail, m, next);
    }
  }

  /** The reader recovers what the writer wrote. */
  lemma {:induction false} RoundTrip(fs: List<Field>)
    requires RunsFit(fs)
    ensures Decode(KindsOf(fs), Encode(fs), 0) == Some(CanonicalAll(fs))
  {
    assert At(Encode(fs), 0, Encode(fs));
    DecodeWritten(fs, Encode(fs), 0);
  }

  /** A field that was read is written with the bytes it was read from. */
  lemma {:induction false} FieldStands(k: Kind, m: seq<byte>, at: nat)
    requires at <= |m| && ReadField(k, m, at).Some?
    ensures var (f, next) := ReadField(k, m, at).value;
            && KindOf(f) == k && Canonical(f) == f && (f.Run? ==> |f.bytes| < B31)
            && At(m, at, FieldBytes(f)) && next == at + |FieldBytes(f)|
  {
    WordPower();
    match k
    case KindU8 =>
    case KindI32 =>
      LeOfUint(m, at, 4);
      SignedAndBack(Uint(m, at, 4));
    case KindRun =>
      RunStands(m, at, Uint(m, at, 4));
  }

  lemma {:induction false} SignedAndBack(u: nat)
    requires u < B32
    ensures Signed(u, B32) % B32 == u
  {
  }

  lemma {:induction false} RunStands(m: seq<byte>, at: nat, n: nat)
    requires at + 4 + n <= |m| && n == Uint(m, at, 4) && n < B31
    ensures At(m, at, Le(n % B32, 4) + Slice(m, at + 4, n))
  {
    LeOfUint(m, at, 4);
    SliceStands(m, at + 4, n);
    AtJoin(m, at, Le(n, 4), Slice(m, at + 4, n));
  }

  lemma {:induction false} DecodedStands(ks: List<Kind>, m: seq<byte>, at: nat)
    requires at <= |m| && Decode(ks, m, at).Some?
    ensures var fs := Decode(ks, m, at).value;
            && KindsOf(fs) == ks && CanonicalAll(fs) == fs && RunsFit(fs)
            && At(m, at, Encode(fs)) && at + |Encode(fs)| == |m|
    decreases ks
  {
    if ks.Cons? {
      FieldStands(ks.head, m, at);
      var (f, next) := ReadField(ks.head, m, at).value;
      DecodedStands(ks.tail, m, next);
      AtJoin(m, at, FieldBytes(f), Encode(Decode(ks.tail, m, next).value));
    }
  }

  /** What the reader accepts is exactly what the writer writes for the fields it returns. */
  lemma {:induction false} AcceptsOnlyEncodings(ks: List<Kind>, m: seq<byte>)
    requires Decode(ks, m, 0).Some?
    ensures var fs := Decode(ks, m, 0).value;
            m == Encode(fs) && KindsOf(fs) == ks && CanonicalAll(fs) == fs && RunsFit(fs)
  {
    DecodedStands(ks, m, 0);
    AtWhole(m, Encode(Decode(ks, m, 0).value));
  }

  // ----- Nothing shorter or longer -----

  lemma {:induction false} UintPrefix(m: seq<byte>, m': seq<byte>, at: nat, k: nat)
    requires m <= m' && at + k <= |m|
    ensures Uint(m', at, k) == Uint(m, at, k)
  {
    assert Same(m, m', at, at + k);
    UintSame(m, m', at, k);
  }

  lemma {:induction false} FieldPrefix(k: Kind, m: seq<byte>, m': seq<byte>, at: nat)
    requires at <= |m| && m <= m' && ReadField(k, m, at).Some?
    ensures ReadField(k, m', at) == ReadField(k, m, at)
  {
    if k != KindU8 {
      UintPrefix(m, m', at, 4);
    }
    if k == KindRun {
      var n := Uint(m, at, 4);
      assert Slice(m', at + 4, n) == Slice(m, at + 4, n);
    }
  }

  lemma {:induction false} DecodePrefix(ks: List<Kind>, m: seq<byte>, m': seq<byte>, at: nat)
    requires at <= |m| && m <= m' && Decode(ks, m, at).Some? && Decode(ks, m', at).Some?
    ensures |m| == |m'|
    decreases ks
  {
    if ks.Cons? {
      FieldPrefix(ks.head, m, m', at);
      DecodePrefix(ks.tail, m, m', ReadField(ks.head, m, at).value.1);
    }
  }

  /** Every proper prefix and every proper extension of an accepted record is rejected. */
  lemma {:induction false} ExactLength(ks: List<Kind>, m: seq<byte>, m': seq<byte>)
    requires m != m' && (m <= m' || m' <= m) && Decode(ks, m, 0).Some?
    ensures Decode(ks, m', 0) == None
  {
    if Decode(ks, m', 0).Some? {
      if m <= m' {
        DecodePrefix(ks, m, m', 0);
      } else {
        DecodePrefix(ks, m', m, 0);
      }
    }
  }

  // ----- The two objects -----

  function Flatten(parts: seq<seq<byte>>): seq<byte> {
    if parts == [] then [] else Flatten(parts[..|parts| - 1]) + parts[|parts| - 1]
  }

  class WireWriter {
    var parts: seq<seq<byte>>
    var size: nat

    ghost predicate Valid()
      reads this
    {
      size == |Flatten(parts)|
    }

    ghost function Contents(): seq<byte>
      reads this
    {
      Flatten(parts)
    }

    constructor ()
      ensures Valid() && Contents() == []
    {
      parts, size := [], 0;
    }

    method Raw(bytes: seq<byte>)
      requires Valid()
      modifies this
      ensures Valid() && Contents() == old(Contents()) + bytes
    {
      assert (parts + [bytes])[..|parts|] == parts;
      parts, size := parts + [bytes], size + |bytes|;
    }

    method WriteU8(value: int)
      requires Valid()
      modifies this
      ensures Valid() && Contents() == old(Contents()) + FieldBytes(U8(value))
    {
      Raw([value % 256]);
    }

    method WriteI32(value: int)
      requires Valid()
      modifies this
      ensures Valid() && Contents() == old(Contents()) + FieldBytes(I32(value))
    {
      Raw(Le(value % B32, 4));
    }

    method WriteBytes(bytes: seq<byte>)
      requires Valid()
      modifies this
      ensures Valid() && Contents() == old(Contents()) + FieldBytes(Run(bytes))
    {
      Regroup(Contents(), Le(|bytes| % B32, 4), bytes);
      WriteI32(|bytes|);
      Raw(bytes);
    }

    method Finish() returns (out: seq<byte>)
      requires Valid()
      ensures out == Contents()
    {
      out := seq(size, _ => 0);
      ghost var blank: seq<byte> := out;
      PutNothing(out, 0);
      var at := 0;
      for i := 0 to |parts|
        invariant at == |Flatten(parts[..i])| && |out| == size
        invariant at <= size && out == Put(blank, 0, Flatten(parts[..i]))
      {
        assert parts[..i + 1][..i] == parts[..i];
        FlattenGrows(parts, i + 1);
        PutPut(blank, 0, Flatten(parts[..i]), parts[i]);
        out := Put(out, at, parts[i]);
        at := at + |parts[i]|;
      }
      assert parts[..|parts|] == parts;
    }
  }

  lemma {:induction false} FlattenGrows(parts: seq<seq<byte>>, i: nat)
    requires i <= |parts|
    ensures |Flatten(parts[..i])| <= |Flatten(parts)|
    decreases |parts| - i
  {
    if i < |parts| {
      assert parts[..i + 1][..i] == parts[..i];
      FlattenGrows(parts, i + 1);
    } else {
      assert parts[..i] == parts;
    }
  }

  class WireReader {
    const bytes: seq<byte>
    var at: nat

    constructor (bytes: seq<byte>)
      ensures this.bytes == bytes && at == 0
    {
      this.bytes := bytes;
      at := 0;
    }

    /** The position of `count` bytes, which are thereby taken; none if there are fewer. */
    method Take(count: int) returns (r: Option<nat>)
      requires at <= |bytes|
      modifies this`at
      ensures at <= |bytes|
      ensures r == if 0 <= count <= |bytes| - old(at) then Some(old(at)) else None
      ensures at == if r.Some? then old(at) + count else old(at)
    {
      if !(count >= 0) || |bytes| - at < count {
        return None;
      }
      r := Some(at);
      at := at + count;
    }

    method ReadU8() returns (r: Option<int>)
      requires at <= |bytes|
      modifies this`at
      ensures at <= |bytes|
      ensures var f := ReadField(KindU8, bytes, old(at));
              if f.Some? then r == Some(f.value.0.n) && at == f.value.1 else r == None
    {
      var p := Take(1);
      return if p.Some? then Some(bytes[p.value]) else None;
    }

    method ReadI32() returns (r: Option<int>)
      requires at <= |bytes|
      modifies this`at
      ensures at <= |bytes|
      ensures var f := ReadField(KindI32, bytes, old(at));
              if f.Some? then r == Some(f.value.0.n) && at == f.value.1 else r == None
    {
      var p := Take(4);
      return if p.Some? then Some(Signed(Uint(bytes, p.value, 4), B32)) else None;
    }

    method BytesField() returns (r: Option<seq<byte>>)
      requires at <= |bytes|
      modifies this`at
      ensures at <= |bytes|
      ensures var f := ReadField(KindRun, bytes, old(at));
              if f.Some? then r == Some(f.value.0.bytes) && at == f.value.1 else r == None
    {
      var length := ReadI32();
      if length.None? {
        return None;
      }
      var p := Take(length.value);
      return if p.Some? then Some(Slice(bytes, p.value, length.value)) else None;
    }

    /** Accepts if everything has been read. */
    method Finish() returns (ok: bool)
      requires at <= |bytes|
      ensures ok <==> Decode(Nil, bytes, at) == Some(Nil)
    {
      return at == |bytes|;
    }
  }
}
