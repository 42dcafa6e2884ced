/** The bytes behind the formats, one by one: what other readers and writers of them rely on. */
module Layouts {
  import opened Bytes
  import opened GuestHeap
  import Wire

  lemma {:induction false} DivideTwice(n: nat, p: nat)
    requires p > 0
    ensures n / 256 / p == n / (256 * p)
  {
    var q := n / 256 / p;
    var r := n / 256 % p;
    assert n / 256 == p * q + r;
    assert n == 256 * (p * q + r) + n % 256;
    assert n == (256 * p) * q + (256 * r + n % 256);
    assert 256 * r + n % 256 < 256 * p;
    QuotientIs(n, 256 * p, q, 256 * r + n % 256);
  }

  lemma {:induction false} Further(d: nat, a: nat, b: nat)
    requires a < b
    ensures d * a + d <= d * b
    decreases b
  {
    assert d * b == d * (b - 1) + d;
    if a < b - 1 {
      Further(d, a, b - 1);
    }
  }

  lemma {:induction false} QuotientIs(n: nat, d: nat, q: nat, r: nat)
    requires n == d * q + r && r < d
    ensures n / d == q
  {
    var k := n / d;
    assert n == d * k + n % d;
    if k < q {
      Further(d, k, q);
    } else if k > q {
      Further(d, q, k);
    }
  }

  /** Numbers are little-endian: byte `i` is the one worth 256 to the power `i`. */
  lemma {:induction false} LittleEndian(n: nat, k: nat, i: nat)
    requires i < k
    ensures Le(n, k)[i] as int == n / Pow256(i) % 256
    decreases k
  {
    if i > 0 {
      LittleEndian(n / 256, k - 1, i - 1);
      DivideTwice(n, Pow256(i - 1));
    }
  }

  /** On the wire an integer of one byte is that byte, one of four bytes is little-endian in two's complement,
  and a run of bytes follows its length, as such an integer. */
  lemma {:induction false} FieldLayout(n: int, run: seq<byte>, i: nat)
    requires i < 4 && |run| < B32
    ensures Wire.FieldBytes(Wire.U8(n)) == [n % 256]
    ensures |Wire.FieldBytes(Wire.I32(n))| == 4
    ensures Wire.FieldBytes(Wire.I32(n))[i] as int == n % B32 / Pow256(i) % 256
    ensures |Wire.FieldBytes(Wire.Run(run))| == 4 + |run| && Wire.FieldBytes(Wire.Run(run))[4..] == run
    ensures Wire.FieldBytes(Wire.Run(run))[i] as int == |run| / Pow256(i) % 256
  {
    LittleEndian(n % B32, 4, i);
    LittleEndian(|run|, 4, i);
  }

  lemma {:induction false} UnitLayout(s: Text, n: nat, i: nat)
    requires i < n <= |s|
    ensures Utf16(s, n)[2 * i] as int == s[i] % 256 && Utf16(s, n)[2 * i + 1] as int == s[i] / 256
  {
    if i < n - 1 {
      UnitLayout(s, n - 1, i);
    } else {
      LittleEndian(s[i], 2, 0);
      LittleEndian(s[i], 2, 1);
      assert Pow256(1) == 256 * Pow256(0);
    }
  }

  lemma {:induction false} HeadLayout(s: Text, i: nat)
    requires |s| < B32 && i < 4
    ensures Cell(StringBytes(s), i) == Le(|s|, 4)[i] && Cell(StringBytes(s), 4 + i) == 0
  {
    Zeros(4, i);
    assert StringBytes(s)[i] == Le(|s|, 4)[i] && StringBytes(s)[4 + i] == Le(0, 4)[i];
  }

  lemma {:induction false} Zeros(k: nat, i: nat)
    requires i < k
    ensures Le(0, k)[i] == 0
  {
    if i > 0 {
      Zeros(k - 1, i - 1);
    }
  }

  lemma {:induction false} BodyLayout(s: Text, i: nat)
    requires i < |s|
    ensures Cell(StringBytes(s), 8 + 2 * i) as int == s[i] % 256 && Cell(StringBytes(s), 9 + 2 * i) as int == s[i] / 256
  {
    UnitLayout(s, |s|, i);
    assert StringBytes(s)[8 + 2 * i] == Utf16(s, |s|)[2 * i] && StringBytes(s)[9 + 2 * i] == Utf16(s, |s|)[2 * i + 1];
  }

  lemma {:induction false} StringStands(h: Heap, alloc: Allocator, s: Text)
    requires WriteString(h, alloc, s).Done?
    ensures At(WriteString(h, alloc, s).heap.memory, WriteString(h, alloc, s).ptr, StringBytes(s))
  {
    var w := Malloc(h, alloc, 8 + 2 * |s|);
    PutAt(w.heap.memory, w.ptr, StringBytes(s));
  }

  /** In guest memory a string is its length in units, four bytes of zero, and its units, low byte first. */
  lemma {:induction false} StringLayout(h: Heap, alloc: Allocator, s: Text, i: nat)
    requires |s| < B32 && WriteString(h, alloc, s).Done?
    ensures var w := WriteString(h, alloc, s);
            && w.ptr + 8 + 2 * |s| <= |w.heap.memory|
            && (i < 4 ==> w.heap.memory[w.ptr + i] as int == |s| / Pow256(i) % 256)
            && (i < 4 ==> w.heap.memory[w.ptr + 4 + i] == 0)
            && (i < |s| ==>
                  && w.heap.memory[w.ptr + 8 + 2 * i] as int == s[i] % 256
                  && w.heap.memory[w.ptr + 9 + 2 * i] as int == s[i] / 256)
  {
    StringStands(h, alloc, s);
    if i < 4 {
      HeadLayout(s, i);
      LittleEndian(|s|, 4, i);
    }
    if i < |s| {
      BodyLayout(s, i);
    }
  }
}
