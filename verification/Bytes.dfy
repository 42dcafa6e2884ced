/** Byte strings and what stands where in them. */
module Bytes {
  type byte = x: int | 0 <= x < 256

  const B31 := 0x8000_0000
  const B32 := 0x1_0000_0000
  const B64 := 0x1_0000_0000_0000_0000

  /** Byte `j` of a part; what is known of a part is used where this names a byte of it. */
  function Cell(part: seq<byte>, j: nat): byte
    requires j < |part|
  {
    part[j]
  }

  /** `part` stands in `u8` at `pos`. */
  predicate At(u8: seq<byte>, pos: nat, part: seq<byte>) {
    pos + |part| <= |u8| && forall j {:trigger Cell(part, j)} :: 0 <= j < |part| ==> Cell(part, j) == u8[pos + j]
  }

  lemma {:induction false} AtSplit(u8: seq<byte>, pos: nat, a: seq<byte>, b: seq<byte>)
    requires At(u8, pos, a + b)
    ensures At(u8, pos, a) && At(u8, pos + |a|, b)
  {
    forall j | 0 <= j < |a| ensures Cell(a, j) == u8[pos + j] {
      assert Cell(a, j) == Cell(a + b, j);
    }
    forall j | 0 <= j < |b| ensures Cell(b, j) == u8[pos + |a| + j] {
      assert Cell(b, j) == Cell(a + b, |a| + j);
    }
  }

  lemma {:induction false} AtHead(u8: seq<byte>, pos: nat, part: seq<byte>)
    requires At(u8, pos, part) && |part| > 0
    ensures u8[pos] == part[0]
  {
    assert Cell(part, 0) == u8[pos];
  }

  /** Two memories agree from `from` up to `to`. */
  ghost predicate Same(m: seq<byte>, m': seq<byte>, from: nat, to: nat) {
    to <= |m| && to <= |m'| && forall i {:trigger Cell(m', i)} :: from <= i < to ==> Cell(m', i) == m[i]
  }

  lemma {:induction false} AtSame(m: seq<byte>, m': seq<byte>, pos: nat, part: seq<byte>, from: nat, to: nat)
    requires At(m, pos, part) && Same(m, m', from, to) && from <= pos && pos + |part| <= to
    ensures At(m', pos, part)
  {
    forall j | 0 <= j < |part| ensures Cell(part, j) == m'[pos + j] {
      assert Cell(m', pos + j) == m[pos + j];
    }
  }

  lemma {:induction false} SameTrans(m: seq<byte>, m': seq<byte>, m'': seq<byte>, from: nat, to: nat)
    requires Same(m, m', from, to) && Same(m', m'', from, to)
    ensures Same(m, m'', from, to)
  {
    forall i | from <= i < to ensures Cell(m'', i) == m[i] {
      assert Cell(m'', i) == m'[i] == Cell(m', i);
    }
  }

  /** The memory with `part` written at `at`. */
  function Put(m: seq<byte>, at: nat, part: seq<byte>): (r: seq<byte>)
    requires at + |part| <= |m|
    ensures |r| == |m|
  {
    seq(|m|, i requires 0 <= i < |m| => if at <= i < at + |part| then part[i - at] else m[i])
  }

  lemma {:induction false} PutAt(m: seq<byte>, at: nat, part: seq<byte>)
    requires at + |part| <= |m|
    ensures At(Put(m, at, part), at, part)
  {
  }

  lemma {:induction false} PutSame(m: seq<byte>, at: nat, part: seq<byte>, from: nat, to: nat)
    requires at + |part| <= |m| && to <= |m| && (to <= at || at + |part| <= from)
    ensures Same(m, Put(m, at, part), from, to)
  {
  }

  lemma {:induction false} PutPut(m: seq<byte>, at: nat, a: seq<byte>, b: seq<byte>)
    requires at + |a| + |b| <= |m|
    ensures Put(Put(m, at, a), at + |a|, b) == Put(m, at, a + b)
  {
  }

  lemma {:induction false} PutNothing(m: seq<byte>, at: nat)
    requires at <= |m|
    ensures Put(m, at, []) == m
  {
  }

  // ----- Little-endian numbers -----

  function Pow256(k: nat): (r: nat)
    ensures r >= 1
  {
    if k == 0 then 1 else 256 * Pow256(k - 1)
  }

  /** The low `k` bytes of `n`. */
  function Le(n: nat, k: nat): (r: seq<byte>)
    ensures |r| == k
    decreases k, n
  {
    if k == 0 then [] else [n % 256] + Le(n / 256, k - 1)
  }

  function Uint(m: seq<byte>, at: nat, k: nat): (r: nat)
    requires at + k <= |m|
    ensures r < Pow256(k)
    decreases k, |m|
  {
    if k == 0 then 0 else m[at] + 256 * Uint(m, at + 1, k - 1)
  }

  lemma {:induction false} UintReads(m: seq<byte>, at: nat, n: nat, k: nat)
    requires At(m, at, Le(n, k)) && n < Pow256(k)
    ensures Uint(m, at, k) == n
    decreases k
  {
    if k > 0 {
      AtHead(m, at, Le(n, k));
      AtSplit(m, at, [n % 256], Le(n / 256, k - 1));
      UintReads(m, at + 1, n / 256, k - 1);
    }
  }

  /** A number depends on its bytes alone. */
  lemma {:induction false} UintSame(m: seq<byte>, m': seq<byte>, at: nat, k: nat)
    requires Same(m, m', at, at + k)
    ensures Uint(m', at, k) == Uint(m, at, k)
    decreases k
  {
    if k > 0 {
      assert Cell(m', at) == m[at];
      UintSame(m, m', at + 1, k - 1);
    }
  }

  /** The two's complement reading of a number below `modulus`. */
  function Signed(u: nat, modulus: nat): int { if 2 * u < modulus then u else u - modulus }

  lemma {:induction false} AtJoin(u8: seq<byte>, pos: nat, a: seq<byte>, b: seq<byte>)
    requires At(u8, pos, a) && At(u8, pos + |a|, b)
    ensures At(u8, pos, a + b)
  {
    forall j | 0 <= j < |a + b| ensures Cell(a + b, j) == u8[pos + j] {
      assert j < |a| ==> Cell(a, j) == u8[pos + j];
      assert j >= |a| ==> Cell(b, j - |a|) == u8[pos + j];
    }
  }

  /** Bytes that stand at the start and fill the string are the string. */
  lemma {:induction false} AtWhole(u8: seq<byte>, part: seq<byte>)
    requires At(u8, 0, part) && |part| == |u8|
    ensures u8 == part
  {
    assert forall j :: 0 <= j < |part| ==> Cell(part, j) == u8[j];
  }

  /** The number read is written with the bytes it was read from. */
  lemma {:induction false} LeOfUint(m: seq<byte>, at: nat, k: nat)
    requires at + k <= |m|
    ensures At(m, at, Le(Uint(m, at, k), k))
    decreases k
  {
    if k > 0 {
      var rest := Uint(m, at + 1, k - 1);
      LeOfUint(m, at + 1, k - 1);
      assert Uint(m, at, k) % 256 == m[at] && Uint(m, at, k) / 256 == rest;
      assert At(m, at, [m[at]]);
      AtJoin(m, at, [m[at]], Le(rest, k - 1));
    }
  }

  /** `n` bytes from `at` on. */
  function Slice(m: seq<byte>, at: nat, n: nat): (r: seq<byte>)
    requires at + n <= |m|
    ensures |r| == n
  {
    seq(n, i requires 0 <= i < n => m[at + i])
  }

  lemma {:induction false} SliceStands(m: seq<byte>, at: nat, n: nat)
    requires at + n <= |m|
    ensures At(m, at, Slice(m, at, n))
  {
  }

  lemma {:induction false} SliceIs(m: seq<byte>, at: nat, part: seq<byte>)
    requires At(m, at, part)
    ensures Slice(m, at, |part|) == part
  {
    forall j | 0 <= j < |part| ensures Slice(m, at, |part|)[j] == part[j] {
      assert Cell(part, j) == m[at + j];
    }
  }

  lemma {:induction false} WordPower()
    ensures Pow256(4) == B32
  {
    assert Pow256(4) == 256 * (256 * (256 * (256 * Pow256(0))));
  }
}
