/** Fixed-width integers in byte buffers, as JavaScript's `DataView` writes and reads them. */
module ByteCodec {
  import opened Common

  const TWO32: nat := 0x1_0000_0000

  /** `setUint32(_, v, false)`: big-endian, and modulo 2^32. */
  function U32(v: nat): (b: Bytes)
    ensures |b| == 4
  {
    [v / 0x100_0000 % 256, v / 0x1_0000 % 256, v / 0x100 % 256, v % 256]
  }

  /** `getUint32(off, false)`. */
  function ReadU32(b: Bytes, off: nat): (v: nat)
    requires off + 4 <= |b|
    ensures v < TWO32
  {
    var (b0: nat, b1: nat, b2: nat, b3: nat) := (b[off], b[off + 1], b[off + 2], b[off + 3]);
    b0 * 0x100_0000 + b1 * 0x1_0000 + b2 * 0x100 + b3
  }

  lemma U32RoundTrip(v: nat)
    ensures ReadU32(U32(v), 0) == v % TWO32
  {
    var v1, v2, v3 := v / 0x100, v / 0x1_0000, v / 0x100_0000;
    assert v == v1 * 256 + v % 256;
    assert v2 == v1 / 256 && v1 == v2 * 256 + v1 % 256;
    assert v3 == v2 / 256 && v2 == v3 * 256 + v2 % 256;
    var v4 := v3 / 256;
    assert v3 == v4 * 256 + v3 % 256;
    assert v == v4 * TWO32 + ReadU32(U32(v), 0);
  }

  /** Reading looks at four bytes only. */
  lemma ReadU32In(a: Bytes, b: Bytes, c: Bytes)
    requires |b| == 4
    ensures ReadU32(a + b + c, |a|) == ReadU32(b, 0)
  {
  }

  /** `setBigUint64(_, v, true)` for any width: little-endian, modulo 256^n. */
  function LittleEndian(v: nat, n: nat): (b: Bytes)
    ensures |b| == n
  {
    if n == 0 then [] else [v % 256] + LittleEndian(v / 256, n - 1)
  }

  function Pow256(n: nat): nat { if n == 0 then 1 else 256 * Pow256(n - 1) }

  lemma {:induction false} LittleEndianInjective(a: nat, b: nat, n: nat)
    requires a < Pow256(n) && b < Pow256(n)
    ensures LittleEndian(a, n) == LittleEndian(b, n) <==> a == b
  {
    if n > 0 {
      LittleEndianInjective(a / 256, b / 256, n - 1);
      var x, y := LittleEndian(a, n), LittleEndian(b, n);
      assert x[1..] == LittleEndian(a / 256, n - 1) && y[1..] == LittleEndian(b / 256, n - 1);
      if x == y {
        assert x[0] == y[0] && x[1..] == y[1..];
        assert a == a / 256 * 256 + a % 256 && b == b / 256 * 256 + b % 256;
      }
    }
  }

  function Zeros(n: nat): (b: Bytes)
    ensures |b| == n && forall i :: 0 <= i < n ==> b[i] == 0
  {
    seq(n, i => 0)
  }

  /** Writes `src` into `a` from `off` on, as `Uint8Array.set` does. */
  method SetBytes(a: array<byte>, src: Bytes, off: nat)
    requires off + |src| <= a.Length
    modifies a
    ensures a[..] == old(a[..off]) + src + old(a[off + |src|..])
  {
    var i := 0;
    while i < |src|
      invariant 0 <= i <= |src|
      invariant a[..off] == old(a[..off])
      invariant a[off..off + i] == src[..i]
      invariant a[off + i..] == old(a[off + i..])
    {
      a[off + i] := src[i];
      i := i + 1;
    }
    assert a[..] == a[..off] + a[off..off + |src|] + a[off + |src|..];
  }

  /** `new Uint8Array(n)`. */
  method NewBuffer(n: nat) returns (a: array<byte>)
    ensures fresh(a) && a[..] == Zeros(n)
  {
    a := new byte[n](i => 0);
  }
}
