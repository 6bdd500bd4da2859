/** Machine integers and the little-endian layout that `repr(C)` structs have in wasm memory. */
module Bytes {
  const TWO_32: nat := 0x1_0000_0000
  const TWO_63: nat := 0x8000_0000_0000_0000
  const TWO_64: nat := 0x1_0000_0000_0000_0000

  type byte = x: int | 0 <= x < 256
  type u16 = x: int | 0 <= x < 0x1_0000
  type u32 = x: int | 0 <= x < TWO_32
  type i64 = x: int | -0x8000_0000_0000_0000 <= x < 0x8000_0000_0000_0000
  type u64 = x: int | 0 <= x < TWO_64

  function Min(a: nat, b: nat): nat { if a <= b then a else b }

  /** A sum and a difference of machine words, wrapping. */
  function WrapAdd32(a: u32, b: u32): u32 { if a + b < TWO_32 then a + b else a + b - TWO_32 }

  function WrapSub32(a: u32, b: u32): u32 { if a >= b then a - b else a + TWO_32 - b }

  /** The number of values a little-endian field of `width` bytes can hold. */
  function Capacity(width: nat): (c: nat)
    ensures c >= 1
  {
    if width == 0 then 1 else 256 * Capacity(width - 1)
  }

  function LittleEndian(width: nat, v: nat): (s: seq<byte>)
    ensures |s| == width
  {
    if width == 0 then [] else [v % 256] + LittleEndian(width - 1, v / 256)
  }

  function FromLittleEndian(s: seq<byte>): (v: nat)
    ensures v < Capacity(|s|)
  {
    if s == [] then 0 else s[0] + 256 * FromLittleEndian(s[1..])
  }

  lemma {:induction false} LittleEndianRoundTrip(width: nat, v: nat)
    requires v < Capacity(width)
    ensures FromLittleEndian(LittleEndian(width, v)) == v
  {
    if width > 0 {
      LittleEndianRoundTrip(width - 1, v / 256);
      assert LittleEndian(width, v)[1..] == LittleEndian(width - 1, v / 256);
    }
  }

  /** Byte `i` of a little-endian field counts in units of 256 to the power `i`. */
  lemma {:induction false} LittleEndianAt(width: nat, v: nat, i: nat)
    requires i < width
    ensures LittleEndian(width, v)[i] == v / Capacity(i) % 256
  {
    if i > 0 {
      LittleEndianAt(width - 1, v / 256, i - 1);
      DivTwice(v, Capacity(i - 1));
    }
  }

  lemma {:induction false} DivTwice(v: nat, b: nat)
    requires b > 0
    ensures v / 256 / b == v / (256 * b)
  {
    var q, r := v / 256 / b, v / 256 % b;
    assert v / 256 == b * q + r;
    assert 256 * (b * q) == 256 * b * q;
    DivModUnique(v, 256 * b, q, 256 * r + v % 256);
  }

  lemma {:induction false} DivModUnique(a: nat, m: nat, q: nat, r: nat)
    requires m > 0 && a == m * q + r && r < m
    ensures a % m == r && a / m == q
  {
    assert a == m * (a / m) + a % m;
    MulGap(m, q, a / m);
    MulGap(m, a / m, q);
  }

  lemma {:induction false} MulGap(m: nat, x: nat, y: nat)
    ensures x < y ==> m * x + m <= m * y
  {
    if x < y {
      assert m * (x + 1) <= m * y;
    }
  }

  lemma {:induction false} U64RoundTrip(v: u64)
    ensures FromLittleEndian(LittleEndian(8, v)) == v
  {
    assert Capacity(8) == TWO_64;
    LittleEndianRoundTrip(8, v);
  }

  lemma {:induction false} U32RoundTrip(v: u32)
    ensures FromLittleEndian(LittleEndian(4, v)) == v
  {
    assert Capacity(4) == TWO_32;
    LittleEndianRoundTrip(4, v);
  }

  lemma {:induction false} U16RoundTrip(v: u16)
    ensures FromLittleEndian(LittleEndian(2, v)) == v
  {
    assert Capacity(2) == 0x1_0000;
    LittleEndianRoundTrip(2, v);
  }

  /** Copies `src` over `dst` from offset `off`, as the source's `copy_from_slice` and
      `copy_nonoverlapping` do, leaving everything else as it was. */
  method CopyInto(dst: array<byte>, off: nat, src: seq<byte>)
    requires off + |src| <= dst.Length
    modifies dst
    ensures dst[..off + |src|] == old(dst[..off]) + src
    ensures dst[off + |src|..] == old(dst[off + |src|..])
  {
    forall i | 0 <= i < |src| {
      dst[off + i] := src[i];
    }
  }
}
