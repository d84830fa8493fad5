/** Bytes, and the big-endian integers of frame headers and packed index entries. */
module Bytes {

  type byte = b: int | 0 <= b < 256

  type bytes = seq<byte>

  const U16: nat := 0x1_0000
  const U32: nat := 0x1_0000_0000
  const U64: nat := 0x1_0000_0000_0000_0000

  function Pow256(n: nat): (p: nat)
    ensures p >= 1
  {
    if n == 0 then 1 else 256 * Pow256(n - 1)
  }

  lemma {:induction false} Widths()
    ensures Pow256(2) == U16 && Pow256(4) == U32 && Pow256(8) == U64
  {
    assert Pow256(4) == 256 * 256 * Pow256(2);
    assert Pow256(6) == 256 * 256 * Pow256(4);
    assert Pow256(8) == 256 * 256 * Pow256(6);
  }

  /** `struct.pack` of an unsigned big-endian integer of `width` bytes. */
  function PackBE(v: nat, width: nat): (b: bytes)
    requires v < Pow256(width)
    ensures |b| == width
  {
    if width == 0 then [] else PackBE(v / 256, width - 1) + [v % 256]
  }

  /** `struct.unpack` of an unsigned big-endian integer. */
  function UnpackBE(b: bytes): (v: nat)
    ensures v < Pow256(|b|)
  {
    if b == [] then 0 else 256 * UnpackBE(b[..|b| - 1]) + b[|b| - 1]
  }

  lemma {:induction false} UnpackPack(v: nat, width: nat)
    requires v < Pow256(width)
    ensures UnpackBE(PackBE(v, width)) == v
  {
    if width > 0 {
      UnpackPack(v / 256, width - 1);
      assert PackBE(v, width)[..width - 1] == PackBE(v / 256, width - 1);
    }
  }

  lemma {:induction false} PackUnpack(b: bytes)
    ensures PackBE(UnpackBE(b), |b|) == b
  {
    if b != [] {
      PackUnpack(b[..|b| - 1]);
    }
  }
}
