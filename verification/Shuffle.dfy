/** The byte shuffle: a block of fixed-size elements seen as a matrix and transposed byte by byte. The SSE2
    and AVX2 routines work on 16 or 32 elements at a time and leave the rest to a plain loop. */
module Shuffle {
  import opened Bytes

  // ---------- 128-bit registers ----------

  datatype V16 = V16(b0: byte, b1: byte, b2: byte, b3: byte, b4: byte, b5: byte, b6: byte, b7: byte,
                     b8: byte, b9: byte, b10: byte, b11: byte, b12: byte, b13: byte, b14: byte, b15: byte)

  function Byte(v: V16, i: nat): byte
    requires i < 16
  {
    if i == 0 then v.b0 else if i == 1 then v.b1
    else if i == 2 then v.b2 else if i == 3 then v.b3
    else if i == 4 then v.b4 else if i == 5 then v.b5
    else if i == 6 then v.b6 else if i == 7 then v.b7
    else if i == 8 then v.b8 else if i == 9 then v.b9
    else if i == 10 then v.b10 else if i == 11 then v.b11
    else if i == 12 then v.b12 else if i == 13 then v.b13
    else if i == 14 then v.b14
    else v.b15
  }

  /** Sixteen bytes, `stride` apart; a load has stride 1. */
  function Column(src: bytes, at: nat, stride: nat): V16
    requires at + 15 * stride < |src|
  {
    Strided(stride);
    V16(src[at], src[at + stride], src[at + 2 * stride], src[at + 3 * stride],
        src[at + 4 * stride], src[at + 5 * stride], src[at + 6 * stride], src[at + 7 * stride],
        src[at + 8 * stride], src[at + 9 * stride], src[at + 10 * stride], src[at + 11 * stride],
        src[at + 12 * stride], src[at + 13 * stride], src[at + 14 * stride], src[at + 15 * stride])
  }

  lemma Strided(stride: nat)
    ensures forall p :: 0 <= p < 16 ==> 0 <= p * stride <= 15 * stride
  {
  }

  function BytesOf(v: V16): (b: bytes)
    ensures |b| == 16
  {
    [v.b0, v.b1, v.b2, v.b3, v.b4, v.b5, v.b6, v.b7, v.b8, v.b9, v.b10, v.b11, v.b12, v.b13, v.b14, v.b15]
  }

  function UnpackLo8(x: V16, y: V16): V16 {
    V16(x.b0, y.b0, x.b1, y.b1, x.b2, y.b2, x.b3, y.b3,
        x.b4, y.b4, x.b5, y.b5, x.b6, y.b6, x.b7, y.b7)
  }

  function UnpackHi8(x: V16, y: V16): V16 {
    V16(x.b8, y.b8, x.b9, y.b9, x.b10, y.b10, x.b11, y.b11,
        x.b12, y.b12, x.b13, y.b13, x.b14, y.b14, x.b15, y.b15)
  }

  function UnpackLo16(x: V16, y: V16): V16 {
    V16(x.b0, x.b1, y.b0, y.b1, x.b2, x.b3, y.b2, y.b3,
        x.b4, x.b5, y.b4, y.b5, x.b6, x.b7, y.b6, y.b7)
  }

  function UnpackHi16(x: V16, y: V16): V16 {
    V16(x.b8, x.b9, y.b8, y.b9, x.b10, x.b11, y.b10, y.b11,
        x.b12, x.b13, y.b12, y.b13, x.b14, x.b15, y.b14, y.b15)
  }

  function UnpackLo32(x: V16, y: V16): V16 {
    V16(x.b0, x.b1, x.b2, x.b3, y.b0, y.b1, y.b2, y.b3,
        x.b4, x.b5, x.b6, x.b7, y.b4, y.b5, y.b6, y.b7)
  }

  function UnpackHi32(x: V16, y: V16): V16 {
    V16(x.b8, x.b9, x.b10, x.b11, y.b8, y.b9, y.b10, y.b11,
        x.b12, x.b13, x.b14, x.b15, y.b12, y.b13, y.b14, y.b15)
  }

  function UnpackLo64(x: V16, y: V16): V16 {
    V16(x.b0, x.b1, x.b2, x.b3, x.b4, x.b5, x.b6, x.b7,
        y.b0, y.b1, y.b2, y.b3, y.b4, y.b5, y.b6, y.b7)
  }

  function UnpackHi64(x: V16, y: V16): V16 {
    V16(x.b8, x.b9, x.b10, x.b11, x.b12, x.b13, x.b14, x.b15,
        y.b8, y.b9, y.b10, y.b11, y.b12, y.b13, y.b14, y.b15)
  }

  /** Double word `d` first: the selectors of a double-word shuffle, lowest first. */
  function Shuffle32(x: V16, d0: nat, d1: nat, d2: nat, d3: nat): V16
    requires d0 < 4 && d1 < 4 && d2 < 4 && d3 < 4
  {
    V16(Byte(x, 4 * d0), Byte(x, 4 * d0 + 1), Byte(x, 4 * d0 + 2), Byte(x, 4 * d0 + 3),
        Byte(x, 4 * d1), Byte(x, 4 * d1 + 1), Byte(x, 4 * d1 + 2), Byte(x, 4 * d1 + 3),
        Byte(x, 4 * d2), Byte(x, 4 * d2 + 1), Byte(x, 4 * d2 + 2), Byte(x, 4 * d2 + 3),
        Byte(x, 4 * d3), Byte(x, 4 * d3 + 1), Byte(x, 4 * d3 + 2), Byte(x, 4 * d3 + 3))
  }

  datatype Regs8 = Regs8(r0: V16, r1: V16, r2: V16, r3: V16, r4: V16, r5: V16, r6: V16, r7: V16)

  datatype Regs4 = Regs4(r0: V16, r1: V16, r2: V16, r3: V16)

  // ---------- the shuffle networks ----------

  /** shuffle8_sse2 between its loads and its stores; immediate 0x4e swaps the halves. */
  function ShuffleRegs8(x: Regs8): Regs8 {
    Quads8(Dwords8(Words8(Bytes8(x))))
  }

  function Halves(x: V16): V16 {
    UnpackLo8(x, Shuffle32(x, 2, 3, 0, 1))
  }

  function Bytes8(x: Regs8): Regs8 {
    Regs8(Halves(x.r0), Halves(x.r1), Halves(x.r2), Halves(x.r3),
          Halves(x.r4), Halves(x.r5), Halves(x.r6), Halves(x.r7))
  }

  function Words8(x: Regs8): Regs8 {
    Regs8(UnpackLo16(x.r0, x.r1), UnpackHi16(x.r0, x.r1), UnpackLo16(x.r2, x.r3), UnpackHi16(x.r2, x.r3),
          UnpackLo16(x.r4, x.r5), UnpackHi16(x.r4, x.r5), UnpackLo16(x.r6, x.r7), UnpackHi16(x.r6, x.r7))
  }

  function Dwords8(x: Regs8): Regs8 {
    Regs8(UnpackLo32(x.r0, x.r2), UnpackHi32(x.r0, x.r2), UnpackLo32(x.r1, x.r3), UnpackHi32(x.r1, x.r3),
          UnpackLo32(x.r4, x.r6), UnpackHi32(x.r4, x.r6), UnpackLo32(x.r5, x.r7), UnpackHi32(x.r5, x.r7))
  }

  function Quads8(x: Regs8): Regs8 {
    Regs8(UnpackLo64(x.r0, x.r4), UnpackHi64(x.r0, x.r4), UnpackLo64(x.r1, x.r5), UnpackHi64(x.r1, x.r5),
          UnpackLo64(x.r2, x.r6), UnpackHi64(x.r2, x.r6), UnpackLo64(x.r3, x.r7), UnpackHi64(x.r3, x.r7))
  }

  /** shuffle4_sse2: immediates 0xd8, 0x8d and 0x4e, then words, double and quad words. */
  function ShuffleRegs4(x: Regs4): Regs4 {
    Quads4(Dwords4(Regs4(Quarters(x.r0), Quarters(x.r1), Quarters(x.r2), Quarters(x.r3))))
  }

  function Quarters(x: V16): V16 {
    var y := UnpackLo8(Shuffle32(x, 0, 2, 1, 3), Shuffle32(x, 1, 3, 0, 2));
    UnpackLo16(y, Shuffle32(y, 2, 3, 0, 1))
  }

  function Dwords4(x: Regs4): Regs4 {
    Regs4(UnpackLo32(x.r0, x.r1), UnpackHi32(x.r0, x.r1), UnpackLo32(x.r2, x.r3), UnpackHi32(x.r2, x.r3))
  }

  function Quads4(x: Regs4): Regs4 {
    Regs4(UnpackLo64(x.r0, x.r2), UnpackHi64(x.r0, x.r2), UnpackLo64(x.r1, x.r3), UnpackHi64(x.r1, x.r3))
  }

  /** The bytes that stand at place `k` in the sixteen elements of eight registers. */
  function Place8(x: Regs8, k: nat): V16
    requires k < 8
  {
    V16(Byte(x.r0, k), Byte(x.r0, k + 8), Byte(x.r1, k), Byte(x.r1, k + 8),
        Byte(x.r2, k), Byte(x.r2, k + 8), Byte(x.r3, k), Byte(x.r3, k + 8),
        Byte(x.r4, k), Byte(x.r4, k + 8), Byte(x.r5, k), Byte(x.r5, k + 8),
        Byte(x.r6, k), Byte(x.r6, k + 8), Byte(x.r7, k), Byte(x.r7, k + 8))
  }

  function Place4(x: Regs4, k: nat): V16
    requires k < 4
  {
    V16(Byte(x.r0, k), Byte(x.r0, k + 4), Byte(x.r0, k + 8), Byte(x.r0, k + 12),
        Byte(x.r1, k), Byte(x.r1, k + 4), Byte(x.r1, k + 8), Byte(x.r1, k + 12),
        Byte(x.r2, k), Byte(x.r2, k + 4), Byte(x.r2, k + 8), Byte(x.r2, k + 12),
        Byte(x.r3, k), Byte(x.r3, k + 4), Byte(x.r3, k + 8), Byte(x.r3, k + 12))
  }

  lemma ShuffleNetwork8(x: Regs8)
    ensures ShuffleRegs8(x) == Regs8(Place8(x, 0), Place8(x, 1), Place8(x, 2), Place8(x, 3),
                                     Place8(x, 4), Place8(x, 5), Place8(x, 6), Place8(x, 7))
  {
  }

  lemma ShuffleNetwork4(x: Regs4)
    ensures ShuffleRegs4(x) == Regs4(Place4(x, 0), Place4(x, 1), Place4(x, 2), Place4(x, 3))
  {
  }

  // ---------- the unshuffle networks ----------

  /** unshuffle8_sse2 between its loads and its stores, in the order of the stores. */
  function UnshuffleRegs8(x: Regs8): Regs8 {
    var w := ZipDwords8(ZipWords8(ZipBytes8(x)));
    Regs8(w.r0, w.r4, w.r2, w.r6, w.r1, w.r5, w.r3, w.r7)
  }

  function ZipBytes8(x: Regs8): Regs8 {
    Regs8(UnpackLo8(x.r0, x.r1), UnpackLo8(x.r2, x.r3), UnpackLo8(x.r4, x.r5), UnpackLo8(x.r6, x.r7),
          UnpackHi8(x.r0, x.r1), UnpackHi8(x.r2, x.r3), UnpackHi8(x.r4, x.r5), UnpackHi8(x.r6, x.r7))
  }

  function ZipWords8(x: Regs8): Regs8 {
    Regs8(UnpackLo16(x.r0, x.r1), UnpackLo16(x.r2, x.r3), UnpackLo16(x.r4, x.r5), UnpackLo16(x.r6, x.r7),
          UnpackHi16(x.r0, x.r1), UnpackHi16(x.r2, x.r3), UnpackHi16(x.r4, x.r5), UnpackHi16(x.r6, x.r7))
  }

  function ZipDwords8(x: Regs8): Regs8 {
    Regs8(UnpackLo32(x.r0, x.r1), UnpackLo32(x.r2, x.r3), UnpackLo32(x.r4, x.r5), UnpackLo32(x.r6, x.r7),
          UnpackHi32(x.r0, x.r1), UnpackHi32(x.r2, x.r3), UnpackHi32(x.r4, x.r5), UnpackHi32(x.r6, x.r7))
  }

  /** unshuffle4_sse2, in the order of the stores. */
  function UnshuffleRegs4(x: Regs4): Regs4 {
    var z := ZipWords4(ZipBytes4(x));
    Regs4(z.r0, z.r2, z.r1, z.r3)
  }

  function ZipBytes4(x: Regs4): Regs4 {
    Regs4(UnpackLo8(x.r0, x.r1), UnpackLo8(x.r2, x.r3), UnpackHi8(x.r0, x.r1), UnpackHi8(x.r2, x.r3))
  }

  function ZipWords4(x: Regs4): Regs4 {
    Regs4(UnpackLo16(x.r0, x.r1), UnpackLo16(x.r2, x.r3), UnpackHi16(x.r0, x.r1), UnpackHi16(x.r2, x.r3))
  }

  /** Elements `e` and `e + 1` of eight planes of bytes. */
  function Pair8(x: Regs8, e: nat): V16
    requires e < 15
  {
    V16(Byte(x.r0, e), Byte(x.r1, e), Byte(x.r2, e), Byte(x.r3, e),
        Byte(x.r4, e), Byte(x.r5, e), Byte(x.r6, e), Byte(x.r7, e),
        Byte(x.r0, e + 1), Byte(x.r1, e + 1), Byte(x.r2, e + 1), Byte(x.r3, e + 1),
        Byte(x.r4, e + 1), Byte(x.r5, e + 1), Byte(x.r6, e + 1), Byte(x.r7, e + 1))
  }

  /** Elements `e` to `e + 3` of four planes. */
  function Four4(x: Regs4, e: nat): V16
    requires e < 13
  {
    V16(Byte(x.r0, e), Byte(x.r1, e), Byte(x.r2, e), Byte(x.r3, e),
        Byte(x.r0, e + 1), Byte(x.r1, e + 1), Byte(x.r2, e + 1), Byte(x.r3, e + 1),
        Byte(x.r0, e + 2), Byte(x.r1, e + 2), Byte(x.r2, e + 2), Byte(x.r3, e + 2),
        Byte(x.r0, e + 3), Byte(x.r1, e + 3), Byte(x.r2, e + 3), Byte(x.r3, e + 3))
  }

  lemma UnshuffleNetwork8(x: Regs8)
    ensures UnshuffleRegs8(x) == Regs8(Pair8(x, 0), Pair8(x, 2), Pair8(x, 4), Pair8(x, 6),
                                       Pair8(x, 8), Pair8(x, 10), Pair8(x, 12), Pair8(x, 14))
  {
  }

  lemma UnshuffleNetwork4(x: Regs4)
    ensures UnshuffleRegs4(x) == Regs4(Four4(x, 0), Four4(x, 4), Four4(x, 8), Four4(x, 12))
  {
  }

  // ---------- AVX2: two lanes of 128 bits ----------

  datatype V32 = V32(lo: V16, hi: V16)

  function Byte32(v: V32, i: nat): byte
    requires i < 32
  {
    if i < 16 then Byte(v.lo, i) else Byte(v.hi, i - 16)
  }

  /** _mm256_permute4x64_epi64 with the quad words chosen lowest first. */
  function Permute4x64(x: V32, q0: nat, q1: nat, q2: nat, q3: nat): V32
    requires q0 < 4 && q1 < 4 && q2 < 4 && q3 < 4
  {
    V32(V16(Byte32(x, 8 * q0), Byte32(x, 8 * q0 + 1), Byte32(x, 8 * q0 + 2), Byte32(x, 8 * q0 + 3),
            Byte32(x, 8 * q0 + 4), Byte32(x, 8 * q0 + 5), Byte32(x, 8 * q0 + 6), Byte32(x, 8 * q0 + 7),
            Byte32(x, 8 * q1), Byte32(x, 8 * q1 + 1), Byte32(x, 8 * q1 + 2), Byte32(x, 8 * q1 + 3),
            Byte32(x, 8 * q1 + 4), Byte32(x, 8 * q1 + 5), Byte32(x, 8 * q1 + 6), Byte32(x, 8 * q1 + 7)),
        V16(Byte32(x, 8 * q2), Byte32(x, 8 * q2 + 1), Byte32(x, 8 * q2 + 2), Byte32(x, 8 * q2 + 3),
            Byte32(x, 8 * q2 + 4), Byte32(x, 8 * q2 + 5), Byte32(x, 8 * q2 + 6), Byte32(x, 8 * q2 + 7),
            Byte32(x, 8 * q3), Byte32(x, 8 * q3 + 1), Byte32(x, 8 * q3 + 2), Byte32(x, 8 * q3 + 3),
            Byte32(x, 8 * q3 + 4), Byte32(x, 8 * q3 + 5), Byte32(x, 8 * q3 + 6), Byte32(x, 8 * q3 + 7)))
  }

  /** The end of shuffle8_avx2: immediates 0xd8 and 0x72, then the low words of each lane. */
  function WeaveWords(y: V32): V32 {
    var p, q := Permute4x64(y, 0, 2, 1, 3), Permute4x64(y, 2, 0, 3, 1);
    V32(UnpackLo16(p.lo, q.lo), UnpackLo16(p.hi, q.hi))
  }

  /** The end of shuffle4_avx2: double words 0, 4, 1, 5, 2, 6, 3, 7 of the whole register. */
  function WeaveDwords(y: V32): V32 {
    V32(V16(y.lo.b0, y.lo.b1, y.lo.b2, y.lo.b3, y.hi.b0, y.hi.b1, y.hi.b2, y.hi.b3,
            y.lo.b4, y.lo.b5, y.lo.b6, y.lo.b7, y.hi.b4, y.hi.b5, y.hi.b6, y.hi.b7),
        V16(y.lo.b8, y.lo.b9, y.lo.b10, y.lo.b11, y.hi.b8, y.hi.b9, y.hi.b10, y.hi.b11,
            y.lo.b12, y.lo.b13, y.lo.b14, y.lo.b15, y.hi.b12, y.hi.b13, y.hi.b14, y.hi.b15))
  }

  lemma Weaving(y: V32)
    ensures WeaveWords(y) == V32(UnpackLo16(y.lo, y.hi), UnpackHi16(y.lo, y.hi))
    ensures WeaveDwords(y) == V32(UnpackLo32(y.lo, y.hi), UnpackHi32(y.lo, y.hi))
  {
  }

  /** unshuffle8_avx2 on the two lanes: the quad words are exchanged between the lanes (0xd8) before the
      double words are zipped; both halves in the order of the stores. */
  function UnshuffleWide8(lo: Regs8, hi: Regs8): (Regs8, Regs8) {
    var y, z := ZipWords8(ZipBytes8(lo)), ZipWords8(ZipBytes8(hi));
    var l, h := ZipDwords8(MixLo8(y, z)), ZipDwords8(MixHi8(y, z));
    (Regs8(l.r0, h.r0, l.r2, h.r2, l.r1, h.r1, l.r3, h.r3),
     Regs8(l.r4, h.r4, l.r6, h.r6, l.r5, h.r5, l.r7, h.r7))
  }

  function MixLo8(y: Regs8, z: Regs8): Regs8 {
    Regs8(Permute4x64(V32(y.r0, z.r0), 0, 2, 1, 3).lo, Permute4x64(V32(y.r1, z.r1), 0, 2, 1, 3).lo,
          Permute4x64(V32(y.r2, z.r2), 0, 2, 1, 3).lo, Permute4x64(V32(y.r3, z.r3), 0, 2, 1, 3).lo,
          Permute4x64(V32(y.r4, z.r4), 0, 2, 1, 3).lo, Permute4x64(V32(y.r5, z.r5), 0, 2, 1, 3).lo,
          Permute4x64(V32(y.r6, z.r6), 0, 2, 1, 3).lo, Permute4x64(V32(y.r7, z.r7), 0, 2, 1, 3).lo)
  }

  function MixHi8(y: Regs8, z: Regs8): Regs8 {
    Regs8(Permute4x64(V32(y.r0, z.r0), 0, 2, 1, 3).hi, Permute4x64(V32(y.r1, z.r1), 0, 2, 1, 3).hi,
          Permute4x64(V32(y.r2, z.r2), 0, 2, 1, 3).hi, Permute4x64(V32(y.r3, z.r3), 0, 2, 1, 3).hi,
          Permute4x64(V32(y.r4, z.r4), 0, 2, 1, 3).hi, Permute4x64(V32(y.r5, z.r5), 0, 2, 1, 3).hi,
          Permute4x64(V32(y.r6, z.r6), 0, 2, 1, 3).hi, Permute4x64(V32(y.r7, z.r7), 0, 2, 1, 3).hi)
  }

  lemma Exchange(y: V16, z: V16)
    ensures Permute4x64(V32(y, z), 0, 2, 1, 3) == V32(UnpackLo64(y, z), UnpackHi64(y, z))
  {
  }

  lemma MixMeans(y: Regs8, z: Regs8)
    ensures MixLo8(y, z) == Regs8(
      UnpackLo64(y.r0, z.r0), UnpackLo64(y.r1, z.r1), UnpackLo64(y.r2, z.r2),
      UnpackLo64(y.r3, z.r3), UnpackLo64(y.r4, z.r4), UnpackLo64(y.r5, z.r5),
      UnpackLo64(y.r6, z.r6), UnpackLo64(y.r7, z.r7))
    ensures MixHi8(y, z) == Regs8(
      UnpackHi64(y.r0, z.r0), UnpackHi64(y.r1, z.r1), UnpackHi64(y.r2, z.r2),
      UnpackHi64(y.r3, z.r3), UnpackHi64(y.r4, z.r4), UnpackHi64(y.r5, z.r5),
      UnpackHi64(y.r6, z.r6), UnpackHi64(y.r7, z.r7))
  {
    hide Permute4x64, UnpackLo64, UnpackHi64;
    Exchange(y.r0, z.r0);
    Exchange(y.r1, z.r1);
    Exchange(y.r2, z.r2);
    Exchange(y.r3, z.r3);
    Exchange(y.r4, z.r4);
    Exchange(y.r5, z.r5);
    Exchange(y.r6, z.r6);
    Exchange(y.r7, z.r7);
  }

  /** The exchange undoes what working in lanes did: the result is the SSE2 network on each lane. */
  lemma UnshuffleWideNetwork8(lo: Regs8, hi: Regs8)
    ensures UnshuffleWide8(lo, hi) == (UnshuffleRegs8(lo), UnshuffleRegs8(hi))
  {
    hide ZipBytes8, ZipWords8, MixLo8, MixHi8;
    MixMeans(ZipWords8(ZipBytes8(lo)), ZipWords8(ZipBytes8(hi)));
  }

  /** unshuffle4_avx2: lanes 0x20 and 0x31 of registers 0 and 2, 1 and 3. */
  function UnshuffleWide4(lo: Regs4, hi: Regs4): (Regs4, Regs4) {
    var y, z := ZipWords4(ZipBytes4(lo)), ZipWords4(ZipBytes4(hi));
    (Regs4(y.r0, y.r2, y.r1, y.r3), Regs4(z.r0, z.r2, z.r1, z.r3))
  }
}
