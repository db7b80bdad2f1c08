/** The shuffle and unshuffle routines over memory: vector loops, the plain loop for the rest, and why any of
    the paths undoes any other. */
module ShuffleRoutines {
  import opened Bytes
  import opened Shuffle

  /** Place `col` of row `row` in a matrix with rows of `width`. */
  function At(row: nat, width: nat, col: nat): nat {
    row * width + col
  }

  lemma RowStep(row: nat, width: nat)
    ensures At(row + 1, width, 0) == At(row, width, 0) + width
  {
  }

  lemma AtParts(row: nat, width: nat, col: nat)
    ensures At(row, width, col) == At(row, width, 0) + col
  {
  }

  lemma {:induction false} RowsMono(a: nat, b: nat, width: nat)
    requires a <= b
    ensures At(a, width, 0) <= At(b, width, 0)
    decreases b - a
  {
    hide At;
    if a < b {
      RowsMono(a, b - 1, width);
      RowStep(b - 1, width);
    }
  }

  lemma AtBound(row: nat, rows: nat, width: nat, col: nat)
    requires row < rows && col < width
    ensures At(row, width, col) < At(rows, width, 0)
  {
    hide At;
    AtParts(row, width, col);
    RowStep(row, width);
    RowsMono(row + 1, rows, width);
  }

  /** `b` holds the transpose of the matrix `a` with `n` rows of `w` bytes. */
  ghost predicate Transposed(a: bytes, b: bytes, n: nat, w: nat) {
    && At(n, w, 0) <= |a| && At(n, w, 0) <= |b|
    && forall i, k {:trigger At(i, w, k)} :: 0 <= i < n && 0 <= k < w ==> Same(a, At(i, w, k), b, At(k, n, i))
  }

  predicate Same(a: bytes, x: nat, b: bytes, y: nat) {
    x < |a| && y < |b| && a[x] == b[y]
  }

  lemma PlaceOf(m: nat, n: nat, w: nat)
    requires m < At(n, w, 0) && (w == 4 || w == 8)
    ensures m / w < n && m % w < w && m == At(m / w, w, m % w)
  {
  }

  /** Transposing twice gives the matrix back. */
  lemma TransposedBack(a: bytes, b: bytes, c: bytes, n: nat, w: nat)
    requires w == 4 || w == 8
    requires Transposed(a, b, n, w) && Transposed(c, b, n, w)
    ensures a[..At(n, w, 0)] == c[..At(n, w, 0)]
  {
    forall m: nat | m < At(n, w, 0) ensures a[m] == c[m] {
      PlaceOf(m, n, w);
      assert Same(a, At(m / w, w, m % w), b, At(m % w, n, m / w));
      assert Same(c, At(m / w, w, m % w), b, At(m % w, n, m / w));
    }
  }

  // ---------- loads and stores ----------

  /** Elements of four or eight bytes. */
  function Times(w: nat, i: nat): nat {
    if w == 4 then 4 * i else 8 * i
  }

  function Width(avx: bool): nat {
    if avx then 32 else 16
  }

  function Load8(src: bytes, at: nat, step: nat): Regs8
    requires at + 7 * step + 16 <= |src|
  {
    Regs8(Column(src, at, 1), Column(src, at + step, 1), Column(src, at + 2 * step, 1),
          Column(src, at + 3 * step, 1), Column(src, at + 4 * step, 1), Column(src, at + 5 * step, 1),
          Column(src, at + 6 * step, 1), Column(src, at + 7 * step, 1))
  }

  function Load4(src: bytes, at: nat, step: nat): Regs4
    requires at + 3 * step + 16 <= |src|
  {
    Regs4(Column(src, at, 1), Column(src, at + step, 1), Column(src, at + 2 * step, 1), Column(src, at + 3 * step, 1))
  }

  function Reg8(x: Regs8, k: nat): V16
    requires k < 8
  {
    if k == 0 then x.r0 else if k == 1 then x.r1 else if k == 2 then x.r2 else if k == 3 then x.r3
    else if k == 4 then x.r4 else if k == 5 then x.r5 else if k == 6 then x.r6 else x.r7
  }

  function Reg4(x: Regs4, k: nat): V16
    requires k < 4
  {
    if k == 0 then x.r0 else if k == 1 then x.r1 else if k == 2 then x.r2 else x.r3
  }

  function Flat8(x: Regs8): (b: bytes)
    ensures |b| == 128
  {
    ((BytesOf(x.r0) + BytesOf(x.r1)) + (BytesOf(x.r2) + BytesOf(x.r3)))
    + ((BytesOf(x.r4) + BytesOf(x.r5)) + (BytesOf(x.r6) + BytesOf(x.r7)))
  }

  function Flat4(x: Regs4): (b: bytes)
    ensures |b| == 64
  {
    (BytesOf(x.r0) + BytesOf(x.r1)) + (BytesOf(x.r2) + BytesOf(x.r3))
  }

  lemma ByteAt(v: V16, i: nat)
    requires i < 16
    ensures BytesOf(v)[i] == Byte(v, i)
  {
  }

  lemma FlatAt(x: Regs8, y: Regs4, m: nat, i: nat)
    requires i < 16
    ensures m < 8 ==> Flat8(x)[16 * m + i] == Byte(Reg8(x, m), i)
    ensures m < 4 ==> Flat4(y)[16 * m + i] == Byte(Reg4(y, m), i)
  {
    hide BytesOf, Byte;
    if m < 8 {
      ByteAt(Reg8(x, m), i);
    }
    if m < 4 {
      ByteAt(Reg4(y, m), i);
    }
  }

  lemma ColumnByte(src: bytes, at: nat, stride: nat, i: nat)
    requires stride == 1 || stride == 4 || stride == 8
    requires at + 15 * stride < |src| && i < 16
    ensures Byte(Column(src, at, stride), i) == src[at + i * stride]
  {
  }

  // ---------- what the vector code stores ----------

  /** Register `k` of shuffle4_sse2, shuffle4_avx2, shuffle8_sse2 or shuffle8_avx2. */
  function ShuffleColumn(src: bytes, at: nat, w: nat, avx: bool, k: nat): (b: bytes)
    requires (w == 4 || w == 8) && k < w && at + Times(w, Width(avx)) <= |src|
    ensures |b| == Width(avx)
  {
    if w == 8 then
      if !avx then BytesOf(Reg8(ShuffleRegs8(Load8(src, at, 16)), k))
      else
        var lo, hi := ShuffleRegs8(Load8(src, at, 32)), ShuffleRegs8(Load8(src, at + 16, 32));
        var y := WeaveWords(V32(Reg8(lo, k), Reg8(hi, k)));
        BytesOf(y.lo) + BytesOf(y.hi)
    else
      if !avx then BytesOf(Reg4(ShuffleRegs4(Load4(src, at, 16)), k))
      else
        var lo, hi := ShuffleRegs4(Load4(src, at, 32)), ShuffleRegs4(Load4(src, at + 16, 32));
        var y := WeaveDwords(V32(Reg4(lo, k), Reg4(hi, k)));
        BytesOf(y.lo) + BytesOf(y.hi)
  }

  /** Two bytes eight apart from each of eight registers, `step` apart. */
  function Pairs(src: bytes, a: nat, step: nat): V16
    requires a + 7 * step + 8 < |src|
  {
    V16(src[a], src[a + 8], src[a + step], src[a + step + 8],
        src[a + 2 * step], src[a + 2 * step + 8], src[a + 3 * step], src[a + 3 * step + 8],
        src[a + 4 * step], src[a + 4 * step + 8], src[a + 5 * step], src[a + 5 * step + 8],
        src[a + 6 * step], src[a + 6 * step + 8], src[a + 7 * step], src[a + 7 * step + 8])
  }

  /** Four bytes four apart from each of four registers. */
  function Fours(src: bytes, a: nat, step: nat): V16
    requires a + 3 * step + 12 < |src|
  {
    V16(src[a], src[a + 4], src[a + 8], src[a + 12],
        src[a + step], src[a + step + 4], src[a + step + 8], src[a + step + 12],
        src[a + 2 * step], src[a + 2 * step + 4], src[a + 2 * step + 8], src[a + 2 * step + 12],
        src[a + 3 * step], src[a + 3 * step + 4], src[a + 3 * step + 8], src[a + 3 * step + 12])
  }

  lemma LoadByte(src: bytes, at: nat, i: nat)
    requires at + 16 <= |src| && i < 16
    ensures Byte(Column(src, at, 1), i) == src[at + i]
  {
    ColumnByte(src, at, 1, i);
  }

  lemma Places8(src: bytes, at: nat, step: nat, k: nat)
    requires k < 8 && at + 7 * step + 16 <= |src|
    ensures Place8(Load8(src, at, step), k) == Pairs(src, at + k, step)
  {
    hide Byte, Column;
    LoadByte(src, at, k);
    LoadByte(src, at, k + 8);
    LoadByte(src, at + step, k);
    LoadByte(src, at + step, k + 8);
    LoadByte(src, at + 2 * step, k);
    LoadByte(src, at + 2 * step, k + 8);
    LoadByte(src, at + 3 * step, k);
    LoadByte(src, at + 3 * step, k + 8);
    LoadByte(src, at + 4 * step, k);
    LoadByte(src, at + 4 * step, k + 8);
    LoadByte(src, at + 5 * step, k);
    LoadByte(src, at + 5 * step, k + 8);
    LoadByte(src, at + 6 * step, k);
    LoadByte(src, at + 6 * step, k + 8);
    LoadByte(src, at + 7 * step, k);
    LoadByte(src, at + 7 * step, k + 8);
  }

  lemma Places4(src: bytes, at: nat, step: nat, k: nat)
    requires k < 4 && at + 3 * step + 16 <= |src|
    ensures Place4(Load4(src, at, step), k) == Fours(src, at + k, step)
  {
    hide Byte, Column;
    LoadByte(src, at, k);
    LoadByte(src, at, k + 4);
    LoadByte(src, at, k + 8);
    LoadByte(src, at, k + 12);
    LoadByte(src, at + step, k);
    LoadByte(src, at + step, k + 4);
    LoadByte(src, at + step, k + 8);
    LoadByte(src, at + step, k + 12);
    LoadByte(src, at + 2 * step, k);
    LoadByte(src, at + 2 * step, k + 4);
    LoadByte(src, at + 2 * step, k + 8);
    LoadByte(src, at + 2 * step, k + 12);
    LoadByte(src, at + 3 * step, k);
    LoadByte(src, at + 3 * step, k + 4);
    LoadByte(src, at + 3 * step, k + 8);
    LoadByte(src, at + 3 * step, k + 12);
  }

  lemma PairsAndFours(src: bytes, a: nat)
    ensures a + 120 < |src| ==> Pairs(src, a, 16) == Column(src, a, 8)
    ensures a + 60 < |src| ==> Fours(src, a, 16) == Column(src, a, 4)
  {
  }

  lemma WovenPairs(src: bytes, a: nat)
    requires a + 248 < |src|
    ensures UnpackLo16(Pairs(src, a, 32), Pairs(src, a + 16, 32)) == Column(src, a, 8)
    ensures UnpackHi16(Pairs(src, a, 32), Pairs(src, a + 16, 32)) == Column(src, a + 128, 8)
  {
  }

  lemma WovenFours(src: bytes, a: nat)
    requires a + 124 < |src|
    ensures UnpackLo32(Fours(src, a, 32), Fours(src, a + 16, 32)) == Column(src, a, 4)
    ensures UnpackHi32(Fours(src, a, 32), Fours(src, a + 16, 32)) == Column(src, a + 64, 4)
  {
  }

  lemma RegOfNetwork(x: Regs8, y: Regs4, k: nat)
    ensures k < 8 ==> Reg8(ShuffleRegs8(x), k) == Place8(x, k)
    ensures k < 4 ==> Reg4(ShuffleRegs4(y), k) == Place4(y, k)
  {
    hide Place8, Place4, ShuffleRegs8, ShuffleRegs4;
    ShuffleNetwork8(x);
    ShuffleNetwork4(y);
  }

  /** The column as a register, or as the two lanes of one. */
  lemma ColumnRegister(src: bytes, at: nat, w: nat, avx: bool, k: nat)
    requires (w == 4 || w == 8) && k < w && at + Times(w, Width(avx)) <= |src|
    ensures ShuffleColumn(src, at, w, avx, k) ==
      if avx then BytesOf(Column(src, at + k, w)) + BytesOf(Column(src, at + k + Times(w, 16), w))
      else BytesOf(Column(src, at + k, w))
  {
    hide Column, Pairs, Fours, Load8, Load4, ShuffleRegs8, ShuffleRegs4, Reg8, Reg4, WeaveWords, WeaveDwords,
         UnpackLo16, UnpackHi16, UnpackLo32, UnpackHi32, BytesOf, Place8, Place4;
    if w == 8 {
      if avx {
        WideColumn8(src, at, k);
      } else {
        RegOfNetwork8(src, at, 16, k);
        PairsAndFours(src, at + k);
      }
    } else {
      if avx {
        WideColumn4(src, at, k);
      } else {
        RegOfNetwork4(src, at, 16, k);
        PairsAndFours(src, at + k);
      }
    }
  }

  lemma RegOfNetwork8(src: bytes, at: nat, step: nat, k: nat)
    requires k < 8 && at + 7 * step + 16 <= |src|
    ensures Reg8(ShuffleRegs8(Load8(src, at, step)), k) == Pairs(src, at + k, step)
  {
    hide Place8, ShuffleRegs8, Pairs, Reg8, Load8;
    var none := Load8(src, at, step);
    Places8(src, at, step, k);
    RegOfNetwork(none, Regs4(none.r0, none.r0, none.r0, none.r0), k);
  }

  lemma RegOfNetwork4(src: bytes, at: nat, step: nat, k: nat)
    requires k < 4 && at + 3 * step + 16 <= |src|
    ensures Reg4(ShuffleRegs4(Load4(src, at, step)), k) == Fours(src, at + k, step)
  {
    hide Place4, ShuffleRegs4, Fours, Reg4, Load4;
    var y := Load4(src, at, step);
    Places4(src, at, step, k);
    RegOfNetwork(Regs8(y.r0, y.r0, y.r0, y.r0, y.r0, y.r0, y.r0, y.r0), y, k);
  }

  lemma WideColumn8(src: bytes, at: nat, k: nat)
    requires k < 8 && at + 256 <= |src|
    ensures ShuffleColumn(src, at, 8, true, k)
         == BytesOf(Column(src, at + k, 8)) + BytesOf(Column(src, at + k + 128, 8))
  {
    hide Column, Pairs, Load8, ShuffleRegs8, Reg8, WeaveWords, UnpackLo16, UnpackHi16, BytesOf;
    RegOfNetwork8(src, at, 32, k);
    RegOfNetwork8(src, at + 16, 32, k);
    Weaving(V32(Pairs(src, at + k, 32), Pairs(src, at + 16 + k, 32)));
    WovenPairs(src, at + k);
  }

  lemma WideColumn4(src: bytes, at: nat, k: nat)
    requires k < 4 && at + 128 <= |src|
    ensures ShuffleColumn(src, at, 4, true, k) == BytesOf(Column(src, at + k, 4)) + BytesOf(Column(src, at + k + 64, 4))
  {
    hide Column, Fours, Load4, ShuffleRegs4, Reg4, WeaveDwords, UnpackLo32, UnpackHi32, BytesOf;
    RegOfNetwork4(src, at, 32, k);
    RegOfNetwork4(src, at + 16, 32, k);
    Weaving(V32(Fours(src, at + k, 32), Fours(src, at + 16 + k, 32)));
    WovenFours(src, at + k);
  }

  /** Every vector path stores place `k` of its 16 or 32 elements. */
  lemma ShuffleColumnRight(src: bytes, at: nat, w: nat, avx: bool, k: nat, i: nat)
    requires (w == 4 || w == 8) && k < w && at + Times(w, Width(avx)) <= |src| && i < Width(avx)
    ensures ShuffleColumn(src, at, w, avx, k)[i] == src[at + Times(w, i) + k]
  {
    hide Column, ShuffleColumn, BytesOf, Byte;
    ColumnRegister(src, at, w, avx, k);
    var low := Column(src, at + k, w);
    if i < 16 {
      ByteAt(low, i);
      ColumnByte(src, at + k, w, i);
    } else {
      ByteAt(Column(src, at + k + Times(w, 16), w), i - 16);
      ColumnByte(src, at + k + Times(w, 16), w, i - 16);
    }
  }

  /** The sixteen or thirty-two elements that unshuffle4_sse2, unshuffle4_avx2, unshuffle8_sse2 or
      unshuffle8_avx2 store, from planes that are `n` apart. */
  function UnshuffleRows(src: bytes, at: nat, n: nat, w: nat, avx: bool): (b: bytes)
    requires (w == 4 || w == 8) && at + Width(avx) <= n && Times(w, n) <= |src|
    ensures |b| == Times(w, Width(avx))
  {
    if w == 8 then
      if !avx then Flat8(UnshuffleRegs8(Load8(src, at, n)))
      else
        var r := UnshuffleWide8(Load8(src, at, n), Load8(src, at + 16, n));
        Flat8(r.0) + Flat8(r.1)
    else
      if !avx then Flat4(UnshuffleRegs4(Load4(src, at, n)))
      else
        var r := UnshuffleWide4(Load4(src, at, n), Load4(src, at + 16, n));
        Flat4(r.0) + Flat4(r.1)
  }

  lemma PairByte(x: Regs8, e: nat, i: nat)
    requires e < 15 && i < 16
    ensures Byte(Pair8(x, e), i) == if i < 8 then Byte(Reg8(x, i), e) else Byte(Reg8(x, i - 8), e + 1)
  {
  }

  lemma FourByte(x: Regs4, e: nat, i: nat)
    requires e < 13 && i < 16
    ensures Byte(Four4(x, e), i) == Byte(Reg4(x, i % 4), e + i / 4)
  {
    var f := Four4(x, e);
    if i < 8 {
      assert i < 4 ==> i % 4 == i && i / 4 == 0;
      assert i >= 4 ==> i % 4 == i - 4 && i / 4 == 1;
    } else {
      assert i < 12 ==> i % 4 == i - 8 && i / 4 == 2;
      assert i >= 12 ==> i % 4 == i - 12 && i / 4 == 3;
    }
  }

  lemma UnshuffledReg8(x: Regs8, m: nat)
    requires m < 8
    ensures Reg8(UnshuffleRegs8(x), m) == Pair8(x, 2 * m)
  {
    hide Pair8, UnshuffleRegs8;
    UnshuffleNetwork8(x);
  }

  lemma UnshuffledReg4(x: Regs4, m: nat)
    requires m < 4
    ensures Reg4(UnshuffleRegs4(x), m) == Four4(x, 4 * m)
  {
    hide Four4, UnshuffleRegs4;
    UnshuffleNetwork4(x);
  }

  /** Byte `k` of element `i` is byte `i` of plane `k`. */
  lemma Unshuffled8(x: Regs8, i: nat, k: nat)
    requires i < 16 && k < 8
    ensures Flat8(UnshuffleRegs8(x))[8 * i + k] == Byte(Reg8(x, k), i)
  {
    hide Byte, Flat8, UnshuffleRegs8, Reg8, Pair8;
    var m, q := i / 2, 8 * (i % 2) + k;
    assert 8 * i + k == 16 * m + q;
    FlatAt(UnshuffleRegs8(x), Regs4(x.r0, x.r0, x.r0, x.r0), m, q);
    UnshuffledReg8(x, m);
    PairByte(x, 2 * m, q);
  }

  lemma Unshuffled4(x: Regs4, i: nat, k: nat)
    requires i < 16 && k < 4
    ensures Flat4(UnshuffleRegs4(x))[4 * i + k] == Byte(Reg4(x, k), i)
  {
    hide Byte, Flat4, UnshuffleRegs4, Reg4, Four4;
    var m, q := i / 4, 4 * (i % 4) + k;
    assert 4 * i + k == 16 * m + q;
    FlatAt(Regs8(x.r0, x.r0, x.r0, x.r0, x.r0, x.r0, x.r0, x.r0), UnshuffleRegs4(x), m, q);
    UnshuffledReg4(x, m);
    FourByte(x, 4 * m, q);
  }

  /** `k` times `n`, spelt out. */
  function Planes(n: nat, k: nat): nat {
    if k == 0 then 0 else if k == 1 then n else if k == 2 then 2 * n else if k == 3 then 3 * n
    else if k == 4 then 4 * n else if k == 5 then 5 * n else if k == 6 then 6 * n else 7 * n
  }

  lemma PlanesAre(n: nat, k: nat, i: nat)
    requires k < 8
    ensures At(k, n, i) == Planes(n, k) + i
  {
  }

  lemma LoadedByte8(src: bytes, at: nat, n: nat, k: nat, i: nat)
    requires i < 16 && k < 8 && at + 7 * n + 16 <= |src|
    ensures at + Planes(n, k) + i < |src|
    ensures Byte(Reg8(Load8(src, at, n), k), i) == src[at + Planes(n, k) + i]
  {
    hide Byte, Column;
    LoadByte(src, at + Planes(n, k), i);
  }

  lemma LoadedByte4(src: bytes, at: nat, n: nat, k: nat, i: nat)
    requires i < 16 && k < 4 && at + 3 * n + 16 <= |src|
    ensures at + Planes(n, k) + i < |src|
    ensures Byte(Reg4(Load4(src, at, n), k), i) == src[at + Planes(n, k) + i]
  {
    hide Byte, Column;
    LoadByte(src, at + Planes(n, k), i);
  }

  /** Every vector path stores whole elements, gathered from the planes. */
  lemma UnshuffleRowsRight(src: bytes, at: nat, n: nat, w: nat, avx: bool, i: nat, k: nat)
    requires (w == 4 || w == 8) && at + Width(avx) <= n && Times(w, n) <= |src| && i < Width(avx) && k < w
    ensures at + Planes(n, k) + i < |src|
    ensures UnshuffleRows(src, at, n, w, avx)[Times(w, i) + k] == src[at + Planes(n, k) + i]
  {
    hide UnshuffleRows, Planes;
    if w == 8 {
      Rows8Right(src, at, n, avx, i, k);
    } else {
      Rows4Right(src, at, n, avx, i, k);
    }
  }

  lemma Rows8Right(src: bytes, at: nat, n: nat, avx: bool, i: nat, k: nat)
    requires at + Width(avx) <= n && 8 * n <= |src| && i < Width(avx) && k < 8
    ensures at + Planes(n, k) + i < |src|
    ensures UnshuffleRows(src, at, n, 8, avx)[8 * i + k] == src[at + Planes(n, k) + i]
  {
    hide Flat8, Load8, UnshuffleRegs8, UnshuffleWide8, Reg8, Byte, Planes;
    var lo, from: nat := Load8(src, at, n), if i < 16 then at else at + 16;
    var e := if i < 16 then i else i - 16;
    LoadedByte8(src, from, n, k, e);
    Unshuffled8(Load8(src, from, n), e, k);
    if avx {
      UnshuffleWideNetwork8(lo, Load8(src, at + 16, n));
    }
  }

  lemma Rows4Right(src: bytes, at: nat, n: nat, avx: bool, i: nat, k: nat)
    requires at + Width(avx) <= n && 4 * n <= |src| && i < Width(avx) && k < 4
    ensures at + Planes(n, k) + i < |src|
    ensures UnshuffleRows(src, at, n, 4, avx)[4 * i + k] == src[at + Planes(n, k) + i]
  {
    hide Flat4, Load4, UnshuffleRegs4, UnshuffleWide4, Reg4, Byte, Planes;
    var lo, from: nat := Load4(src, at, n), if i < 16 then at else at + 16;
    var e := if i < 16 then i else i - 16;
    LoadedByte4(src, from, n, k, e);
    Unshuffled4(Load4(src, from, n), e, k);
    if avx {
      WideRows4(lo, Load4(src, at + 16, n));
    }
  }

  lemma WideRows4(lo: Regs4, hi: Regs4)
    ensures UnshuffleWide4(lo, hi) == (UnshuffleRegs4(lo), UnshuffleRegs4(hi))
  {
    hide ZipBytes4, ZipWords4;
  }

  // ---------- writing into the destination ----------

  lemma RowsApart(r1: nat, c1: nat, r2: nat, width: nat)
    requires c1 < width
    ensures r1 < r2 ==> At(r1, width, c1) < At(r2, width, 0)
    ensures r2 < r1 ==> At(r2, width, 0) + width <= At(r1, width, c1)
  {
    hide At;
    if r1 < r2 {
      AtBound(r1, r2, width, c1);
    } else if r2 < r1 {
      RowStep(r2, width);
      RowsMono(r2 + 1, r1, width);
      AtParts(r1, width, c1);
    }
  }

  /** A run of bytes copied into row `k` from column `j` on leaves the other places alone. */
  lemma RowRun(d: bytes, n: nat, w: nat, j: nat, k: nat, run: bytes, i: nat, q: nat)
    requires j + |run| <= n && k < w && i < n && q < w && At(w, n, 0) <= |d|
    ensures At(k, n, j) + |run| <= At(w, n, 0) && At(q, n, i) < |d|
    ensures Overlay(d, At(k, n, j), run)[At(q, n, i)] ==
      if q == k && j <= i < j + |run| then run[i - j] else d[At(q, n, i)]
  {
    hide At;
    AtParts(k, n, j);
    RowStep(k, n);
    RowsMono(k + 1, w, n);
    AtBound(q, w, n, i);
    AtParts(q, n, i);
    RowsApart(q, i, k, n);
  }

  lemma TailKept(d: bytes, end: nat, at: nat, run: bytes)
    requires at + |run| <= end <= |d|
    ensures Overlay(d, at, run)[end..] == d[end..]
  {
  }

  lemma OneByte(d: bytes, at: nat, b: byte)
    requires at < |d|
    ensures d[at := b] == Overlay(d, at, [b])
  {
  }

  /** Which places of the transpose are filled: all of the first `vec` elements, in the planes below `k`
      the elements below `lim`, and the elements below `i` of plane `k`. */
  ghost predicate Filled(src: bytes, d: bytes, n: nat, w: nat, vec: nat, lim: nat, k: nat, i: nat) {
    forall e, q {:trigger At(e, w, q)} ::
      0 <= e < n && 0 <= q < w && (e < vec || (q < k && e < lim) || (q == k && e < i)) ==>
      Same(src, At(e, w, q), d, At(q, n, e))
  }

  lemma FillRun(src: bytes, d: bytes, n: nat, w: nat, vec: nat, lim: nat, k: nat, i: nat, run: bytes)
    requires k < w && i + |run| <= n && At(w, n, 0) <= |d| && At(n, w, 0) <= |src|
    requires Filled(src, d, n, w, vec, lim, k, i)
    requires forall e: nat {:trigger At(e, w, k)} :: i <= e < i + |run| ==>
      At(e, w, k) < |src| && src[At(e, w, k)] == run[e - i]
    ensures At(k, n, i) + |run| <= |d|
    ensures Filled(src, Overlay(d, At(k, n, i), run), n, w, vec, lim, k, i + |run|)
  {
    hide At, Overlay;
    RowRunFits(n, w, i, k, run);
    var d' := Overlay(d, At(k, n, i), run);
    forall e: nat, q: nat | e < n && q < w && (e < vec || (q < k && e < lim) || (q == k && e < i + |run|))
      ensures Same(src, At(e, w, q), d', At(q, n, e))
    {
      RowRun(d, n, w, i, k, run, e, q);
      if q == k && i <= e < i + |run| {
        assert src[At(e, w, k)] == run[e - i];
      } else {
        assert Same(src, At(e, w, q), d, At(q, n, e));
      }
    }
  }

  lemma RowRunFits(n: nat, w: nat, j: nat, k: nat, run: bytes)
    requires j + |run| <= n && k < w
    ensures At(k, n, j) + |run| <= At(w, n, 0)
  {
    hide At;
    AtParts(k, n, j);
    RowStep(k, n);
    RowsMono(k + 1, w, n);
  }

  lemma Commutes(n: nat, w: nat)
    ensures At(w, n, 0) == At(n, w, 0)
  {
  }

  // ---------- shuffling ----------

  /** shuffle_generic_inline: the elements from `vec` on, one byte at a time. */
  method ShuffleGeneric(w: nat, vec: nat, src: bytes, dest: array<byte>, n: nat)
    requires At(n, w, 0) <= |src| && At(n, w, 0) <= dest.Length && vec <= n
    requires Filled(src, dest[..], n, w, vec, n, 0, 0)
    modifies dest
    ensures Transposed(src, dest[..], n, w)
    ensures dest[At(n, w, 0)..] == old(dest[At(n, w, 0)..])
  {
    hide At;
    Commutes(n, w);
    var j := 0;
    while j < w
      invariant j <= w && Filled(src, dest[..], n, w, vec, n, j, 0)
      invariant dest[At(n, w, 0)..] == old(dest[At(n, w, 0)..])
    {
      assert Filled(src, dest[..], n, w, vec, n, j, vec);
      var i := vec;
      while i < n
        invariant vec <= i <= n && Filled(src, dest[..], n, w, vec, n, j, i)
        invariant dest[At(n, w, 0)..] == old(dest[At(n, w, 0)..])
      {
        AtBound(i, n, w, j);
        ghost var b := [src[At(i, w, j)]];
        RowRunFits(n, w, i, j, b);
        FillRun(src, dest[..], n, w, vec, n, j, i, b);
        OneByte(dest[..], At(j, n, i), src[At(i, w, j)]);
        TailKept(dest[..], At(n, w, 0), At(j, n, i), b);
        dest[At(j, n, i)] := src[At(i, w, j)];
        i := i + 1;
      }
      j := j + 1;
    }
  }

  lemma ElementAt(i: nat, w: nat, k: nat)
    requires w == 4 || w == 8
    ensures At(i, w, k) == Times(w, i) + k
  {
  }

  /** The four vector routines: 16 or 32 elements at a time. */
  method ShuffleVector(w: nat, avx: bool, vec: nat, src: bytes, dest: array<byte>, n: nat)
    requires (w == 4 || w == 8) && vec % Width(avx) == 0 && vec <= n
    requires At(n, w, 0) <= |src| && At(n, w, 0) <= dest.Length
    modifies dest
    ensures Filled(src, dest[..], n, w, vec, n, 0, 0)
    ensures dest[At(n, w, 0)..] == old(dest[At(n, w, 0)..])
  {
    hide At, ShuffleColumn;
    Commutes(n, w);
    var j := 0;
    while j < vec
      invariant j <= vec && j % Width(avx) == 0
      invariant Filled(src, dest[..], n, w, j, n, 0, 0)
      invariant dest[At(n, w, 0)..] == old(dest[At(n, w, 0)..])
    {
      var end := j + Width(avx);
      NextChunk(j, vec, avx);
      ChunkInside(n, w, end);
      assert Filled(src, dest[..], n, w, j, end, 0, 0);
      var k := 0;
      while k < w
        invariant k <= w && Filled(src, dest[..], n, w, j, end, k, 0)
        invariant dest[At(n, w, 0)..] == old(dest[At(n, w, 0)..])
      {
        var column := ShuffleColumn(src, Times(w, j), w, avx, k);
        StoreColumn(src, dest[..], n, w, avx, j, k);
        TailKept(dest[..], At(n, w, 0), At(k, n, j), column);
        CopyIn(dest, At(k, n, j), column);
        k := k + 1;
      }
      assert Filled(src, dest[..], n, w, end, n, 0, 0);
      j := end;
    }
  }

  lemma NextChunk(j: nat, vec: nat, avx: bool)
    requires j < vec && j % Width(avx) == 0 && vec % Width(avx) == 0
    ensures j + Width(avx) <= vec && (j + Width(avx)) % Width(avx) == 0
  {
    if avx {
      assert j == 32 * (j / 32) && vec == 32 * (vec / 32);
    } else {
      assert j == 16 * (j / 16) && vec == 16 * (vec / 16);
    }
  }

  lemma ChunkInside(n: nat, w: nat, end: nat)
    requires (w == 4 || w == 8) && end <= n
    ensures Times(w, end) <= At(n, w, 0)
  {
    ElementAt(n, w, 0);
  }

  lemma StoreColumn(src: bytes, d: bytes, n: nat, w: nat, avx: bool, j: nat, k: nat)
    requires (w == 4 || w == 8) && k < w && j + Width(avx) <= n
    requires At(w, n, 0) <= |d| && At(n, w, 0) <= |src| && Times(w, j + Width(avx)) <= |src|
    requires Filled(src, d, n, w, j, j + Width(avx), k, 0)
    ensures var column := ShuffleColumn(src, Times(w, j), w, avx, k);
      && At(k, n, j) + |column| <= At(w, n, 0)
      && Filled(src, Overlay(d, At(k, n, j), column), n, w, j, j + Width(avx), k + 1, 0)
  {
    hide At, ShuffleColumn;
    var column := ShuffleColumn(src, Times(w, j), w, avx, k);
    RowRunFits(n, w, j, k, column);
    forall e: nat {:trigger At(e, w, k)} | j <= e < j + |column|
      ensures At(e, w, k) < |src| && src[At(e, w, k)] == column[e - j]
    {
      ElementAt(e, w, k);
      ShuffleColumnRight(src, Times(w, j), w, avx, k, e - j);
    }
    assert Filled(src, d, n, w, j, j + Width(avx), k, j);
    FillRun(src, d, n, w, j, j + Width(avx), k, j, column);
  }

  datatype Path = Plain | Sse2 | Avx2

  lemma ChunksOf4(size: nat)
    ensures size - size % 64 == 64 * (size / 64) && size - size % 128 == 128 * (size / 128)
    ensures 4 * (size / 4) <= size < 4 * (size / 4) + 4
  {
  }

  lemma ChunksOf8(size: nat)
    ensures size - size % 128 == 128 * (size / 128) && size - size % 256 == 256 * (size / 256)
    ensures 8 * (size / 8) <= size < 8 * (size / 8) + 8
  {
  }

  lemma Quotients(q: nat)
    ensures 64 * q / 4 == 16 * q && 128 * q / 4 == 32 * q && 128 * q / 8 == 16 * q && 256 * q / 8 == 32 * q
    ensures 16 * q % 16 == 0 && 32 * q % 32 == 0
  {
  }

  /** How many elements the vector code takes: a multiple of its width. */
  lemma Vectorizable(size: nat, w: nat, avx: bool)
    requires w == 4 || w == 8
    ensures var chunk := Times(w, Width(avx));
      var whole := size - size % chunk;
      var vec := whole / w;
      && vec % Width(avx) == 0 && vec <= size / w
      && (size == whole ==> vec == size / w)
    ensures At(size / w, w, 0) <= size
  {
    hide At;
    ElementAt(size / w, w, 0);
    if w == 4 {
      ChunksOf4(size);
      Quotients(size / (if avx then 128 else 64));
    } else {
      ChunksOf8(size);
      Quotients(size / (if avx then 256 else 128));
    }
  }

  /** blosc_shuffle. The vector code exists for elements of four and eight bytes. */
  method BloscShuffle(path: Path, src: bytes, dest: array<byte>, w: nat)
    requires (w == 4 || w == 8) && |src| <= dest.Length
    modifies dest
    ensures Transposed(src, dest[..], |src| / w, w)
    ensures dest[At(|src| / w, w, 0)..] == old(dest[At(|src| / w, w, 0)..])
  {
    hide At, Filled, Transposed;
    var n := |src| / w;
    var avx := path == Avx2;
    Vectorizable(|src|, w, avx);
    if path == Plain {
      NothingFilled(src, dest[..], n, w);
      ShuffleGeneric(w, 0, src, dest, n);
    } else {
      var chunk := Times(w, Width(avx));
      var whole := |src| - |src| % chunk;
      var vec := whole / w;
      ShuffleVector(w, avx, vec, src, dest, n);
      if |src| != whole {
        ShuffleGeneric(w, vec, src, dest, n);
      } else {
        AllFilled(src, dest[..], n, w);
      }
    }
  }

  lemma NothingFilled(src: bytes, d: bytes, n: nat, w: nat)
    ensures Filled(src, d, n, w, 0, n, 0, 0)
  {
  }

  lemma AllFilled(src: bytes, d: bytes, n: nat, w: nat)
    requires Filled(src, d, n, w, n, n, 0, 0) && At(n, w, 0) <= |src| && At(n, w, 0) <= |d|
    ensures Transposed(src, d, n, w)
  {
    hide At;
  }

  // ---------- unshuffling ----------

  /** The elements below `i` are back, and the bytes below `k` of element `i`. */
  ghost predicate Restored(src: bytes, d: bytes, n: nat, w: nat, i: nat, k: nat) {
    forall e, q {:trigger At(e, w, q)} :: 0 <= e < n && 0 <= q < w && (e < i || (e == i && q < k)) ==>
      Same(d, At(e, w, q), src, At(q, n, e))
  }

  lemma RestoreOne(src: bytes, d: bytes, n: nat, w: nat, i: nat, k: nat)
    requires i < n && k < w && At(n, w, 0) <= |d| && At(w, n, 0) <= |src|
    requires Restored(src, d, n, w, i, k)
    ensures At(i, w, k) < |d| && At(k, n, i) < |src|
    ensures Restored(src, Overlay(d, At(i, w, k), [src[At(k, n, i)]]), n, w, i, k + 1)
  {
    hide At, Overlay;
    AtBound(i, n, w, k);
    AtBound(k, w, n, i);
    var run := [src[At(k, n, i)]];
    var d' := Overlay(d, At(i, w, k), run);
    forall e: nat, q: nat | e < n && q < w && (e < i || (e == i && q < k + 1))
      ensures Same(d', At(e, w, q), src, At(q, n, e))
    {
      RowRun(d, w, n, k, i, run, q, e);
      if e != i || q != k {
        assert Same(d, At(e, w, q), src, At(q, n, e));
      }
    }
  }

  /** unshuffle_generic_inline: the elements from `vec` on, one byte at a time. */
  method UnshuffleGeneric(w: nat, vec: nat, src: bytes, dest: array<byte>, n: nat)
    requires At(n, w, 0) <= |src| && At(n, w, 0) <= dest.Length && vec <= n
    requires Restored(src, dest[..], n, w, vec, 0)
    modifies dest
    ensures Transposed(dest[..], src, n, w)
    ensures dest[At(n, w, 0)..] == old(dest[At(n, w, 0)..])
  {
    hide At;
    Commutes(n, w);
    var i := vec;
    while i < n
      invariant vec <= i <= n && Restored(src, dest[..], n, w, i, 0)
      invariant dest[At(n, w, 0)..] == old(dest[At(n, w, 0)..])
    {
      var j := 0;
      while j < w
        invariant j <= w && Restored(src, dest[..], n, w, i, j)
        invariant dest[At(n, w, 0)..] == old(dest[At(n, w, 0)..])
      {
        AtBound(i, n, w, j);
        RestoreOne(src, dest[..], n, w, i, j);
        OneByte(dest[..], At(i, w, j), src[At(j, n, i)]);
        TailKept(dest[..], At(n, w, 0), At(i, w, j), [src[At(j, n, i)]]);
        dest[At(i, w, j)] := src[At(j, n, i)];
        j := j + 1;
      }
      i := i + 1;
    }
  }

  lemma StoreRows(src: bytes, d: bytes, n: nat, w: nat, avx: bool, j: nat)
    requires (w == 4 || w == 8) && j + Width(avx) <= n
    requires At(n, w, 0) <= |d| && Times(w, n) <= |src| && At(w, n, 0) <= |src|
    requires Restored(src, d, n, w, j, 0)
    ensures var rows := UnshuffleRows(src, j, n, w, avx);
      && Times(w, j) + |rows| <= At(n, w, 0)
      && Restored(src, Overlay(d, Times(w, j), rows), n, w, j + Width(avx), 0)
  {
    hide At, UnshuffleRows, Planes;
    var rows := UnshuffleRows(src, j, n, w, avx);
    ElementAt(n, w, 0);
    var d' := Overlay(d, Times(w, j), rows);
    forall e: nat, q: nat | e < n && q < w && e < j + Width(avx)
      ensures Same(d', At(e, w, q), src, At(q, n, e))
    {
      ElementAt(e, w, q);
      PlanesAre(n, q, e);
      if e < j {
        assert Same(d, At(e, w, q), src, At(q, n, e));
      } else {
        UnshuffleRowsRight(src, j, n, w, avx, e - j, q);
      }
    }
  }

  method UnshuffleVector(w: nat, avx: bool, vec: nat, src: bytes, dest: array<byte>, n: nat)
    requires (w == 4 || w == 8) && vec % Width(avx) == 0 && vec <= n
    requires At(n, w, 0) <= |src| && At(n, w, 0) <= dest.Length
    modifies dest
    ensures Restored(src, dest[..], n, w, vec, 0)
    ensures dest[At(n, w, 0)..] == old(dest[At(n, w, 0)..])
  {
    hide At, UnshuffleRows;
    Commutes(n, w);
    ElementAt(n, w, 0);
    var i := 0;
    while i < vec
      invariant i <= vec && i % Width(avx) == 0
      invariant Restored(src, dest[..], n, w, i, 0)
      invariant dest[At(n, w, 0)..] == old(dest[At(n, w, 0)..])
    {
      NextChunk(i, vec, avx);
      StoreRows(src, dest[..], n, w, avx, i);
      var rows := UnshuffleRows(src, i, n, w, avx);
      TailKept(dest[..], At(n, w, 0), Times(w, i), rows);
      CopyIn(dest, Times(w, i), rows);
      i := i + Width(avx);
    }
  }

  /** blosc_unshuffle */
  method BloscUnshuffle(path: Path, src: bytes, dest: array<byte>, w: nat)
    requires (w == 4 || w == 8) && |src| <= dest.Length
    modifies dest
    ensures Transposed(dest[..], src, |src| / w, w)
    ensures dest[At(|src| / w, w, 0)..] == old(dest[At(|src| / w, w, 0)..])
  {
    hide At, Restored, Transposed;
    var n := |src| / w;
    var avx := path == Avx2;
    Vectorizable(|src|, w, avx);
    if path == Plain {
      NothingRestored(src, dest[..], n, w);
      UnshuffleGeneric(w, 0, src, dest, n);
    } else {
      var chunk := Times(w, Width(avx));
      var whole := |src| - |src| % chunk;
      var vec := whole / w;
      UnshuffleVector(w, avx, vec, src, dest, n);
      UnshuffleGeneric(w, vec, src, dest, n);
    }
  }

  lemma NothingRestored(src: bytes, d: bytes, n: nat, w: nat)
    ensures Restored(src, d, n, w, 0, 0)
  {
  }

  /** Any path of unshuffling undoes any path of shuffling, whatever is left over behind the last whole
      element. */
  method ShuffleThenUnshuffle(path: Path, other: Path, src: bytes, w: nat) returns (back: bytes)
    requires w == 4 || w == 8
    ensures |back| == |src| && back[..|src| / w * w] == src[..|src| / w * w]
  {
    hide Transposed, At;
    var shuffled, restored := new byte[|src|], new byte[|src|];
    BloscShuffle(path, src, shuffled, w);
    BloscUnshuffle(other, shuffled[..], restored, w);
    back := restored[..];
    TransposedBack(src, shuffled[..], back, |src| / w, w);
    assert At(|src| / w, w, 0) == |src| / w * w by { WholeElements(|src| / w, w); }
  }

  lemma WholeElements(n: nat, w: nat)
    ensures At(n, w, 0) == n * w
  {
  }

  // ---------- the transpose as a value ----------

  /** Byte `k` of every element. */
  function Plane(src: bytes, n: nat, w: nat, k: nat): (b: bytes)
    requires (w == 4 || w == 8) && Times(w, n) <= |src| && k < w
    ensures |b| == n
  {
    seq(n, i requires 0 <= i < n => src[Times(w, i) + k])
  }

  function PlanesTo(src: bytes, n: nat, w: nat, k: nat): (b: bytes)
    requires (w == 4 || w == 8) && Times(w, n) <= |src| && k <= w
    ensures |b| == At(k, n, 0)
    decreases k
  {
    if k == 0 then []
    else
      RowStep(k - 1, n);
      PlanesTo(src, n, w, k - 1) + Plane(src, n, w, k - 1)
  }

  function Element(b: bytes, n: nat, w: nat, i: nat): (e: bytes)
    requires At(w, n, 0) <= |b| && i < n
    ensures |e| == w
  {
    seq(w, k requires 0 <= k < w => (AtBound(k, w, n, i); b[At(k, n, i)]))
  }

  function ElementsTo(b: bytes, n: nat, w: nat, i: nat): (d: bytes)
    requires At(w, n, 0) <= |b| && i <= n
    ensures |d| == At(i, w, 0)
    decreases i
  {
    if i == 0 then []
    else
      RowStep(i - 1, w);
      ElementsTo(b, n, w, i - 1) + Element(b, n, w, i - 1)
  }

  /** There is only one transpose. */
  lemma {:induction false} TransposeIs(src: bytes, d: bytes, n: nat, w: nat, k: nat)
    requires (w == 4 || w == 8) && Times(w, n) <= |src| && k <= w
    requires Transposed(src, d, n, w)
    ensures At(k, n, 0) <= |d| && d[..At(k, n, 0)] == PlanesTo(src, n, w, k)
    decreases k
  {
    hide At;
    Commutes(n, w);
    RowsMono(k, w, n);
    if k > 0 {
      TransposeIs(src, d, n, w, k - 1);
      RowStep(k - 1, n);
      var at, plane := At(k - 1, n, 0), Plane(src, n, w, k - 1);
      forall i | 0 <= i < n ensures d[at + i] == plane[i] {
        assert Same(src, At(i, w, k - 1), d, At(k - 1, n, i));
        AtParts(k - 1, n, i);
        ElementAt(i, w, k - 1);
      }
      assert d[..at + n] == d[..at] + plane;
    } else {
      assert d[..At(0, n, 0)] == [] by { NoRows(n); }
    }
  }

  lemma NoRows(n: nat)
    ensures At(0, n, 0) == 0
  {
  }

  lemma {:induction false} InverseIs(d: bytes, b: bytes, n: nat, w: nat, i: nat)
    requires (w == 4 || w == 8) && i <= n && At(w, n, 0) <= |b|
    requires Transposed(d, b, n, w)
    ensures At(i, w, 0) <= |d| && d[..At(i, w, 0)] == ElementsTo(b, n, w, i)
    decreases i
  {
    hide At;
    RowsMono(i, n, w);
    if i > 0 {
      InverseIs(d, b, n, w, i - 1);
      RowStep(i - 1, w);
      var at, element := At(i - 1, w, 0), Element(b, n, w, i - 1);
      forall k | 0 <= k < w ensures d[at + k] == element[k] {
        assert Same(d, At(i - 1, w, k), b, At(k, n, i - 1));
        AtParts(i - 1, w, k);
      }
      assert d[..at + w] == d[..at] + element;
    } else {
      assert d[..At(0, w, 0)] == [] by { NoRows(w); }
    }
  }

  lemma {:induction false} PlanesAt(src: bytes, n: nat, w: nat, k: nat, q: nat, i: nat)
    requires (w == 4 || w == 8) && Times(w, n) <= |src| && k <= w && q < k && i < n
    ensures At(q, n, i) < At(k, n, 0) && Times(w, i) + q < |src|
    ensures PlanesTo(src, n, w, k)[At(q, n, i)] == src[Times(w, i) + q]
    decreases k
  {
    hide At, PlanesTo, Plane, Times;
    AtBound(q, k, n, i);
    if q < k - 1 {
      PlanesAt(src, n, w, k - 1, q, i);
      FormerPlane(src, n, w, k, At(q, n, i));
    } else {
      LastPlane(src, n, w, k, i);
    }
  }

  lemma FormerPlane(src: bytes, n: nat, w: nat, k: nat, at: nat)
    requires (w == 4 || w == 8) && Times(w, n) <= |src| && 0 < k <= w && at < At(k - 1, n, 0)
    ensures at < |PlanesTo(src, n, w, k)| && PlanesTo(src, n, w, k)[at] == PlanesTo(src, n, w, k - 1)[at]
  {
    hide At, Plane, PlanesTo, Times;
    PlanesStep(src, n, w, k);
  }

  lemma PlanesStep(src: bytes, n: nat, w: nat, k: nat)
    requires (w == 4 || w == 8) && Times(w, n) <= |src| && 0 < k <= w
    ensures PlanesTo(src, n, w, k) == PlanesTo(src, n, w, k - 1) + Plane(src, n, w, k - 1)
  {
    hide At, Plane, Times;
  }

  lemma LastPlane(src: bytes, n: nat, w: nat, k: nat, i: nat)
    requires (w == 4 || w == 8) && Times(w, n) <= |src| && 0 < k <= w && i < n
    ensures At(k - 1, n, i) < |PlanesTo(src, n, w, k)| && Times(w, i) + (k - 1) < |src|
    ensures PlanesTo(src, n, w, k)[At(k - 1, n, i)] == src[Times(w, i) + (k - 1)]
  {
    hide At, Plane, PlanesTo, Times;
    PlanesStep(src, n, w, k);
    PlaneAt(src, n, w, k - 1, i);
    AtParts(k - 1, n, i);
    AppendedAt(PlanesTo(src, n, w, k - 1), Plane(src, n, w, k - 1), i);
  }

  lemma PlaneAt(src: bytes, n: nat, w: nat, k: nat, i: nat)
    requires (w == 4 || w == 8) && Times(w, n) <= |src| && k < w && i < n
    ensures Times(w, i) + k < |src| && Plane(src, n, w, k)[i] == src[Times(w, i) + k]
  {
  }

  lemma AppendedAt(a: bytes, b: bytes, i: nat)
    requires i < |b|
    ensures (a + b)[|a| + i] == b[i]
  {
  }
}
