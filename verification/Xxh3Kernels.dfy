/** The steps of XXH3 on real 64-bit lanes: the scalar code, the SSE2 and the AVX2 code, and the portable
    64 by 64 bit multiplication. */
module Xxh3Kernels {
  import opened Bytes
  import opened Xxh3Spec

  type Lanes = s: seq<bv64> | |s| == 8 witness [0, 0, 0, 0, 0, 0, 0, 0]

  const PRIME32_1: bv64 := 0x9E3779B1
  const PRIME32_2: bv64 := 0x85EBCA77
  const PRIME32_3: bv64 := 0xC2B2AE3D
  const PRIME64_1: bv64 := 0x9E3779B185EBCA87
  const PRIME64_2: bv64 := 0xC2B2AE3D27D4EB4F
  const PRIME64_3: bv64 := 0x165667B19E3779F9
  const PRIME64_4: bv64 := 0x85EBCA77C2B2AE63
  const PRIME64_5: bv64 := 0x27D4EB2F165667C5
  const PRIME_MX1: bv64 := 0x165667919E3779F9

  // ---------- 64-bit words ----------

  function ReadLE64(b: bytes, at: nat): bv64
    requires at + 8 <= |b|
  {
    LEOfFromLE(b[at..at + 8]);
    PowValues();
    FromLE(b[at..at + 8]) as bv64
  }

  // The machine operations, by name: the proofs about lanes hide their bodies and use the word facts below.

  function Add(a: bv64, b: bv64): bv64 {
    a + b
  }

  function Mul(a: bv64, b: bv64): bv64 {
    a * b
  }

  function Xor(a: bv64, b: bv64): bv64 {
    a ^ b
  }

  function Or(a: bv64, b: bv64): bv64 {
    a | b
  }

  function Lo(x: bv64): bv64 {
    x & 0xFFFF_FFFF
  }

  function Hi(x: bv64): bv64 {
    x >> 32
  }

  function Up(x: bv64): bv64 {
    x << 32
  }

  function XorShift47(x: bv64): bv64 {
    x ^ (x >> 47)
  }

  /** 32 by 32 bit multiplication of the low halves. */
  function Mul32(a: bv64, b: bv64): bv64 {
    Mul(Lo(a), Lo(b))
  }

  lemma LoHi(x: bv64)
    ensures Lo(Hi(x)) == Hi(x) && Lo(Lo(x)) == Lo(x)
  {
  }

  lemma Halves(x: bv64)
    ensures Or(Up(Hi(x)), Lo(x)) == x && Add(Lo(x), Up(Hi(x))) == x
  {
  }

  lemma LowHalf(y: bv64, x: bv64)
    ensures Lo(Or(Up(y), Hi(x))) == Hi(x) && Lo(Or(Up(y), Lo(x))) == Lo(x)
  {
  }

  lemma AddFacts(a: bv64, b: bv64, c: bv64)
    ensures Add(c, Add(a, b)) == Add(Add(a, b), c)
    ensures Add(Add(a, b), c) == Add(Add(a, c), b)
    ensures Add(a, 0) == a
  {
  }

  lemma PrimeIsLow()
    ensures Lo(PRIME32_1) == PRIME32_1
  {
  }

  lemma UpIsMul(x: bv64)
    ensures Up(x) == Mul(x, 0x1_0000_0000)
  {
  }

  // Multiplication distributes over addition. Each step has at most one named operation opened, so that
  // no multiplier circuit has to be searched.

  /** Both sides of the law, in raw operators. */
  function Both(a: bv64, b: bv64, c: bv64, d: bv64): bv64 {
    a * c + (b * c) * d
  }

  lemma MulMeans(a: bv64, b: bv64)
    ensures Mul(a, b) == a * b
  {
  }

  lemma MulProduct(b: bv64, c: bv64, d: bv64)
    ensures Mul(b * c, d) == (b * c) * d
  {
  }

  lemma AddMeans(a: bv64, b: bv64, d: bv64)
    ensures Add(a, b * d) == a + b * d
  {
  }

  lemma MulSum(a: bv64, b: bv64, c: bv64, d: bv64)
    ensures Mul(a + b * d, c) == Both(a, b, c, d)
  {
  }

  lemma AddBoth(a: bv64, b: bv64, c: bv64, d: bv64)
    ensures Add(a * c, (b * c) * d) == Both(a, b, c, d)
  {
  }

  lemma MulTwice(b: bv64, c: bv64, d: bv64)
    ensures Mul(Mul(b, c), d) == (b * c) * d
  {
    hide Mul;
    MulMeans(b, c);
    MulProduct(b, c, d);
  }

  lemma AddProduct(a: bv64, b: bv64, d: bv64)
    ensures Add(a, Mul(b, d)) == a + b * d
  {
    hide Mul, Add;
    MulMeans(b, d);
    AddMeans(a, b, d);
  }

  lemma ProductOfSum(a: bv64, b: bv64, c: bv64, d: bv64)
    ensures Mul(Add(a, Mul(b, d)), c) == Both(a, b, c, d)
  {
    hide Mul, Add, Both;
    AddProduct(a, b, d);
    MulSum(a, b, c, d);
  }

  lemma SumOfProducts(a: bv64, b: bv64, c: bv64, d: bv64)
    ensures Add(Mul(a, c), Mul(Mul(b, c), d)) == Both(a, b, c, d)
  {
    hide Mul, Add, Both;
    MulMeans(a, c);
    MulTwice(b, c, d);
    AddBoth(a, b, c, d);
  }

  lemma Distribute(lo: bv64, hi: bv64)
    ensures Mul(Add(lo, Up(hi)), PRIME32_1) == Add(Mul(lo, PRIME32_1), Up(Mul(hi, PRIME32_1)))
  {
    hide Add, Mul, Up, Both;
    UpIsMul(hi);
    UpIsMul(Mul(hi, PRIME32_1));
    ProductOfSum(lo, hi, PRIME32_1, 0x1_0000_0000);
    SumOfProducts(lo, hi, PRIME32_1, 0x1_0000_0000);
  }

  // ---------- what one stripe and one scramble do to a lane ----------

  function Partner(i: nat): (j: nat)
    requires i < 8
    ensures j < 8 && j != i
  {
    if i % 2 == 0 then i + 1 else i - 1
  }

  function DataKey(input: bytes, secret: bytes, i: nat): bv64
    requires |input| >= 64 && |secret| >= 64 && i < 8
  {
    Xor(ReadLE64(input, 8 * i), ReadLE64(secret, 8 * i))
  }

  function Product(input: bytes, secret: bytes, i: nat): bv64
    requires |input| >= 64 && |secret| >= 64 && i < 8
  {
    Mul32(DataKey(input, secret, i), Hi(DataKey(input, secret, i)))
  }

  function AccumulateLane(acc: Lanes, input: bytes, secret: bytes, i: nat): bv64
    requires |input| >= 64 && |secret| >= 64 && i < 8
  {
    Add(Add(acc[i], ReadLE64(input, 8 * Partner(i))), Product(input, secret, i))
  }

  function Accumulated(acc: Lanes, input: bytes, secret: bytes): (r: Lanes)
    requires |input| >= 64 && |secret| >= 64
  {
    seq(8, i requires 0 <= i < 8 => AccumulateLane(acc, input, secret, i))
  }

  function ScrambleLane(acc: Lanes, secret: bytes, i: nat): bv64
    requires |secret| >= 64 && i < 8
  {
    Mul(Xor(XorShift47(acc[i]), ReadLE64(secret, 8 * i)), PRIME32_1)
  }

  function Scrambled(acc: Lanes, secret: bytes): (r: Lanes)
    requires |secret| >= 64
  {
    seq(8, i requires 0 <= i < 8 => ScrambleLane(acc, secret, i))
  }

  // ---------- scalar ----------

  /** Lane `j` when scalar rounds 0 to `n - 1` are done: round `i` adds its input word to the partner lane
      and its product to its own. */
  function AfterRounds(acc: Lanes, input: bytes, secret: bytes, n: nat, j: nat): bv64
    requires |input| >= 64 && |secret| >= 64 && j < 8
  {
    var a := if Partner(j) < n then Add(acc[j], ReadLE64(input, 8 * Partner(j))) else acc[j];
    if j < n then Add(a, Product(input, secret, j)) else a
  }

  /** The two lanes that round `i` changes. */
  lemma RoundLanes(acc: Lanes, input: bytes, secret: bytes, i: nat)
    requires |input| >= 64 && |secret| >= 64 && i < 8
    ensures var p := Partner(i);
      && AfterRounds(acc, input, secret, i + 1, i)
         == Add(AfterRounds(acc, input, secret, i, i), Product(input, secret, i))
      && AfterRounds(acc, input, secret, i + 1, p)
         == Add(AfterRounds(acc, input, secret, i, p), ReadLE64(input, 8 * i))
  {
    hide Add, ReadLE64, Product;
    var p := Partner(i);
    assert Partner(p) == i && (p < i <==> p == i - 1) && (i < p <==> p == i + 1);
    AddFacts(acc[p], ReadLE64(input, 8 * i), Product(input, secret, p));
  }

  lemma BeforeRounds(acc: Lanes, input: bytes, secret: bytes)
    requires |input| >= 64 && |secret| >= 64
    ensures forall j :: 0 <= j < 8 ==> AfterRounds(acc, input, secret, 0, j) == acc[j]
  {
  }

  lemma OtherLanes(acc: Lanes, input: bytes, secret: bytes, i: nat)
    requires |input| >= 64 && |secret| >= 64 && i < 8
    ensures forall j :: 0 <= j < 8 && j != i && j != Partner(i) ==>
      AfterRounds(acc, input, secret, i + 1, j) == AfterRounds(acc, input, secret, i, j)
  {
    hide Add, ReadLE64, Product;
  }

  lemma AllRounds(acc: Lanes, input: bytes, secret: bytes)
    requires |input| >= 64 && |secret| >= 64
    ensures forall j :: 0 <= j < 8 ==>
      AfterRounds(acc, input, secret, 8, j) == AccumulateLane(acc, input, secret, j)
  {
    hide Add, ReadLE64, Product;
  }

  method AccumulateScalar(acc: array<bv64>, input: bytes, secret: bytes)
    requires acc.Length == 8 && |input| >= 64 && |secret| >= 64
    modifies acc
    ensures acc[..] == Accumulated(old(acc[..]), input, secret)
  {
    hide Add, ReadLE64, Product, AfterRounds, AccumulateLane;
    ghost var acc0: Lanes := acc[..];
    BeforeRounds(acc0, input, secret);
    var i := 0;
    while i < 8
      invariant i <= 8
      invariant forall j :: 0 <= j < 8 ==> acc[j] == AfterRounds(acc0, input, secret, i, j)
    {
      var p := Partner(i);
      RoundLanes(acc0, input, secret, i);
      OtherLanes(acc0, input, secret, i);
      acc[p] := Add(acc[p], ReadLE64(input, 8 * i));
      acc[i] := Add(acc[i], Product(input, secret, i));
      i := i + 1;
    }
    AllRounds(acc0, input, secret);
  }

  method ScrambleScalar(acc: array<bv64>, secret: bytes)
    requires acc.Length == 8 && |secret| >= 64
    modifies acc
    ensures acc[..] == Scrambled(old(acc[..]), secret)
  {
    hide ReadLE64, Mul, XorShift47, Xor;
    ghost var acc0: Lanes := acc[..];
    var i := 0;
    while i < 8
      invariant i <= 8
      invariant forall j :: 0 <= j < 8 ==> acc[j] == if j < i then ScrambleLane(acc0, secret, j) else acc0[j]
    {
      acc[i] := Mul(Xor(XorShift47(acc[i]), ReadLE64(secret, 8 * i)), PRIME32_1);
      i := i + 1;
    }
  }

  // ---------- SSE2 and AVX2 ----------

  /** A 128-bit register as two 64-bit lanes. */
  datatype V128 = V128(a: bv64, b: bv64)

  function Load128(b: bytes, at: nat): V128
    requires at + 16 <= |b|
  {
    V128(ReadLE64(b, at), ReadLE64(b, at + 8))
  }

  function Dword(v: V128, i: nat): bv64
    requires i < 4
  {
    if i == 0 then Lo(v.a) else if i == 1 then Hi(v.a) else if i == 2 then Lo(v.b) else Hi(v.b)
  }

  /** _mm_shuffle_epi32 with _MM_SHUFFLE(d3, d2, d1, d0). */
  function Shuffle32(v: V128, d3: nat, d2: nat, d1: nat, d0: nat): V128
    requires d0 < 4 && d1 < 4 && d2 < 4 && d3 < 4
  {
    V128(Or(Up(Dword(v, d1)), Dword(v, d0)), Or(Up(Dword(v, d3)), Dword(v, d2)))
  }

  function Xor128(x: V128, y: V128): V128 {
    V128(Xor(x.a, y.a), Xor(x.b, y.b))
  }

  function Add64(x: V128, y: V128): V128 {
    V128(Add(x.a, y.a), Add(x.b, y.b))
  }

  function MulEpu32(x: V128, y: V128): V128 {
    V128(Mul32(x.a, y.a), Mul32(x.b, y.b))
  }

  function Srl32(x: V128): V128 {
    V128(Hi(x.a), Hi(x.b))
  }

  function Sll32(x: V128): V128 {
    V128(Up(x.a), Up(x.b))
  }

  function XorSrl47(x: V128): V128 {
    V128(XorShift47(x.a), XorShift47(x.b))
  }

  function AccumulateVector(acc: V128, data: V128, key: V128, avx: bool): V128 {
    var dataKey := Xor128(data, key);
    // SSE2 moves the high halves down with a shuffle, AVX2 with a shift
    var dataKeyLo := if avx then Srl32(dataKey) else Shuffle32(dataKey, 0, 3, 0, 1);
    var product := MulEpu32(dataKey, dataKeyLo);
    var dataSwap := Shuffle32(data, 1, 0, 3, 2);
    var sum := Add64(acc, dataSwap);
    Add64(product, sum)
  }

  function ScrambleVector(acc: V128, key: V128, avx: bool): V128 {
    var dataKey := Xor128(XorSrl47(acc), key);
    var dataKeyHi := if avx then Srl32(dataKey) else Shuffle32(dataKey, 0, 3, 0, 1);
    var prime := V128(PRIME32_1, PRIME32_1);
    var prodLo := MulEpu32(dataKey, prime);
    var prodHi := MulEpu32(dataKeyHi, prime);
    Add64(prodLo, Sll32(prodHi))
  }

  lemma AccumulateVectorLanes(acc: V128, data: V128, key: V128, avx: bool)
    ensures var k := Xor128(data, key);
      AccumulateVector(acc, data, key, avx) ==
        V128(Add(Add(acc.a, data.b), Mul32(k.a, Hi(k.a))), Add(Add(acc.b, data.a), Mul32(k.b, Hi(k.b))))
  {
    hide Add, Mul, Xor, Or, Lo, Hi, Up;
    var k := Xor128(data, key);
    Halves(data.a);
    Halves(data.b);
    LowHalf(Lo(k.a), k.a);
    LowHalf(Lo(k.a), k.b);
    LoHi(k.a);
    LoHi(k.b);
    AddFacts(acc.a, data.b, Mul32(k.a, Hi(k.a)));
    AddFacts(acc.b, data.a, Mul32(k.b, Hi(k.b)));
  }

  lemma ScrambleVectorLanes(acc: V128, key: V128, avx: bool)
    ensures ScrambleVector(acc, key, avx) ==
      V128(Mul(Xor(XorShift47(acc.a), key.a), PRIME32_1), Mul(Xor(XorShift47(acc.b), key.b), PRIME32_1))
  {
    hide Add, Mul, Xor, Or, Lo, Hi, Up, XorShift47;
    var k := Xor128(XorSrl47(acc), key);
    PrimeIsLow();
    LowHalf(Lo(k.a), k.a);
    LowHalf(Lo(k.a), k.b);
    LoHi(k.a);
    LoHi(k.b);
    Halves(k.a);
    Halves(k.b);
    Distribute(Lo(k.a), Hi(k.a));
    Distribute(Lo(k.b), Hi(k.b));
  }

  /** The lanes of register `at` of an accumulator array. */
  function Register(acc: seq<bv64>, at: nat): V128
    requires 2 * at + 1 < |acc|
  {
    V128(acc[2 * at], acc[2 * at + 1])
  }

  lemma AccumulateRegister(acc: Lanes, input: bytes, secret: bytes, at: nat, avx: bool)
    requires |input| >= 64 && |secret| >= 64 && at < 4
    ensures AccumulateVector(Register(acc, at), Load128(input, 16 * at), Load128(secret, 16 * at), avx)
         == V128(AccumulateLane(acc, input, secret, 2 * at), AccumulateLane(acc, input, secret, 2 * at + 1))
  {
    hide Add, ReadLE64, Mul, Xor, AccumulateVector, Lo, Hi;
    AccumulateVectorLanes(Register(acc, at), Load128(input, 16 * at), Load128(secret, 16 * at), avx);
  }

  lemma ScrambleRegister(acc: Lanes, secret: bytes, at: nat, avx: bool)
    requires |secret| >= 64 && at < 4
    ensures ScrambleVector(Register(acc, at), Load128(secret, 16 * at), avx)
         == V128(ScrambleLane(acc, secret, 2 * at), ScrambleLane(acc, secret, 2 * at + 1))
  {
    hide Add, ReadLE64, Mul, Xor, ScrambleVector, XorShift47;
    ScrambleVectorLanes(Register(acc, at), Load128(secret, 16 * at), avx);
  }

  /** The vector code. An AVX2 register is two 128-bit halves on which its operations work alike; an SSE2
      register is one. */
  method AccumulateSimd(acc: array<bv64>, input: bytes, secret: bytes, avx: bool)
    requires acc.Length == 8 && |input| >= 64 && |secret| >= 64
    modifies acc
    ensures acc[..] == Accumulated(old(acc[..]), input, secret)
  {
    hide AccumulateLane, AccumulateVector, Load128;
    ghost var acc0: Lanes := acc[..];
    var halves := if avx then 2 else 1;
    var i := 0;
    while i < 4 / halves
      invariant i <= 4 / halves
      invariant forall j :: 0 <= j < 8 ==>
        acc[j] == if j < 2 * halves * i then AccumulateLane(acc0, input, secret, j) else acc0[j]
    {
      var h := 0;
      while h < halves
        invariant h <= halves
        invariant forall j :: 0 <= j < 8 ==>
          acc[j] == if j < 2 * (halves * i + h) then AccumulateLane(acc0, input, secret, j) else acc0[j]
      {
        var at := halves * i + h;
        var r := AccumulateVector(V128(acc[2 * at], acc[2 * at + 1]),
                                  Load128(input, 16 * at), Load128(secret, 16 * at), avx);
        AccumulateRegister(acc0, input, secret, at, avx);
        acc[2 * at], acc[2 * at + 1] := r.a, r.b;
        h := h + 1;
      }
      i := i + 1;
    }
  }

  method ScrambleSimd(acc: array<bv64>, secret: bytes, avx: bool)
    requires acc.Length == 8 && |secret| >= 64
    modifies acc
    ensures acc[..] == Scrambled(old(acc[..]), secret)
  {
    hide ScrambleLane, ScrambleVector, Load128;
    ghost var acc0: Lanes := acc[..];
    var halves := if avx then 2 else 1;
    var i := 0;
    while i < 4 / halves
      invariant i <= 4 / halves
      invariant forall j :: 0 <= j < 8 ==>
        acc[j] == if j < 2 * halves * i then ScrambleLane(acc0, secret, j) else acc0[j]
    {
      var h := 0;
      while h < halves
        invariant h <= halves
        invariant forall j :: 0 <= j < 8 ==>
          acc[j] == if j < 2 * (halves * i + h) then ScrambleLane(acc0, secret, j) else acc0[j]
      {
        var at := halves * i + h;
        var r := ScrambleVector(V128(acc[2 * at], acc[2 * at + 1]), Load128(secret, 16 * at), avx);
        ScrambleRegister(acc0, secret, at, avx);
        acc[2 * at], acc[2 * at + 1] := r.a, r.b;
        h := h + 1;
      }
      i := i + 1;
    }
  }

  // ---------- the portable multiplication ----------

  /** 64-bit wrap-around. */
  function Wrap(n: nat): nat {
    n % 0x1_0000_0000_0000_0000
  }

  function LoWord(n: nat): nat {
    n % 0x1_0000_0000
  }

  function HiWord(n: nat): nat {
    n / 0x1_0000_0000
  }

  function Times(a: nat, b: nat): nat {
    a * b
  }

  datatype Wide = Wide(low: nat, high: nat)

  /** The four cross products of XXH_mult64to128 added up; every sum wraps like a 64-bit word. */
  function AddProducts(ll: nat, hl: nat, lh: nat, hh: nat): Wide {
    var cross := Wrap(Wrap(HiWord(ll) + LoWord(hl)) + lh);
    var upper := Wrap(Wrap(HiWord(hl) + HiWord(cross)) + hh);
    var lower := Wrap(cross * 0x1_0000_0000) + LoWord(ll);
    Wide(lower, upper)
  }

  /** XXH_mult64to128 without a 128-bit type. */
  function Mult64To128(lhs: nat, rhs: nat): Wide {
    AddProducts(Times(LoWord(lhs), LoWord(rhs)), Times(HiWord(lhs), LoWord(rhs)),
                Times(LoWord(lhs), HiWord(rhs)), Times(HiWord(lhs), HiWord(rhs)))
  }

  predicate ProductOfWords(n: nat) {
    n <= 0xFFFF_FFFF * 0xFFFF_FFFF
  }

  lemma MulMono(a: nat, b: nat, c: nat)
    requires a <= b
    ensures Times(c, a) <= Times(c, b) && Times(a, c) == Times(c, a)
  {
    assert c * b == c * a + c * (b - a);
  }

  lemma ProductBound(a: nat, b: nat)
    requires a < 0x1_0000_0000 && b < 0x1_0000_0000
    ensures ProductOfWords(Times(a, b))
  {
    MulMono(b, 0xFFFF_FFFF, a);
    MulMono(a, 0xFFFF_FFFF, 0xFFFF_FFFF);
  }

  lemma WordParts(n: nat)
    ensures n == 0x1_0000_0000 * HiWord(n) + LoWord(n) && LoWord(n) < 0x1_0000_0000
    ensures n < 0x1_0000_0000_0000_0000 ==> HiWord(n) < 0x1_0000_0000
    ensures ProductOfWords(n) ==> HiWord(n) <= 0xFFFF_FFFE
  {
  }

  lemma NoWrap(n: nat)
    requires n < 0x1_0000_0000_0000_0000
    ensures Wrap(n) == n
  {
  }

  lemma ShiftedWrap(n: nat)
    ensures Wrap(n * 0x1_0000_0000) == LoWord(n) * 0x1_0000_0000
  {
  }

  /** The comment that these sums never overflow, for any four products of 32-bit words, and what the two
      halves of the result add up to. */
  lemma SumsDoNotWrap(ll: nat, hl: nat, lh: nat, hh: nat)
    requires ProductOfWords(ll) && ProductOfWords(hl) && ProductOfWords(lh) && ProductOfWords(hh)
    ensures var cross := HiWord(ll) + LoWord(hl) + lh;
      && cross < TWO_64 && HiWord(hl) + HiWord(cross) + hh < TWO_64
      && AddProducts(ll, hl, lh, hh)
         == Wide(LoWord(cross) * 0x1_0000_0000 + LoWord(ll), HiWord(hl) + HiWord(cross) + hh)
  {
    hide Wrap, HiWord, LoWord;
    var cross := HiWord(ll) + LoWord(hl) + lh;
    WordParts(ll);
    WordParts(hl);
    WordParts(cross);
    NoWrap(HiWord(ll) + LoWord(hl));
    NoWrap(cross);
    NoWrap(HiWord(hl) + HiWord(cross));
    NoWrap(HiWord(hl) + HiWord(cross) + hh);
    ShiftedWrap(cross);
  }

  lemma SumOfParts(ll: nat, hl: nat, lh: nat, hh: nat)
    requires ProductOfWords(ll) && ProductOfWords(hl) && ProductOfWords(lh) && ProductOfWords(hh)
    ensures var w := AddProducts(ll, hl, lh, hh);
      && w.low < TWO_64 && w.high < TWO_64
      && w.high * TWO_64 + w.low == TWO_64 * hh + 0x1_0000_0000 * (hl + lh) + ll
  {
    hide AddProducts, HiWord, LoWord;
    SumsDoNotWrap(ll, hl, lh, hh);
    var cross := HiWord(ll) + LoWord(hl) + lh;
    WordParts(ll);
    WordParts(hl);
    WordParts(cross);
  }

  lemma ProductParts(a1: nat, a0: nat, b1: nat, b0: nat)
    ensures (0x1_0000_0000 * a1 + a0) * (0x1_0000_0000 * b1 + b0)
         == TWO_64 * Times(a1, b1) + 0x1_0000_0000 * (Times(a1, b0) + Times(a0, b1)) + Times(a0, b0)
  {
    var w := 0x1_0000_0000;
    assert (w * a1 + a0) * (w * b1 + b0) == (w * a1) * (w * b1) + (w * a1) * b0 + a0 * (w * b1) + a0 * b0;
    assert (w * a1) * (w * b1) == (w * w) * (a1 * b1);
    assert (w * a1) * b0 == w * (a1 * b0);
    assert a0 * (w * b1) == w * (a0 * b1);
  }

  /** The portable multiplication is exact on all 64-bit operands. */
  lemma Mult64To128Exact(lhs: nat, rhs: nat)
    requires lhs < TWO_64 && rhs < TWO_64
    ensures var p := Mult64To128(lhs, rhs);
      && p.low < TWO_64 && p.high < TWO_64
      && p.high * TWO_64 + p.low == lhs * rhs
  {
    hide AddProducts, HiWord, LoWord, Times, ProductOfWords;
    var a1, a0, b1, b0 := HiWord(lhs), LoWord(lhs), HiWord(rhs), LoWord(rhs);
    WordParts(lhs);
    WordParts(rhs);
    ProductBound(a0, b0);
    ProductBound(a1, b0);
    ProductBound(a0, b1);
    ProductBound(a1, b1);
    ProductParts(a1, a0, b1, b0);
    SumOfParts(Times(a0, b0), Times(a1, b0), Times(a0, b1), Times(a1, b1));
  }

  // ---------- the hash of long inputs ----------

  type Row = b: bytes | |b| == 16 witness seq(16, _ => 0)

  // XXH3_kSecret, 16 bytes a row
  const ROW_0: Row := [0xb8, 0xfe, 0x6c, 0x39, 0x23, 0xa4, 0x4b, 0xbe, 0x7c, 0x01, 0x81, 0x2c, 0xf7, 0x21, 0xad, 0x1c]
  const ROW_1: Row := [0xde, 0xd4, 0x6d, 0xe9, 0x83, 0x90, 0x97, 0xdb, 0x72, 0x40, 0xa4, 0xa4, 0xb7, 0xb3, 0x67, 0x1f]
  const ROW_2: Row := [0xcb, 0x79, 0xe6, 0x4e, 0xcc, 0xc0, 0xe5, 0x78, 0x82, 0x5a, 0xd0, 0x7d, 0xcc, 0xff, 0x72, 0x21]
  const ROW_3: Row := [0xb8, 0x08, 0x46, 0x74, 0xf7, 0x43, 0x24, 0x8e, 0xe0, 0x35, 0x90, 0xe6, 0x81, 0x3a, 0x26, 0x4c]
  const ROW_4: Row := [0x3c, 0x28, 0x52, 0xbb, 0x91, 0xc3, 0x00, 0xcb, 0x88, 0xd0, 0x65, 0x8b, 0x1b, 0x53, 0x2e, 0xa3]
  const ROW_5: Row := [0x71, 0x64, 0x48, 0x97, 0xa2, 0x0d, 0xf9, 0x4e, 0x38, 0x19, 0xef, 0x46, 0xa9, 0xde, 0xac, 0xd8]
  const ROW_6: Row := [0xa8, 0xfa, 0x76, 0x3f, 0xe3, 0x9c, 0x34, 0x3f, 0xf9, 0xdc, 0xbb, 0xc7, 0xc7, 0x0b, 0x4f, 0x1d]
  const ROW_7: Row := [0x8a, 0x51, 0xe0, 0x4b, 0xcd, 0xb4, 0x59, 0x31, 0xc8, 0x9f, 0x7e, 0xc9, 0xd9, 0x78, 0x73, 0x64]
  const ROW_8: Row := [0xea, 0xc5, 0xac, 0x83, 0x34, 0xd3, 0xeb, 0xc3, 0xc5, 0x81, 0xa0, 0xff, 0xfa, 0x13, 0x63, 0xeb]
  const ROW_9: Row := [0x17, 0x0d, 0xdd, 0x51, 0xb7, 0xf0, 0xda, 0x49, 0xd3, 0x16, 0x55, 0x26, 0x29, 0xd4, 0x68, 0x9e]
  const ROW_10: Row := [0x2b, 0x16, 0xbe, 0x58, 0x7d, 0x47, 0xa1, 0xfc, 0x8f, 0xf8, 0xb8, 0xd1, 0x7a, 0xd0, 0x31, 0xce]
  const ROW_11: Row := [0x45, 0xcb, 0x3a, 0x8f, 0x95, 0x16, 0x04, 0x28, 0xaf, 0xd7, 0xfb, 0xca, 0xbb, 0x4b, 0x40, 0x7e]

  const SECRET: Secret :=
    ROW_0 + ROW_1 + ROW_2 + ROW_3 + ROW_4 + ROW_5 + ROW_6 + ROW_7 + ROW_8 + ROW_9 + ROW_10 + ROW_11

  const INIT: Lanes := [PRIME32_3, PRIME64_1, PRIME64_2, PRIME64_3, PRIME64_4, PRIME32_2, PRIME64_5, PRIME32_1]

  /** XXH3_mul128_fold64 */
  function Fold(a: bv64, b: bv64): bv64 {
    Mult64To128Exact(a as nat, b as nat);
    var p := Mult64To128(a as nat, b as nat);
    Xor(p.low as bv64, p.high as bv64)
  }

  function Avalanche(h: bv64): bv64 {
    var h1 := Mul(h ^ (h >> 37), PRIME_MX1);
    h1 ^ (h1 >> 32)
  }

  /** XXH3_mergeAccs from pair `i` on. */
  function MergeAccs(acc: Lanes, secret: bytes, i: nat, sum: bv64): bv64
    requires |secret| >= 64 && i <= 4
    decreases 4 - i
  {
    if i == 4 then Avalanche(sum)
    else
      MergeAccs(acc, secret, i + 1,
                Add(sum, Fold(Xor(acc[2 * i], ReadLE64(secret, 16 * i)),
                              Xor(acc[2 * i + 1], ReadLE64(secret, 16 * i + 8)))))
  }

  function FinalizeLong(acc: Lanes, len: nat): bv64 {
    MergeAccs(acc, SECRET[11..], 0, Mul((len % 0x1_0000_0000_0000_0000) as bv64, PRIME64_1))
  }

  function AccumulateStripe(acc: Lanes, stripe: bytes, secret: bytes): Lanes {
    if |stripe| >= 64 && |secret| >= 64 then Accumulated(acc, stripe, secret) else acc
  }

  function ScrambleAcc(acc: Lanes, secret: bytes): Lanes {
    if |secret| >= 64 then Scrambled(acc, secret) else acc
  }

  /** XXH3_64bits; `short` is the family of functions for up to 240 bytes. */
  function Xxh3Kernel(short: bytes -> bv64): Kernel<Lanes> {
    Kernel<Lanes>.Kernel(INIT, AccumulateStripe, ScrambleAcc, FinalizeLong, short)
  }

  datatype Path = Scalar | Sse2 | Avx2

  /** XXH3_accumulate on any of the three paths: a stretch of stripes from stripe `from` of a block on. */
  method AccumulateBlock(acc: array<bv64>, input: bytes, secret: Secret, from: nat, nbStripes: nat, path: Path,
                         short: bytes -> bv64)
    requires acc.Length == 8 && |input| >= 64 * nbStripes && from + nbStripes <= STRIPES_PER_BLOCK
    modifies acc
    ensures acc[..] == AccumulateStripes(Xxh3Kernel(short), secret, old(acc[..]), from, input, nbStripes)
  {
    hide Accumulated, AccumulateStripes;
    ghost var k, acc0: Lanes := Xxh3Kernel(short), acc[..];
    NoStripes(k, secret, acc0, from, input);
    var n := 0;
    while n < nbStripes
      invariant n <= nbStripes
      invariant acc[..] == AccumulateStripes(k, secret, acc0, from, input, n)
    {
      AccumulateSnoc(k, secret, acc0, from, input, n);
      var stripe, key := input[64 * n..64 * n + 64], secret[(from + n) * 8..(from + n) * 8 + 64];
      if path == Scalar {
        AccumulateScalar(acc, stripe, key);
      } else {
        AccumulateSimd(acc, stripe, key, path == Avx2);
      }
      n := n + 1;
    }
  }

  lemma NoStripes<A>(k: Kernel<A>, secret: Secret, acc: A, from: nat, input: bytes)
    requires from <= 16
    ensures AccumulateStripes(k, secret, acc, from, input, 0) == acc
  {
  }

  /** A whole block on any path: sixteen stripes and the scramble. */
  method ConsumeBlock(acc: array<bv64>, input: bytes, secret: Secret, path: Path, short: bytes -> bv64)
    requires acc.Length == 8 && |input| >= 1024
    modifies acc
    ensures Consume(Xxh3Kernel(short), secret, Position(old(acc[..]), 0), input[..1024]) == Position(acc[..], 0)
  {
    hide Scrambled, AccumulateStripes, Consume;
    ConsumeStretch(Xxh3Kernel(short), secret, Position(acc[..], 0), input, 16);
    AccumulateBlock(acc, input, secret, 0, STRIPES_PER_BLOCK, path, short);
    if path == Scalar {
      ScrambleScalar(acc, secret[SECRET_SIZE - STRIPE_LEN..]);
    } else {
      ScrambleSimd(acc, secret[SECRET_SIZE - STRIPE_LEN..], path == Avx2);
    }
  }
}
