/** XXH3 of the 256 bytes 0, 1, .., 255, lane by lane: the numbers a correct implementation gives. They fix every
    constant of the hash: primes, first accumulators, secret, offsets and shifts. */
module Xxh3Vector {
  import opened Bytes
  import opened Xxh3Spec
  import opened Xxh3Kernels
  import opened Xxh3Reference

  function Counting(): (b: bytes)
    ensures |b| == 256
  {
    seq(256, i requires 0 <= i < 256 => i as byte)
  }

  // ---------- words ----------

  function NumberAt(b: bytes, at: nat): nat
    requires at + 8 <= |b|
  {
    Number(b[at], b[at + 1], b[at + 2], b[at + 3], b[at + 4], b[at + 5], b[at + 6], b[at + 7])
  }

  lemma WordIs(b: bytes, at: nat, word: bv64)
    requires at + 8 <= |b| && NumberAt(b, at) == word as nat
    ensures Word(b, at) == word
  {
    hide Number;
  }

  lemma CountingNumber(at: nat)
    requires at + 8 <= 256
    ensures NumberAt(Counting(), at) == 0x706050403020100 + at * 0x101010101010101
  {
  }

  lemma CountingWord(at: nat, word: bv64)
    requires at + 8 <= 256 && 0x706050403020100 + at * 0x101010101010101 == word as nat
    ensures Word(Counting(), at) == word
  {
    hide Word, NumberAt, Counting;
    CountingNumber(at);
    WordIs(Counting(), at, word);
  }

  lemma WordInside(b: bytes, from: nat, to: nat, at: nat)
    requires from + at + 8 <= to <= |b|
    ensures Word(b[from..to], at) == Word(b, from + at)
  {
    hide Number;
  }

  /** The eight words of a stripe. */
  ghost predicate Holds(b: bytes, at: nat, words: Lanes) {
    at + 64 <= |b| && forall i | 0 <= i < 8 :: Word(b, at + 8 * i) == words[i]
  }

  lemma Cuts(r0: bytes, r1: bytes, r2: bytes, r3: bytes, r4: bytes, r5: bytes,
             r6: bytes, r7: bytes, r8: bytes, r9: bytes, r10: bytes, r11: bytes)
    requires |r0| == |r1| == |r2| == |r3| == |r4| == |r5| == |r6| == |r7| == |r8| == |r9| == |r10| == |r11| == 16
    ensures var b := r0 + r1 + r2 + r3 + r4 + r5 + r6 + r7 + r8 + r9 + r10 + r11;
      && b[0..16] == r0
      && b[16..32] == r1
      && b[32..48] == r2
      && b[48..64] == r3
      && b[64..80] == r4
      && b[80..96] == r5
      && b[96..112] == r6
      && b[112..128] == r7
      && b[128..144] == r8
      && b[144..160] == r9
      && b[160..176] == r10
      && b[176..192] == r11
  {
  }

  lemma RowNumbers(b: bytes, from: nat, row: bytes, first: nat, second: nat)
    requires |row| == 16 && from + 16 <= |b| && b[from..from + 16] == row
    requires NumberAt(row, 0) == first && NumberAt(row, 8) == second
    ensures NumberAt(b, from) == first && NumberAt(b, from + 8) == second
  {
    hide Number;
    assert b[from..from + 16][8] == b[from + 8];
  }

  /** A word that begins one byte later. */
  lemma OneLater(b: bytes, at: nat)
    requires at + 16 <= |b|
    ensures NumberAt(b, at + 1) == NumberAt(b, at) / 0x100 + NumberAt(b, at + 8) % 0x100 * 0x100_0000_0000_0000
  {
    hide NumberAt;
    OneAndSeven(b, at);
    OneAndSeven(b, at + 8);
    SevenAndOne(b, at);
    OneCut(b[at], Seven(b, at + 1));
    OneCut(b[at + 8], Seven(b, at + 9));
  }

  function Seven(b: bytes, at: nat): nat
    requires at + 7 <= |b|
  {
    Five(b, at) + 0x100_0000_0000 * b[at + 5] as nat + 0x1_0000_0000_0000 * b[at + 6] as nat
  }

  lemma OneAndSeven(b: bytes, at: nat)
    requires at + 8 <= |b|
    ensures NumberAt(b, at) == b[at] as nat + 0x100 * Seven(b, at + 1)
  {
  }

  lemma SevenAndOne(b: bytes, at: nat)
    requires at + 16 <= |b|
    ensures NumberAt(b, at + 1) == Seven(b, at + 1) + 0x100_0000_0000_0000 * b[at + 8] as nat
  {
  }

  lemma OneCut(low: byte, high: nat)
    ensures (low as nat + 0x100 * high) / 0x100 == high && (low as nat + 0x100 * high) % 0x100 == low as nat
  {
  }

  lemma ThreeLater(b: bytes, at: nat)
    requires at + 16 <= |b|
    ensures NumberAt(b, at + 3) == NumberAt(b, at) / 0x100_0000 + NumberAt(b, at + 8) % 0x100_0000 * 0x100_0000_0000
  {
    hide NumberAt;
    ThreeAndFive(b, at);
    ThreeAndFive(b, at + 8);
    FiveAndThree(b, at);
    ThreeCut(Three(b, at), Five(b, at + 3));
    ThreeCut(Three(b, at + 8), Five(b, at + 11));
  }

  function Three(b: bytes, at: nat): (n: nat)
    requires at + 3 <= |b|
    ensures n < 0x100_0000
  {
    b[at] as nat + 0x100 * b[at + 1] as nat + 0x1_0000 * b[at + 2] as nat
  }

  function Five(b: bytes, at: nat): nat
    requires at + 5 <= |b|
  {
    b[at] as nat + 0x100 * b[at + 1] as nat + 0x1_0000 * b[at + 2] as nat + 0x100_0000 * b[at + 3] as nat
    + 0x1_0000_0000 * b[at + 4] as nat
  }

  lemma ThreeAndFive(b: bytes, at: nat)
    requires at + 8 <= |b|
    ensures NumberAt(b, at) == Three(b, at) + 0x100_0000 * Five(b, at + 3)
  {
  }

  lemma FiveAndThree(b: bytes, at: nat)
    requires at + 16 <= |b|
    ensures NumberAt(b, at + 3) == Five(b, at + 3) + 0x100_0000_0000 * Three(b, at + 8)
  {
  }

  lemma ThreeCut(low: nat, high: nat)
    requires low < 0x100_0000
    ensures (low + 0x100_0000 * high) / 0x100_0000 == high && (low + 0x100_0000 * high) % 0x100_0000 == low
  {
  }

  lemma Rows()
    ensures SECRET[0..16] == ROW_0
    ensures SECRET[16..32] == ROW_1
    ensures SECRET[32..48] == ROW_2
    ensures SECRET[48..64] == ROW_3
    ensures SECRET[64..80] == ROW_4
    ensures SECRET[80..96] == ROW_5
    ensures SECRET[96..112] == ROW_6
    ensures SECRET[112..128] == ROW_7
    ensures SECRET[128..144] == ROW_8
    ensures SECRET[144..160] == ROW_9
    ensures SECRET[160..176] == ROW_10
    ensures SECRET[176..192] == ROW_11
  {
    Cuts(ROW_0, ROW_1, ROW_2, ROW_3, ROW_4, ROW_5, ROW_6, ROW_7, ROW_8, ROW_9, ROW_10, ROW_11);
  }

  lemma Row0()
    ensures NumberAt(SECRET, 0) == 0xBE4BA423396CFEB8 && NumberAt(SECRET, 8) == 0x1CAD21F72C81017C
  {
    Rows();
    RowNumbers(SECRET, 0, ROW_0, 0xBE4BA423396CFEB8, 0x1CAD21F72C81017C);
  }

  lemma Row1()
    ensures NumberAt(SECRET, 16) == 0xDB979083E96DD4DE && NumberAt(SECRET, 24) == 0x1F67B3B7A4A44072
  {
    Rows();
    RowNumbers(SECRET, 16, ROW_1, 0xDB979083E96DD4DE, 0x1F67B3B7A4A44072);
  }

  lemma Row2()
    ensures NumberAt(SECRET, 32) == 0x78E5C0CC4EE679CB && NumberAt(SECRET, 40) == 0x2172FFCC7DD05A82
  {
    Rows();
    RowNumbers(SECRET, 32, ROW_2, 0x78E5C0CC4EE679CB, 0x2172FFCC7DD05A82);
  }

  lemma Row3()
    ensures NumberAt(SECRET, 48) == 0x8E2443F7744608B8 && NumberAt(SECRET, 56) == 0x4C263A81E69035E0
  {
    Rows();
    RowNumbers(SECRET, 48, ROW_3, 0x8E2443F7744608B8, 0x4C263A81E69035E0);
  }

  lemma Row4()
    ensures NumberAt(SECRET, 64) == 0xCB00C391BB52283C && NumberAt(SECRET, 72) == 0xA32E531B8B65D088
  {
    Rows();
    RowNumbers(SECRET, 64, ROW_4, 0xCB00C391BB52283C, 0xA32E531B8B65D088);
  }

  lemma Row5()
    ensures NumberAt(SECRET, 80) == 0x4EF90DA297486471 && NumberAt(SECRET, 88) == 0xD8ACDEA946EF1938
  {
    Rows();
    RowNumbers(SECRET, 80, ROW_5, 0x4EF90DA297486471, 0xD8ACDEA946EF1938);
  }

  lemma Row6()
    ensures NumberAt(SECRET, 96) == 0x3F349CE33F76FAA8 && NumberAt(SECRET, 104) == 0x1D4F0BC7C7BBDCF9
  {
    Rows();
    RowNumbers(SECRET, 96, ROW_6, 0x3F349CE33F76FAA8, 0x1D4F0BC7C7BBDCF9);
  }

  lemma Row7()
    ensures NumberAt(SECRET, 112) == 0x3159B4CD4BE0518A && NumberAt(SECRET, 120) == 0x647378D9C97E9FC8
  {
    Rows();
    RowNumbers(SECRET, 112, ROW_7, 0x3159B4CD4BE0518A, 0x647378D9C97E9FC8);
  }

  lemma Row8()
    ensures NumberAt(SECRET, 128) == 0xC3EBD33483ACC5EA && NumberAt(SECRET, 136) == 0xEB6313FAFFA081C5
  {
    Rows();
    RowNumbers(SECRET, 128, ROW_8, 0xC3EBD33483ACC5EA, 0xEB6313FAFFA081C5);
  }

  lemma Row9()
    ensures NumberAt(SECRET, 144) == 0x49DAF0B751DD0D17 && NumberAt(SECRET, 152) == 0x9E68D429265516D3
  {
    Rows();
    RowNumbers(SECRET, 144, ROW_9, 0x49DAF0B751DD0D17, 0x9E68D429265516D3);
  }

  lemma Row10()
    ensures NumberAt(SECRET, 160) == 0xFCA1477D58BE162B && NumberAt(SECRET, 168) == 0xCE31D07AD1B8F88F
  {
    Rows();
    RowNumbers(SECRET, 160, ROW_10, 0xFCA1477D58BE162B, 0xCE31D07AD1B8F88F);
  }

  lemma Row11()
    ensures NumberAt(SECRET, 176) == 0x280416958F3ACB45 && NumberAt(SECRET, 184) == 0x7E404BBBCAFBD7AF
  {
    Rows();
    RowNumbers(SECRET, 176, ROW_11, 0x280416958F3ACB45, 0x7E404BBBCAFBD7AF);
  }

  // ---------- lanes ----------

  predicate Keys(word: bv64, secret: bv64, key: bv64, low: bv64, high: bv64) {
    key == word ^ secret && low == key & 0xFFFF_FFFF && high == key >> 32
  }

  predicate Product(a: bv64, b: bv64, c: bv64) {
    a * b == c
  }

  predicate Sum(a: bv64, b: bv64, c: bv64) {
    a + b == c
  }

  lemma KeyIs(word: bv64, secret: bv64, key: bv64, low: bv64, high: bv64)
    requires Keys(word, secret, key, low, high)
    ensures Xor(word, secret) == key && Lo(key) == low && Hi(key) == high
  {
  }

  lemma ProductIs(a: bv64, b: bv64, c: bv64)
    requires Product(a, b, c)
    ensures Mul(a, b) == c
  {
  }

  lemma SumIs(a: bv64, b: bv64, c: bv64)
    requires Sum(a, b, c)
    ensures Add(a, b) == c
  {
  }

  lemma LaneIs(lane: bv64, neighbour: bv64, word: bv64, secret: bv64, key: bv64, low: bv64, high: bv64,
               product: bv64, sum: bv64, result: bv64)
    requires Keys(word, secret, key, low, high) && Product(low, high, product)
    requires Sum(lane, neighbour, sum) && Sum(sum, product, result)
    ensures LaneSum(lane, neighbour, Xor(word, secret)) == result
  {
    hide Xor, Mul, Lo, Hi, Add, Keys, Product, Sum;
    KeyIs(word, secret, key, low, high);
    ProductIs(low, high, product);
    SumIs(lane, neighbour, sum);
    SumIs(sum, product, result);
  }

  function Lane(acc: Lanes, w: Lanes, k: Lanes, i: nat): bv64
    requires i < 8
  {
    LaneSum(acc[i], w[Partner(i)], Xor(w[i], k[i]))
  }

  lemma StripeIs(acc: Lanes, b: bytes, at: nat, s: bytes, from: nat, w: Lanes, k: Lanes, i: nat)
    requires Holds(b, at, w) && Holds(s, from, k) && i < 8
    ensures Accumulated(acc, b[at..at + 64], s[from..from + 64])[i] == Lane(acc, w, k, i)
  {
    hide Word, LaneSum, Xor, Accumulated;
    AccumulatedLane(acc, b[at..at + 64], s[from..from + 64], i);
    WordInside(b, at, at + 64, 8 * i);
    WordInside(b, at, at + 64, 8 * Partner(i));
    WordInside(s, from, from + 64, 8 * i);
  }

  // ---------- the four stripes ----------

  const ONE: Lanes := [0x3959FC0465D0644D, 0xA84604CF318F0543, 0xA9ED5A143ADEB6E9, 0x2DC7A091694F50D7,
    0xDE29D3C6FB58A383, 0x2C07611F142C9457, 0x9ABB4D50A52D2395, 0x9ADE679E5A8F0E59]
  const TWO: Lanes := [0xB0C9755866CC0789, 0x4DD53142120A30CD, 0x4F3941FE6050CD67, 0x887D8CA886CF1BD7,
    0x55FF760B3D684D3B, 0xAEDCD0FC67218EA7, 0x3CF3F620025BAADD, 0x99D0595E6F1D33BD]
  const THREE: Lanes := [0x66CD283FF4209CA3, 0xF01105713EC9CAEB, 0xBDFBC9E043227D47, 0xCBD44466D8669987,
    0x28B027280E5159AB, 0x9B27A3F30E8020EF, 0x105D20286DB1DD1, 0x56FB29CF235823BD]
  const LAST: Lanes := [0x3B4094B707B77A2F, 0xC1DDC5E67518B73E, 0xBCC6A9F4302D0316, 0xA901A77FF6E312F3,
    0xBA9351523219AFB3, 0xBB9C3082FD7F3179, 0x607DC19159767CE9, 0x71D3AF0AB66E1D4B]
  const INPUT_0: Lanes := [0x706050403020100, 0xF0E0D0C0B0A0908, 0x1716151413121110, 0x1F1E1D1C1B1A1918,
    0x2726252423222120, 0x2F2E2D2C2B2A2928, 0x3736353433323130, 0x3F3E3D3C3B3A3938]
  const INPUT_1: Lanes := [0x4746454443424140, 0x4F4E4D4C4B4A4948, 0x5756555453525150, 0x5F5E5D5C5B5A5958,
    0x6766656463626160, 0x6F6E6D6C6B6A6968, 0x7776757473727170, 0x7F7E7D7C7B7A7978]
  const INPUT_2: Lanes := [0x8786858483828180, 0x8F8E8D8C8B8A8988, 0x9796959493929190, 0x9F9E9D9C9B9A9998,
    0xA7A6A5A4A3A2A1A0, 0xAFAEADACABAAA9A8, 0xB7B6B5B4B3B2B1B0, 0xBFBEBDBCBBBAB9B8]
  const INPUT_3: Lanes := [0xC7C6C5C4C3C2C1C0, 0xCFCECDCCCBCAC9C8, 0xD7D6D5D4D3D2D1D0, 0xDFDEDDDCDBDAD9D8,
    0xE7E6E5E4E3E2E1E0, 0xEFEEEDECEBEAE9E8, 0xF7F6F5F4F3F2F1F0, 0xFFFEFDFCFBFAF9F8]
  const KEY_0: Lanes := [0xBE4BA423396CFEB8, 0x1CAD21F72C81017C, 0xDB979083E96DD4DE, 0x1F67B3B7A4A44072,
    0x78E5C0CC4EE679CB, 0x2172FFCC7DD05A82, 0x8E2443F7744608B8, 0x4C263A81E69035E0]
  const KEY_1: Lanes := [0x1CAD21F72C81017C, 0xDB979083E96DD4DE, 0x1F67B3B7A4A44072, 0x78E5C0CC4EE679CB,
    0x2172FFCC7DD05A82, 0x8E2443F7744608B8, 0x4C263A81E69035E0, 0xCB00C391BB52283C]
  const KEY_2: Lanes := [0xDB979083E96DD4DE, 0x1F67B3B7A4A44072, 0x78E5C0CC4EE679CB, 0x2172FFCC7DD05A82,
    0x8E2443F7744608B8, 0x4C263A81E69035E0, 0xCB00C391BB52283C, 0xA32E531B8B65D088]
  const KEY_3: Lanes := [0xEA647378D9C97E9F, 0xC5C3EBD33483ACC5, 0x17EB6313FAFFA081, 0xD349DAF0B751DD0D,
    0x2B9E68D429265516, 0x8FFCA1477D58BE16, 0x45CE31D07AD1B8F8, 0xAF280416958F3ACB]

  lemma Words0()
    ensures Holds(Counting(), 0, INPUT_0) && Holds(SECRET, 0, KEY_0)
  {
    hide Word, Number, Counting;
    CountingWord(0, 0x706050403020100);
    CountingWord(8, 0xF0E0D0C0B0A0908);
    CountingWord(16, 0x1716151413121110);
    CountingWord(24, 0x1F1E1D1C1B1A1918);
    CountingWord(32, 0x2726252423222120);
    CountingWord(40, 0x2F2E2D2C2B2A2928);
    CountingWord(48, 0x3736353433323130);
    CountingWord(56, 0x3F3E3D3C3B3A3938);
    Key0();
  }

  lemma Key0()
    ensures Holds(SECRET, 0, KEY_0)
  {
    hide Word, NumberAt;
    Row0();
    Row1();
    Row2();
    Row3();
    WordIs(SECRET, 0, 0xBE4BA423396CFEB8);
    WordIs(SECRET, 8, 0x1CAD21F72C81017C);
    WordIs(SECRET, 16, 0xDB979083E96DD4DE);
    WordIs(SECRET, 24, 0x1F67B3B7A4A44072);
    WordIs(SECRET, 32, 0x78E5C0CC4EE679CB);
    WordIs(SECRET, 40, 0x2172FFCC7DD05A82);
    WordIs(SECRET, 48, 0x8E2443F7744608B8);
    WordIs(SECRET, 56, 0x4C263A81E69035E0);
  }

  lemma Values00(i: nat)
    requires 0 <= i < 4
    ensures Lane(INIT, INPUT_0, KEY_0, i) == ONE[i]
  {
    hide LaneSum, Xor, Add, Mul, Lo, Hi;
    LaneIs(0xC2B2AE3D, 0xF0E0D0C0B0A0908, 0x706050403020100, 0xBE4BA423396CFEB8, 0xB94DA1273A6EFFB8, 0x3A6EFFB8,
           0xB94DA127, 0x2A4BEEF79813AD08, 0xF0E0D0CCDBCB745, 0x3959FC0465D0644D);
    LaneIs(0x9E3779B185EBCA87, 0x706050403020100, 0xF0E0D0C0B0A0908, 0x1CAD21F72C81017C, 0x13A32CFB278B0874,
           0x278B0874, 0x13A32CFB, 0x3088619A8A139BC, 0xA53D7EB588EDCB87, 0xA84604CF318F0543);
    LaneIs(0xC2B2AE3D27D4EB4F, 0x1F1E1D1C1B1A1918, 0x1716151413121110, 0xDB979083E96DD4DE, 0xCC818597FA7FC5CE,
           0xFA7FC5CE, 0xCC818597, 0xC81C8EBAF7EFB282, 0xE1D0CB5942EF0467, 0xA9ED5A143ADEB6E9);
    LaneIs(0x165667B19E3779F9, 0x1716151413121110, 0x1F1E1D1C1B1A1918, 0x1F67B3B7A4A44072, 0x79AEABBFBE596A,
           0xBFBE596A, 0x79AEAB, 0x5B23CBB805C5CE, 0x2D6C7CC5B1498B09, 0x2DC7A091694F50D7);
  }

  lemma Values01(i: nat)
    requires 4 <= i < 8
    ensures Lane(INIT, INPUT_0, KEY_0, i) == ONE[i]
  {
    hide LaneSum, Xor, Add, Mul, Lo, Hi;
    LaneIs(0x85EBCA77C2B2AE63, 0x2F2E2D2C2B2A2928, 0x2726252423222120, 0x78E5C0CC4EE679CB, 0x5FC3E5E86DC458EB,
           0x6DC458EB, 0x5FC3E5E8, 0x290FDC230D7BCBF8, 0xB519F7A3EDDCD78B, 0xDE29D3C6FB58A383);
    LaneIs(0x85EBCA77, 0x2726252423222120, 0x2F2E2D2C2B2A2928, 0x2172FFCC7DD05A82, 0xE5CD2E056FA73AA, 0x56FA73AA,
           0xE5CD2E0, 0x4E13BFA6B1EA8C0, 0x27262524A90DEB97, 0x2C07611F142C9457);
    LaneIs(0x27D4EB2F165667C5, 0x3F3E3D3C3B3A3938, 0x3736353433323130, 0x8E2443F7744608B8, 0xB91276C347743988,
           0x47743988, 0xB91276C3, 0x33A824E5539C8298, 0x6713286B5190A0FD, 0x9ABB4D50A52D2395);
    LaneIs(0x9E3779B1, 0x3736353433323130, 0x3F3E3D3C3B3A3938, 0x4C263A81E69035E0, 0x731807BDDDAA0CD8, 0xDDAA0CD8,
           0x731807BD, 0x63A8326989256378, 0x37363534D169AAE1, 0x9ADE679E5A8F0E59);
  }

  lemma Stripe0()
    ensures Accumulated(INIT, Counting()[0..64], SECRET[0..64]) == ONE
  {
    hide Holds, Lane, Accumulated;
    Words0();
    forall i | 0 <= i < 8 ensures Accumulated(INIT, Counting()[0..64], SECRET[0..64])[i] == ONE[i] {
      StripeIs(INIT, Counting(), 0, SECRET, 0, INPUT_0, KEY_0, i);
      if i < 4 {
        Values00(i);
      } else {
        Values01(i);
      }
    }
  }

  lemma Words1()
    ensures Holds(Counting(), 64, INPUT_1) && Holds(SECRET, 8, KEY_1)
  {
    hide Word, Number, Counting;
    CountingWord(64, 0x4746454443424140);
    CountingWord(72, 0x4F4E4D4C4B4A4948);
    CountingWord(80, 0x5756555453525150);
    CountingWord(88, 0x5F5E5D5C5B5A5958);
    CountingWord(96, 0x6766656463626160);
    CountingWord(104, 0x6F6E6D6C6B6A6968);
    CountingWord(112, 0x7776757473727170);
    CountingWord(120, 0x7F7E7D7C7B7A7978);
    Key1();
  }

  lemma Key1()
    ensures Holds(SECRET, 8, KEY_1)
  {
    hide Word, NumberAt;
    Row0();
    Row1();
    Row2();
    Row3();
    Row4();
    WordIs(SECRET, 8, 0x1CAD21F72C81017C);
    WordIs(SECRET, 16, 0xDB979083E96DD4DE);
    WordIs(SECRET, 24, 0x1F67B3B7A4A44072);
    WordIs(SECRET, 32, 0x78E5C0CC4EE679CB);
    WordIs(SECRET, 40, 0x2172FFCC7DD05A82);
    WordIs(SECRET, 48, 0x8E2443F7744608B8);
    WordIs(SECRET, 56, 0x4C263A81E69035E0);
    WordIs(SECRET, 64, 0xCB00C391BB52283C);
  }

  lemma Values10(i: nat)
    requires 0 <= i < 4
    ensures Lane(ONE, INPUT_1, KEY_1, i) == TWO[i]
  {
    hide LaneSum, Xor, Add, Mul, Lo, Hi;
    LaneIs(0x3959FC0465D0644D, 0x4F4E4D4C4B4A4948, 0x4746454443424140, 0x1CAD21F72C81017C, 0x5BEB64B36FC3403C,
           0x6FC3403C, 0x5BEB64B3, 0x28212C07B5B159F4, 0x88A84950B11AAD95, 0xB0C9755866CC0789);
    LaneIs(0xA84604CF318F0543, 0x4746454443424140, 0x4F4E4D4C4B4A4948, 0xDB979083E96DD4DE, 0x94D9DDCFA2279D96,
           0xA2279D96, 0x94D9DDCF, 0x5E48E72E9D38EA4A, 0xEF8C4A1374D14683, 0x4DD53142120A30CD);
    LaneIs(0xA9ED5A143ADEB6E9, 0x5F5E5D5C5B5A5958, 0x5756555453525150, 0x1F67B3B7A4A44072, 0x4831E6E3F7F61122,
           0xF7F61122, 0x4831E6E3, 0x45ED8A8DCA17BD26, 0x94BB77096391041, 0x4F3941FE6050CD67);
    LaneIs(0x2DC7A091694F50D7, 0x5756555453525150, 0x5F5E5D5C5B5A5958, 0x78E5C0CC4EE679CB, 0x27BB9D9015BC2093,
           0x15BC2093, 0x27BB9D90, 0x35F96C2CA2D79B0, 0x851DF5E5BCA1A227, 0x887D8CA886CF1BD7);
  }

  lemma Values11(i: nat)
    requires 4 <= i < 8
    ensures Lane(ONE, INPUT_1, KEY_1, i) == TWO[i]
  {
    hide LaneSum, Xor, Add, Mul, Lo, Hi;
    LaneIs(0xDE29D3C6FB58A383, 0x6F6E6D6C6B6A6968, 0x6766656463626160, 0x2172FFCC7DD05A82, 0x46149AA81EB23BE2,
           0x1EB23BE2, 0x46149AA8, 0x86734D7D6A54050, 0x4D98413366C30CEB, 0x55FF760B3D684D3B);
    LaneIs(0x2C07611F142C9457, 0x6766656463626160, 0x6F6E6D6C6B6A6968, 0x8E2443F7744608B8, 0xE14A2E9B1F2C61D0,
           0x1F2C61D0, 0xE14A2E9B, 0x1B6F0A78EF9298F0, 0x936DC683778EF5B7, 0xAEDCD0FC67218EA7);
    LaneIs(0x9ABB4D50A52D2395, 0x7F7E7D7C7B7A7978, 0x7776757473727170, 0x4C263A81E69035E0, 0x3B504FF595E24490,
           0x95E24490, 0x3B504FF5, 0x22BA2B52E1B40DD0, 0x1A39CACD20A79D0D, 0x3CF3F620025BAADD);
    LaneIs(0x9ADE679E5A8F0E59, 0x7776757473727170, 0x7F7E7D7C7B7A7978, 0xCB00C391BB52283C, 0xB47EBEEDC0285144,
           0xC0285144, 0xB47EBEED, 0x877B7C4BA11BB3F4, 0x1254DD12CE017FC9, 0x99D0595E6F1D33BD);
  }

  lemma Stripe1()
    ensures Accumulated(ONE, Counting()[64..128], SECRET[8..72]) == TWO
  {
    hide Holds, Lane, Accumulated;
    Words1();
    forall i | 0 <= i < 8 ensures Accumulated(ONE, Counting()[64..128], SECRET[8..72])[i] == TWO[i] {
      StripeIs(ONE, Counting(), 64, SECRET, 8, INPUT_1, KEY_1, i);
      if i < 4 {
        Values10(i);
      } else {
        Values11(i);
      }
    }
  }

  lemma Words2()
    ensures Holds(Counting(), 128, INPUT_2) && Holds(SECRET, 16, KEY_2)
  {
    hide Word, Number, Counting;
    CountingWord(128, 0x8786858483828180);
    CountingWord(136, 0x8F8E8D8C8B8A8988);
    CountingWord(144, 0x9796959493929190);
    CountingWord(152, 0x9F9E9D9C9B9A9998);
    CountingWord(160, 0xA7A6A5A4A3A2A1A0);
    CountingWord(168, 0xAFAEADACABAAA9A8);
    CountingWord(176, 0xB7B6B5B4B3B2B1B0);
    CountingWord(184, 0xBFBEBDBCBBBAB9B8);
    Key2();
  }

  lemma Key2()
    ensures Holds(SECRET, 16, KEY_2)
  {
    hide Word, NumberAt;
    Row1();
    Row2();
    Row3();
    Row4();
    WordIs(SECRET, 16, 0xDB979083E96DD4DE);
    WordIs(SECRET, 24, 0x1F67B3B7A4A44072);
    WordIs(SECRET, 32, 0x78E5C0CC4EE679CB);
    WordIs(SECRET, 40, 0x2172FFCC7DD05A82);
    WordIs(SECRET, 48, 0x8E2443F7744608B8);
    WordIs(SECRET, 56, 0x4C263A81E69035E0);
    WordIs(SECRET, 64, 0xCB00C391BB52283C);
    WordIs(SECRET, 72, 0xA32E531B8B65D088);
  }

  lemma Values20(i: nat)
    requires 0 <= i < 4
    ensures Lane(TWO, INPUT_2, KEY_2, i) == THREE[i]
  {
    hide LaneSum, Xor, Add, Mul, Lo, Hi;
    LaneIs(0xB0C9755866CC0789, 0x8F8E8D8C8B8A8988, 0x8786858483828180, 0xDB979083E96DD4DE, 0x5C1115076AEF555E,
           0x6AEF555E, 0x5C111507, 0x2675255B01CA0B92, 0x405802E4F2569111, 0x66CD283FF4209CA3);
    LaneIs(0x4DD53142120A30CD, 0x8786858483828180, 0x8F8E8D8C8B8A8988, 0x1F67B3B7A4A44072, 0x90E93E3B2F2EC9FA,
           0x2F2EC9FA, 0x90E93E3B, 0x1AB54EAAA93D189E, 0xD55BB6C6958CB24D, 0xF01105713EC9CAEB);
    LaneIs(0x4F3941FE6050CD67, 0x9F9E9D9C9B9A9998, 0x9796959493929190, 0x78E5C0CC4EE679CB, 0xEF735558DD74E85B,
           0xDD74E85B, 0xEF735558, 0xCF23EA4547371648, 0xEED7DF9AFBEB66FF, 0xBDFBC9E043227D47);
    LaneIs(0x887D8CA886CF1BD7, 0x9796959493929190, 0x9F9E9D9C9B9A9998, 0x2172FFCC7DD05A82, 0xBEEC6250E64AC31A,
           0xE64AC31A, 0xBEEC6250, 0xABC02229BE04EC20, 0x2014223D1A61AD67, 0xCBD44466D8669987);
  }

  lemma Values21(i: nat)
    requires 4 <= i < 8
    ensures Lane(TWO, INPUT_2, KEY_2, i) == THREE[i]
  {
    hide LaneSum, Xor, Add, Mul, Lo, Hi;
    LaneIs(0x55FF760B3D684D3B, 0xAFAEADACABAAA9A8, 0xA7A6A5A4A3A2A1A0, 0x8E2443F7744608B8, 0x2982E653D7E4A918,
           0xD7E4A918, 0x2982E653, 0x23020370253E62C8, 0x5AE23B7E912F6E3, 0x28B027280E5159AB);
    LaneIs(0xAEDCD0FC67218EA7, 0xA7A6A5A4A3A2A1A0, 0xAFAEADACABAAA9A8, 0x4C263A81E69035E0, 0xE388972D4D3A9C48,
           0x4D3A9C48, 0xE388972D, 0x44A42D5203BBF0A8, 0x568376A10AC43047, 0x9B27A3F30E8020EF);
    LaneIs(0x3CF3F620025BAADD, 0xBFBEBDBCBBBAB9B8, 0xB7B6B5B4B3B2B1B0, 0xCB00C391BB52283C, 0x7CB6762508E0998C,
           0x8E0998C, 0x7CB67625, 0x4531E25C8C4B93C, 0xFCB2B3DCBE166495, 0x105D20286DB1DD1);
    LaneIs(0x99D0595E6F1D33BD, 0xB7B6B5B4B3B2B1B0, 0xBFBEBDBCBBBAB9B8, 0xA32E531B8B65D088, 0x1C90EEA730DF6930,
           0x30DF6930, 0x1C90EEA7, 0x5741ABC00883E50, 0x51870F1322CFE56D, 0x56FB29CF235823BD);
  }

  lemma Stripe2()
    ensures Accumulated(TWO, Counting()[128..192], SECRET[16..80]) == THREE
  {
    hide Holds, Lane, Accumulated;
    Words2();
    forall i | 0 <= i < 8 ensures Accumulated(TWO, Counting()[128..192], SECRET[16..80])[i] == THREE[i] {
      StripeIs(TWO, Counting(), 128, SECRET, 16, INPUT_2, KEY_2, i);
      if i < 4 {
        Values20(i);
      } else {
        Values21(i);
      }
    }
  }

  lemma Words3()
    ensures Holds(Counting(), 192, INPUT_3) && Holds(SECRET, 121, KEY_3)
  {
    hide Word, Number, Counting;
    CountingWord(192, 0xC7C6C5C4C3C2C1C0);
    CountingWord(200, 0xCFCECDCCCBCAC9C8);
    CountingWord(208, 0xD7D6D5D4D3D2D1D0);
    CountingWord(216, 0xDFDEDDDCDBDAD9D8);
    CountingWord(224, 0xE7E6E5E4E3E2E1E0);
    CountingWord(232, 0xEFEEEDECEBEAE9E8);
    CountingWord(240, 0xF7F6F5F4F3F2F1F0);
    CountingWord(248, 0xFFFEFDFCFBFAF9F8);
    Key3();
  }

  lemma Key3()
    ensures Holds(SECRET, 121, KEY_3)
  {
    hide Word, NumberAt;
    Row7();
    Row8();
    Row9();
    Row10();
    Row11();
    OneLater(SECRET, 120);
    OneLater(SECRET, 128);
    OneLater(SECRET, 136);
    OneLater(SECRET, 144);
    OneLater(SECRET, 152);
    OneLater(SECRET, 160);
    OneLater(SECRET, 168);
    OneLater(SECRET, 176);
    WordIs(SECRET, 121, 0xEA647378D9C97E9F);
    WordIs(SECRET, 129, 0xC5C3EBD33483ACC5);
    WordIs(SECRET, 137, 0x17EB6313FAFFA081);
    WordIs(SECRET, 145, 0xD349DAF0B751DD0D);
    WordIs(SECRET, 153, 0x2B9E68D429265516);
    WordIs(SECRET, 161, 0x8FFCA1477D58BE16);
    WordIs(SECRET, 169, 0x45CE31D07AD1B8F8);
    WordIs(SECRET, 177, 0xAF280416958F3ACB);
  }

  lemma Values30(i: nat)
    requires 0 <= i < 4
    ensures Lane(THREE, INPUT_3, KEY_3, i) == LAST[i]
  {
    hide LaneSum, Xor, Add, Mul, Lo, Hi;
    LaneIs(0x66CD283FF4209CA3, 0xCFCECDCCCBCAC9C8, 0xC7C6C5C4C3C2C1C0, 0xEA647378D9C97E9F, 0x2DA2B6BC1A0BBF5F,
           0x1A0BBF5F, 0x2DA2B6BC, 0x4A49EAA47CC13C4, 0x369BF60CBFEB666B, 0x3B4094B707B77A2F);
    LaneIs(0xF01105713EC9CAEB, 0xC7C6C5C4C3C2C1C0, 0xCFCECDCCCBCAC9C8, 0xC5C3EBD33483ACC5, 0xA0D261FFF49650D,
           0xFF49650D, 0xA0D261F, 0xA05FAB0728C2A93, 0xB7D7CB36028C8CAB, 0xC1DDC5E67518B73E);
    LaneIs(0xBDFBC9E043227D47, 0xDFDEDDDCDBDAD9D8, 0xD7D6D5D4D3D2D1D0, 0x17EB6313FAFFA081, 0xC03DB6C7292D7151,
           0x292D7151, 0xC03DB6C7, 0x1EEC0237112FABF7, 0x9DDAA7BD1EFD571F, 0xBCC6A9F4302D0316);
    LaneIs(0xCBD44466D8669987, 0xD7D6D5D4D3D2D1D0, 0xDFDEDDDCDBDAD9D8, 0xD349DAF0B751DD0D, 0xC97072C6C8B04D5,
           0x6C8B04D5, 0xC97072C, 0x5568D444AA9A79C, 0xA3AB1A3BAC396B57, 0xA901A77FF6E312F3);
  }

  lemma Values31(i: nat)
    requires 4 <= i < 8
    ensures Lane(THREE, INPUT_3, KEY_3, i) == LAST[i]
  {
    hide LaneSum, Xor, Add, Mul, Lo, Hi;
    LaneIs(0x28B027280E5159AB, 0xEFEEEDECEBEAE9E8, 0xE7E6E5E4E3E2E1E0, 0x2B9E68D429265516, 0xCC788D30CAC4B4F6,
           0xCAC4B4F6, 0xCC788D30, 0xA1F43C3D37DD6C20, 0x189F1514FA3C4393, 0xBA9351523219AFB3);
    LaneIs(0x9B27A3F30E8020EF, 0xE7E6E5E4E3E2E1E0, 0xEFEEEDECEBEAE9E8, 0x8FFCA1477D58BE16, 0x60124CAB96B257FE,
           0x96B257FE, 0x60124CAB, 0x388DA6AB0B1C2EAA, 0x830E89D7F26302CF, 0xBB9C3082FD7F3179);
    LaneIs(0x105D20286DB1DD1, 0xFFFEFDFCFBFAF9F8, 0xF7F6F5F4F3F2F1F0, 0x45CE31D07AD1B8F8, 0xB238C42489234908,
           0x89234908, 0xB238C424, 0x5F78F191D6A06520, 0x104CFFF82D617C9, 0x607DC19159767CE9);
    LaneIs(0x56FB29CF235823BD, 0xF7F6F5F4F3F2F1F0, 0xFFFEFDFCFBFAF9F8, 0xAF280416958F3ACB, 0x50D6F9EA6E75C333,
           0x6E75C333, 0x50D6F9EA, 0x22E18F469F23079E, 0x4EF21FC4174B15AD, 0x71D3AF0AB66E1D4B);
  }

  lemma Stripe3()
    ensures Accumulated(THREE, Counting()[192..256], SECRET[121..185]) == LAST
  {
    hide Holds, Lane, Accumulated;
    Words3();
    forall i | 0 <= i < 8 ensures Accumulated(THREE, Counting()[192..256], SECRET[121..185])[i] == LAST[i] {
      StripeIs(THREE, Counting(), 192, SECRET, 121, INPUT_3, KEY_3, i);
      if i < 4 {
        Values30(i);
      } else {
        Values31(i);
      }
    }
  }

  // ---------- a scramble ----------

  const SCRAMBLED: Lanes := [0x9FDB717D4DDFA0E3, 0xFFEECC1959CAEF4C, 0x8E80ACF3C808FD77, 0xC7A81EA35496623C,
    0x34893386030C38E0, 0x5B86C348E6BAE57F, 0xA4B0D0D862CC28EF, 0xA6958D6C769EAA4]
  const KEY_4: Lanes := [0xC3EBD33483ACC5EA, 0xEB6313FAFFA081C5, 0x49DAF0B751DD0D17, 0x9E68D429265516D3,
    0xFCA1477D58BE162B, 0xCE31D07AD1B8F88F, 0x280416958F3ACB45, 0x7E404BBBCAFBD7AF]

  predicate Shifts(lane: bv64, secret: bv64, shifted: bv64, key: bv64) {
    shifted == lane ^ (lane >> 47) && key == shifted ^ secret
  }

  lemma ShiftIs(lane: bv64, secret: bv64, shifted: bv64, key: bv64)
    requires Shifts(lane, secret, shifted, key)
    ensures Xor(lane ^ (lane >> 47), secret) == key
  {
  }

  lemma MixIs(lane: bv64, secret: bv64, shifted: bv64, key: bv64, result: bv64)
    requires Shifts(lane, secret, shifted, key) && Product(key, 0x9E37_79B1, result)
    ensures Mixed(lane, secret) == result
  {
    hide Xor, Mul, Shifts, Product;
    ShiftIs(lane, secret, shifted, key);
    ProductIs(key, 0x9E37_79B1, result);
  }

  lemma MixedValues(i: nat)
    requires i < 8
    ensures Mixed(THREE[i], KEY_4[i]) == SCRAMBLED[i]
  {
    hide Mixed;
    MixIs(0x66CD283FF4209CA3, 0xC3EBD33483ACC5EA, 0x66CD283FF4205139, 0xA526FB0B778C94D3, 0x9FDB717D4DDFA0E3);
    MixIs(0xF01105713EC9CAEB, 0xEB6313FAFFA081C5, 0xF01105713EC82AC9, 0x1B72168BC168AB0C, 0xFFEECC1959CAEF4C);
    MixIs(0xBDFBC9E043227D47, 0x49DAF0B751DD0D17, 0xBDFBC9E0432306B0, 0xF421395712FE0BA7, 0x8E80ACF3C808FD77);
    MixIs(0xCBD44466D8669987, 0x9E68D429265516D3, 0xCBD44466D8670E2F, 0x55BC904FFE3218FC, 0xC7A81EA35496623C);
    MixIs(0x28B027280E5159AB, 0xFCA1477D58BE162B, 0x28B027280E5108CB, 0xD411605556EF1EE0, 0x34893386030C38E0);
    MixIs(0x9B27A3F30E8020EF, 0xCE31D07AD1B8F88F, 0x9B27A3F30E8116A0, 0x55167389DF39EE2F, 0x5B86C348E6BAE57F);
    MixIs(0x105D20286DB1DD1, 0x280416958F3ACB45, 0x105D20286DB1FDA, 0x2901C49709E1D49F, 0xA4B0D0D862CC28EF);
    MixIs(0x56FB29CF235823BD, 0x7E404BBBCAFBD7AF, 0x56FB29CF23588E4B, 0x28BB6274E9A359E4, 0xA6958D6C769EAA4);
  }

  lemma Key4()
    ensures Holds(SECRET, 128, KEY_4)
  {
    hide Word, NumberAt;
    Row8();
    Row9();
    Row10();
    Row11();
    WordIs(SECRET, 128, 0xC3EBD33483ACC5EA);
    WordIs(SECRET, 136, 0xEB6313FAFFA081C5);
    WordIs(SECRET, 144, 0x49DAF0B751DD0D17);
    WordIs(SECRET, 152, 0x9E68D429265516D3);
    WordIs(SECRET, 160, 0xFCA1477D58BE162B);
    WordIs(SECRET, 168, 0xCE31D07AD1B8F88F);
    WordIs(SECRET, 176, 0x280416958F3ACB45);
    WordIs(SECRET, 184, 0x7E404BBBCAFBD7AF);
  }

  /** What a scramble makes of the accumulators after three stripes. */
  lemma ScrambleVector()
    ensures Scrambled(THREE, SECRET[128..192]) == SCRAMBLED
  {
    hide Mixed, Scrambled, Word;
    Key4();
    forall i | 0 <= i < 8 ensures Scrambled(THREE, SECRET[128..192])[i] == SCRAMBLED[i] {
      ScrambledLane(THREE, SECRET[128..192], i);
      WordInside(SECRET, 128, 192, 8 * i);
      MixedValues(i);
    }
  }

  // ---------- the end ----------

  lemma FoldedIs(x: bv64, y: bv64, low: nat, high: nat, result: bv64)
    requires low < TWO_64 && high < TWO_64 && x as nat * y as nat == high * TWO_64 + low
    requires XorWords(low, high) == result
    ensures FoldedProduct(x, y) == result
  {
    hide XorWords, Folded;
    FoldedHalves(low, high);
  }

  lemma PairIs(acc: Lanes, i: nat, a: bv64, b: bv64, x: bv64, y: bv64, result: bv64)
    requires i < 4 && Word(SECRET, 11 + 16 * i) == a && Word(SECRET, 19 + 16 * i) == b
    requires Xor(acc[2 * i], a) == x && Xor(acc[2 * i + 1], b) == y && FoldedProduct(x, y) == result
    ensures Pair(acc, i) == result
  {
    hide Word, Xor, FoldedProduct;
  }

  lemma PairKeys0()
    ensures Word(SECRET, 11) == 0x6DD4DE1CAD21F72C && Word(SECRET, 19) == 0xA44072DB979083E9
  {
    hide Word, NumberAt;
    Row0();
    Row1();
    ThreeLater(SECRET, 8);
    ThreeLater(SECRET, 16);
    WordIs(SECRET, 11, 0x6DD4DE1CAD21F72C);
    WordIs(SECRET, 19, 0xA44072DB979083E9);
  }

  lemma Pair0()
    ensures Pair(LAST, 0) == 0xDE5904611C4589E4
  {
    hide Word, NumberAt, FoldedProduct;
    PairKeys0();
    FoldedIs(0x56944AABAA968D03, 0x659DB73DE28834D7, 0xFC04DC0168AD0985, 0x225DD86074E88061, 0xDE5904611C4589E4);
    PairIs(LAST, 0, 0x6DD4DE1CAD21F72C, 0xA44072DB979083E9, 0x56944AABAA968D03, 0x659DB73DE28834D7,
           0xDE5904611C4589E4);
  }

  lemma PairKeys1()
    ensures Word(SECRET, 27) == 0xE679CB1F67B3B7A4 && Word(SECRET, 35) == 0xD05A8278E5C0CC4E
  {
    hide Word, NumberAt;
    Row1();
    Row2();
    ThreeLater(SECRET, 24);
    ThreeLater(SECRET, 32);
    WordIs(SECRET, 27, 0xE679CB1F67B3B7A4);
    WordIs(SECRET, 35, 0xD05A8278E5C0CC4E);
  }

  lemma Pair1()
    ensures Pair(LAST, 1) == 0x8C784E5CAA510F08
  {
    hide Word, NumberAt, FoldedProduct;
    PairKeys1();
    FoldedIs(0x5ABF62EB579EB4B2, 0x795B25071323DEBD, 0xA77C8AB53B33C36A, 0x2B04C4E99162CC62, 0x8C784E5CAA510F08);
    PairIs(LAST, 1, 0xE679CB1F67B3B7A4, 0xD05A8278E5C0CC4E, 0x5ABF62EB579EB4B2, 0x795B25071323DEBD,
           0x8C784E5CAA510F08);
  }

  lemma PairKeys2()
    ensures Word(SECRET, 43) == 0x4608B82172FFCC7D && Word(SECRET, 51) == 0x9035E08E2443F774
  {
    hide Word, NumberAt;
    Row2();
    Row3();
    ThreeLater(SECRET, 40);
    ThreeLater(SECRET, 48);
    WordIs(SECRET, 43, 0x4608B82172FFCC7D);
    WordIs(SECRET, 51, 0x9035E08E2443F774);
  }

  lemma Pair2()
    ensures Pair(LAST, 2) == 0xA7774D23AB7924AE
  {
    hide Word, NumberAt, FoldedProduct;
    PairKeys2();
    FoldedIs(0xFC9BE97340E663CE, 0x2BA9D00CD93CC60D, 0x8C628D4D7F2C6576, 0x2B15C06ED45541D8, 0xA7774D23AB7924AE);
    PairIs(LAST, 2, 0x4608B82172FFCC7D, 0x9035E08E2443F774, 0xFC9BE97340E663CE, 0x2BA9D00CD93CC60D,
           0xA7774D23AB7924AE);
  }

  lemma PairKeys3()
    ensures Word(SECRET, 59) == 0x52283C4C263A81E6 && Word(SECRET, 67) == 0x65D088CB00C391BB
  {
    hide Word, NumberAt;
    Row3();
    Row4();
    ThreeLater(SECRET, 56);
    ThreeLater(SECRET, 64);
    WordIs(SECRET, 59, 0x52283C4C263A81E6);
    WordIs(SECRET, 67, 0x65D088CB00C391BB);
  }

  lemma Pair3()
    ensures Pair(LAST, 3) == 0x1688A32C6842944C
  {
    hide Word, NumberAt, FoldedProduct;
    PairKeys3();
    FoldedIs(0x3255FDDD7F4CFD0F, 0x140327C1B6AD8CF0, 0x1567F5841FB47210, 0x3EF56A877F6E65C, 0x1688A32C6842944C);
    PairIs(LAST, 3, 0x52283C4C263A81E6, 0x65D088CB00C391BB, 0x3255FDDD7F4CFD0F, 0x140327C1B6AD8CF0,
           0x1688A32C6842944C);
  }

  lemma AvalancheVector()
    ensures Avalanched(0x604AF493C61CD8E6) == 0x9408A4433B952D71
  {
  }

  lemma SumVector()
    ensures Add(Add(Add(Add(0x3779B185EBCA8700, 0xDE5904611C4589E4),
                        0x8C784E5CAA510F08), 0xA7774D23AB7924AE), 0x1688A32C6842944C) == 0x604AF493C61CD8E6
  {
    hide Add;
    SumIs(0x3779B185EBCA8700, 0xDE5904611C4589E4, 0x15D2B5E7081010E4);
    SumIs(0x15D2B5E7081010E4, 0x8C784E5CAA510F08, 0xA24B0443B2611FEC);
    SumIs(0xA24B0443B2611FEC, 0xA7774D23AB7924AE, 0x49C251675DDA449A);
    SumIs(0x49C251675DDA449A, 0x1688A32C6842944C, 0x604AF493C61CD8E6);
  }

  lemma StartVector()
    ensures Mul((256 % 0x1_0000_0000_0000_0000) as bv64, 0x9E37_79B1_85EB_CA87) == 0x3779B185EBCA8700
  {
    hide Mul;
    NoWrap(256);
    assert 256 as bv64 == 256;
    ProductIs(256, 0x9E37_79B1_85EB_CA87, 0x3779B185EBCA8700);
  }

  /** The end of the hash for a fixed accumulator. */
  lemma EndingVector()
    ensures FinalizeLong(LAST, 256) == 0x9408A4433B952D71
  {
    hide Add, Mul, Pair, Avalanched, FinalizeLong;
    EndingIs(LAST, 256);
    Pair0();
    Pair1();
    Pair2();
    Pair3();
    StartVector();
    SumVector();
    AvalancheVector();
  }

  // ---------- the whole vector ----------

  lemma AfterStripes(short: bytes -> bv64)
    ensures var k := Xxh3Kernel(short);
      Consume(k, SECRET, Start(k), Counting()[..192]) == Position(THREE, 3)
  {
    hide Consume, Accumulated, Scrambled, Counting, FinalizeLong;
    var k := Xxh3Kernel(short);
    NoStripe(k, SECRET, Start(k), Counting()[..0]);
    NthStripe(short, Counting(), 0);
    Stripe0();
    NthStripe(short, Counting(), 1);
    Stripe1();
    NthStripe(short, Counting(), 2);
    Stripe2();
  }

  /** The digest of the 256 bytes. */
  lemma Vector(short: bytes -> bv64)
    ensures Xxh3(Xxh3Kernel(short), SECRET, Counting()) == 0x9408A4433B952D71
  {
    hide Consume, Accumulated, Counting, FinalizeLong, Ending;
    AfterStripes(short);
    WholeHash(short, Counting());
    assert Counting()[192..] == Counting()[192..256];
    Stripe3();
    EndingVector();
    EndingIs(LAST, 256);
  }
}
