/** XXH3 of inputs above 240 bytes, written out without the functions of the model: the stripes by number, the
    lanes in machine operations and the end of the hash in exact products. Xxh3Vector fixes every constant. */
module Xxh3Reference {
  import opened Bytes
  import opened Xxh3Spec
  import opened Xxh3Kernels

  // ---------- words ----------

  /** Eight bytes, least significant first. */
  function Number(b0: byte, b1: byte, b2: byte, b3: byte, b4: byte, b5: byte, b6: byte, b7: byte): (n: nat)
    ensures n < 0x1_0000_0000_0000_0000
  {
    b0 as nat + 0x100 * b1 as nat + 0x1_0000 * b2 as nat + 0x100_0000 * b3 as nat
    + 0x1_0000_0000 * (b4 as nat + 0x100 * b5 as nat + 0x1_0000 * b6 as nat + 0x100_0000 * b7 as nat)
  }

  function Word(b: bytes, at: nat): bv64
    requires at + 8 <= |b|
  {
    Number(b[at], b[at + 1], b[at + 2], b[at + 3], b[at + 4], b[at + 5], b[at + 6], b[at + 7]) as bv64
  }

  lemma NumberRead(s: bytes)
    requires |s| == 8
    ensures FromLE(s) == Number(s[0], s[1], s[2], s[3], s[4], s[5], s[6], s[7])
  {
    TwoRead(s[6..]);
    assert s[4..][2..] == s[6..];
    TwoRead(s[4..]);
    assert s[2..][2..] == s[4..];
    TwoRead(s[2..]);
    TwoRead(s);
    assert FromLE(s[6..][2..]) == 0;
  }

  lemma TwoRead(s: bytes)
    requires |s| >= 2
    ensures FromLE(s) == s[0] as nat + 256 * s[1] as nat + 65536 * FromLE(s[2..])
  {
    assert s[1..][1..] == s[2..];
  }

  lemma WordRead(b: bytes, at: nat)
    requires at + 8 <= |b|
    ensures ReadLE64(b, at) == Word(b, at)
  {
    hide FromLE, Number, LE, Pow256;
    NumberRead(b[at..at + 8]);
  }

  // ---------- lanes ----------

  /** The named operations are those of the machine. */
  lemma Operations(a: bv64, b: bv64)
    ensures Add(a, b) == a + b
    ensures Mul(a, b) == a * b
    ensures Xor(a, b) == a ^ b
    ensures Lo(a) == a & 0xFFFF_FFFF && Hi(a) == a >> 32 && XorShift47(a) == a ^ (a >> 47)
  {
  }

  /** A lane after a stripe: its neighbour's input word is added, and the product of the halves of its own word, into
      which the secret has been mixed. */
  function LaneSum(lane: bv64, neighbour: bv64, key: bv64): bv64 {
    Add(Add(lane, neighbour), Mul(Lo(key), Hi(key)))
  }

  /** A lane after a scramble. */
  function Mixed(lane: bv64, secret: bv64): bv64 {
    Mul(Xor(lane ^ (lane >> 47), secret), 0x9E37_79B1)
  }

  lemma AccumulatedLane(acc: Lanes, input: bytes, secret: bytes, i: nat)
    requires |input| >= 64 && |secret| >= 64 && i < 8
    ensures Accumulated(acc, input, secret)[i] ==
      LaneSum(acc[i], Word(input, 8 * (if i % 2 == 0 then i + 1 else i - 1)),
              Xor(Word(input, 8 * i), Word(secret, 8 * i)))
  {
    hide Word, ReadLE64, Add, Mul, Lo, Hi, Xor;
    WordRead(input, 8 * i);
    WordRead(secret, 8 * i);
    WordRead(input, 8 * Partner(i));
    LoHi(Xor(Word(input, 8 * i), Word(secret, 8 * i)));
  }

  lemma ScrambledLane(acc: Lanes, secret: bytes, i: nat)
    requires |secret| >= 64 && i < 8
    ensures Scrambled(acc, secret)[i] == Mixed(acc[i], Word(secret, 8 * i))
  {
    hide Word, ReadLE64, Mul, Xor;
    WordRead(secret, 8 * i);
  }

  // ---------- the end of the hash ----------

  function XorWords(low: nat, high: nat): bv64
    requires low < 0x1_0000_0000_0000_0000 && high < 0x1_0000_0000_0000_0000
  {
    low as bv64 ^ high as bv64
  }

  /** The lower half of a number of 128 bits xored with its upper half. */
  function Folded(product: nat): bv64
    requires product < 0x1_0000_0000_0000_0000_0000_0000_0000_0000
  {
    XorWords(product % 0x1_0000_0000_0000_0000, product / 0x1_0000_0000_0000_0000)
  }

  /** The exact product of two words, folded. */
  function FoldedProduct(x: bv64, y: bv64): bv64 {
    Mult64To128Exact(x as nat, y as nat);
    Folded(x as nat * y as nat)
  }

  lemma FoldedHalves(low: nat, high: nat)
    requires low < TWO_64 && high < TWO_64
    ensures Folded(high * TWO_64 + low) == XorWords(low, high)
  {
    hide XorWords;
  }

  lemma FoldMeans(x: bv64, y: bv64)
    ensures var p := Mult64To128(x as nat, y as nat);
      p.low < TWO_64 && p.high < TWO_64 && Fold(x, y) == XorWords(p.low, p.high)
  {
    hide Mult64To128;
    Mult64To128Exact(x as nat, y as nat);
  }

  lemma FoldIs(x: bv64, y: bv64)
    ensures Fold(x, y) == FoldedProduct(x, y)
  {
    hide Mult64To128, Fold, Folded, XorWords;
    var p := Mult64To128(x as nat, y as nat);
    FoldMeans(x, y);
    Mult64To128Exact(x as nat, y as nat);
    FoldedHalves(p.low, p.high);
  }

  /** One of the four pairs of accumulators against the secret from byte 11 on. */
  function Pair(acc: Lanes, i: nat): bv64
    requires i < 4
  {
    FoldedProduct(Xor(acc[2 * i], Word(SECRET, 11 + 16 * i)), Xor(acc[2 * i + 1], Word(SECRET, 19 + 16 * i)))
  }

  function Avalanched(sum: bv64): bv64 {
    var mixed := Mul(sum ^ (sum >> 37), 0x1656_6791_9E37_79F9);
    mixed ^ (mixed >> 32)
  }

  /** The length, all four pairs, and the avalanche. */
  function Ending(acc: Lanes, len: nat): bv64 {
    var start := Mul((len % 0x1_0000_0000_0000_0000) as bv64, 0x9E37_79B1_85EB_CA87);
    Avalanched(Add(Add(Add(Add(start, Pair(acc, 0)), Pair(acc, 1)), Pair(acc, 2)), Pair(acc, 3)))
  }

  lemma OnePair(acc: Lanes, i: nat, sum: bv64)
    requires i < 4
    ensures MergeAccs(acc, SECRET[11..], i, sum) == MergeAccs(acc, SECRET[11..], i + 1, Add(sum, Pair(acc, i)))
  {
    hide Word, ReadLE64, Fold, FoldedProduct, Add, Xor, Avalanche;
    WordRead(SECRET[11..], 16 * i);
    WordRead(SECRET[11..], 16 * i + 8);
    WordShifted(SECRET, 11, 16 * i);
    WordShifted(SECRET, 11, 16 * i + 8);
    FoldIs(Xor(acc[2 * i], Word(SECRET, 11 + 16 * i)), Xor(acc[2 * i + 1], Word(SECRET, 19 + 16 * i)));
  }

  lemma WordShifted(b: bytes, from: nat, at: nat)
    requires from + at + 8 <= |b|
    ensures Word(b[from..], at) == Word(b, from + at)
  {
    hide Number;
  }

  /** All eight accumulators and the length reach the digest, this way. */
  lemma EndingIs(acc: Lanes, len: nat)
    ensures FinalizeLong(acc, len) == Ending(acc, len)
  {
    hide Pair, Avalanche, Avalanched, Add, Mul, MergeAccs;
    var start := Mul((len % 0x1_0000_0000_0000_0000) as bv64, 0x9E37_79B1_85EB_CA87);
    var s1 := Add(start, Pair(acc, 0));
    var s2 := Add(s1, Pair(acc, 1));
    var s3 := Add(s2, Pair(acc, 2));
    OnePair(acc, 0, start);
    OnePair(acc, 1, s1);
    OnePair(acc, 2, s2);
    OnePair(acc, 3, s3);
    NoPair(acc, Add(s3, Pair(acc, 3)));
  }

  lemma NoPair(acc: Lanes, sum: bv64)
    ensures MergeAccs(acc, SECRET[11..], 4, sum) == Avalanched(sum)
  {
    hide Mul;
  }

  // ---------- stripes ----------

  lemma OneMore(k: Kernel<Lanes>, data: bytes, n: nat)
    requires |data| >= 64 * n + 64
    ensures Consume(k, SECRET, Start(k), data[..64 * (n + 1)])
         == Step(k, SECRET, Consume(k, SECRET, Start(k), data[..64 * n]), data[64 * n..64 * n + 64])
  {
    hide Consume, Step;
    var before := Consume(k, SECRET, Start(k), data[..64 * n]);
    var stripe := data[64 * n..64 * n + 64];
    ConsumeMore(k, SECRET, Start(k), data, n, 1);
    assert data[64 * n..][..64] == stripe && stripe[..64] == stripe;
    OneStripe(k, SECRET, before, stripe);
    NoStripe(k, SECRET, Step(k, SECRET, before, stripe), stripe[64..]);
  }

  lemma {:induction false} StripesCounted(k: Kernel<Lanes>, data: bytes, n: nat)
    requires |data| >= 64 * n
    ensures Consume(k, SECRET, Start(k), data[..64 * n]).stripes == n % 16
    decreases n
  {
    hide Consume;
    if n == 0 {
      NoStripe(k, SECRET, Start(k), data[..0]);
    } else {
      StripesCounted(k, data, n - 1);
      OneMore(k, data, n - 1);
    }
  }

  lemma StepIs(short: bytes -> bv64, s: Position<Lanes>, stripe: bytes)
    requires |stripe| == 64
    ensures var acc := Accumulated(s.acc, stripe, SECRET[s.stripes * 8..s.stripes * 8 + 64]);
      Step(Xxh3Kernel(short), SECRET, s, stripe) ==
        if s.stripes == 15 then Position(Scrambled(acc, SECRET[128..192]), 0) else Position(acc, s.stripes + 1)
  {
    hide Accumulated, Scrambled, FinalizeLong;
    assert SECRET[128..] == SECRET[128..192];
  }

  /** Stripe number `n` meets the secret from byte 8 * (n % 16) on, and every sixteenth is followed by a scramble
      with the last 64 bytes of the secret. */
  lemma NthStripe(short: bytes -> bv64, data: bytes, n: nat)
    requires |data| >= 64 * n + 64
    ensures var k := Xxh3Kernel(short);
      var before := Consume(k, SECRET, Start(k), data[..64 * n]).acc;
      var acc := Accumulated(before, data[64 * n..64 * n + 64], SECRET[8 * (n % 16)..8 * (n % 16) + 64]);
      Consume(k, SECRET, Start(k), data[..64 * (n + 1)]) ==
        if n % 16 == 15 then Position(Scrambled(acc, SECRET[128..192]), 0) else Position(acc, n % 16 + 1)
  {
    hide Consume, Accumulated, Scrambled, FinalizeLong, Step;
    var k := Xxh3Kernel(short);
    StripesCounted(k, data, n);
    OneMore(k, data, n);
    StepIs(short, Consume(k, SECRET, Start(k), data[..64 * n]), data[64 * n..64 * n + 64]);
  }

  /** The whole hash: stripes up to the one that holds the last byte, the last 64 bytes against the secret from byte
      121 on, and the ending. Shorter inputs go to another family of functions. */
  lemma WholeHash(short: bytes -> bv64, data: bytes)
    ensures var k := Xxh3Kernel(short);
      |data| <= 240 ==> Xxh3(k, SECRET, data) == short(data)
    ensures |data| > 240 ==>
      var k := Xxh3Kernel(short);
      var acc := Consume(k, SECRET, Start(k), data[..64 * ((|data| - 1) / 64)]).acc;
      Xxh3(k, SECRET, data) == Ending(Accumulated(acc, data[|data| - 64..], SECRET[121..185]), |data|)
  {
    hide Consume, Accumulated, Ending, FinalizeLong;
    if |data| > 240 {
      var k := Xxh3Kernel(short);
      var acc := Consume(k, SECRET, Start(k), data[..64 * ((|data| - 1) / 64)]).acc;
      EndingIs(Accumulated(acc, data[|data| - 64..], SECRET[121..185]), |data|);
    }
  }

  /** The accumulators before the first stripe. */
  lemma FirstAccumulators(short: bytes -> bv64)
    ensures Consume(Xxh3Kernel(short), SECRET, Start(Xxh3Kernel(short)), []) ==
      Position([0xC2B2AE3D, 0x9E3779B185EBCA87, 0xC2B2AE3D27D4EB4F, 0x165667B19E3779F9,
                0x85EBCA77C2B2AE63, 0x85EBCA77, 0x27D4EB2F165667C5, 0x9E3779B1], 0)
  {
  }
}
