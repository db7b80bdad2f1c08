/** Bytes, little-endian integers and the result type shared by every layer of the model. */
module Bytes {

  newtype byte = x: int | 0 <= x < 256

  type bytes = seq<byte>

  datatype Option<+T> = None | Some(value: T)

  /** What the source reports by throwing. */
  datatype Error =
    | UnexpectedEndOfFile
    | BlockTooLarge
    | TruncatedBlock
    | DecompressionError
    | ReadFailure
    | CorruptedBlock
    | UnknownHeader
    | MalformedHeader
    | DepthExceeded
    | LengthLimit
    | MissingAttributeName
    | PayloadBeforeFlush
    | ZeroDepthLimit
    | UnknownFormat
    | ForeignFormat
    | NewerFormat
    | UnknownCompression
    | EndianMismatch
    | MissingChecksum
    | ChecksumMismatch

  datatype Result<+T> = Ok(value: T) | Err(error: Error) {
    predicate IsFailure() {
      Err?
    }

    function PropagateFailure<U>(): Result<U>
      requires Err?
    {
      Err(error)
    }

    function Extract(): T
      requires Ok?
    {
      value
    }
  }

  const TWO_31: nat := 0x8000_0000
  const TWO_32: nat := 0x1_0000_0000
  const TWO_64: nat := 0x1_0000_0000_0000_0000

  function Pow256(w: nat): (p: nat)
    ensures p > 0
  {
    if w == 0 then 1 else 256 * Pow256(w - 1)
  }

  lemma PowValues()
    ensures Pow256(0) == 1 && Pow256(1) == 256 && Pow256(2) == 65536
    ensures Pow256(4) == TWO_32 && Pow256(8) == TWO_64
  {
    assert Pow256(3) == 16777216;
    assert Pow256(5) == 256 * TWO_32;
    assert Pow256(6) == 65536 * TWO_32;
    assert Pow256(7) == 16777216 * TWO_32;
  }

  /** The `w` low-order bytes of `n`, least significant first: what copying an unsigned integer into a
      byte buffer leaves there on a little-endian host. */
  function LE(n: nat, w: nat): (b: bytes)
    ensures |b| == w
    decreases w
  {
    if w == 0 then [] else [(n % 256) as byte] + LE(n / 256, w - 1)
  }

  function FromLE(b: bytes): nat {
    if b == [] then 0 else b[0] as nat + 256 * FromLE(b[1..])
  }

  lemma {:induction false} FromLEOfLE(n: nat, w: nat)
    requires n < Pow256(w)
    ensures FromLE(LE(n, w)) == n
    decreases w
  {
    if w == 0 {
    } else {
      assert LE(n, w)[1..] == LE(n / 256, w - 1);
      FromLEOfLE(n / 256, w - 1);
    }
  }

  lemma {:induction false} LEOfFromLE(b: bytes)
    ensures FromLE(b) < Pow256(|b|)
    ensures LE(FromLE(b), |b|) == b
  {
    if b == [] {
    } else {
      LEOfFromLE(b[1..]);
      assert FromLE(b) % 256 == b[0] as nat;
      assert FromLE(b) / 256 == FromLE(b[1..]);
    }
  }

  lemma DivDiv(n: nat, p: nat)
    requires p > 0
    ensures 256 * p > 0 && n / (256 * p) == (n / 256) / p
  {
    var m := n / 256;
    var q, r := m / p, m % p;
    assert m == q * p + r;
    assert n == 256 * (q * p + r) + n % 256;
    assert (256 * p) * q == 256 * (q * p);
    QuotientIs(n, 256 * p, q);
  }

  lemma QuotientIs(n: nat, d: nat, q: nat)
    requires d * q <= n < d * q + d
    ensures d > 0 && n / d == q
  {
    var k := n / d;
    assert n == d * k + n % d;
    Scaled(k + 1, q, d);
    Scaled(q + 1, k, d);
  }

  lemma Scaled(a: int, b: int, d: nat)
    ensures a <= b ==> d * a <= d * b
  {
    if a <= b {
      assert d * b == d * a + d * (b - a);
    }
  }

  /** Byte `i` is the digit of weight 256 to the power `i`: the least significant byte comes first. */
  lemma {:induction false} LEDigit(n: nat, w: nat, i: nat)
    requires i < w
    ensures LE(n, w)[i] as nat == (n / Pow256(i)) % 256
    decreases i
  {
    if i > 0 {
      LEDigit(n / 256, w - 1, i - 1);
      DivDiv(n, Pow256(i - 1));
      assert LE(n, w)[i] == LE(n / 256, w - 1)[i - 1];
    }
  }

  /** Changing byte `i` changes the value by as many times 256 to the power `i`. */
  lemma {:induction false} FromLEWeight(b: bytes, i: nat, v: byte)
    requires i < |b|
    ensures FromLE(b[i := v]) - FromLE(b) == (v as int - b[i] as int) * Pow256(i)
    decreases i
  {
    if i == 0 {
      assert b[0 := v][1..] == b[1..];
    } else {
      assert b[i := v][1..] == b[1..][i - 1 := v];
      FromLEWeight(b[1..], i - 1, v);
      Rescaled(v as int - b[i] as int, Pow256(i - 1));
    }
  }

  lemma Rescaled(d: int, p: nat)
    ensures 256 * (d * p) == d * (256 * p)
  {
  }

  /** `n` as a 16-, 32- or 64-bit word in memory, least significant byte first. */
  function Word16(n: nat): bytes {
    [(n % 256) as byte, (n / 256 % 256) as byte]
  }

  function Word32(n: nat): bytes {
    [(n % 256) as byte, (n / 0x100 % 256) as byte, (n / 0x1_0000 % 256) as byte, (n / 0x100_0000 % 256) as byte]
  }

  function Word64(n: nat): bytes {
    [(n % 256) as byte, (n / 0x100 % 256) as byte, (n / 0x1_0000 % 256) as byte, (n / 0x100_0000 % 256) as byte,
     (n / 0x1_0000_0000 % 256) as byte, (n / 0x100_0000_0000 % 256) as byte,
     (n / 0x1_0000_0000_0000 % 256) as byte, (n / 0x100_0000_0000_0000 % 256) as byte]
  }

  lemma Powers()
    ensures Pow256(0) == 1 && Pow256(1) == 0x100 && Pow256(2) == 0x1_0000 && Pow256(3) == 0x100_0000
    ensures Pow256(4) == 0x1_0000_0000 && Pow256(5) == 0x100_0000_0000
    ensures Pow256(6) == 0x1_0000_0000_0000 && Pow256(7) == 0x100_0000_0000_0000
  {
    assert Pow256(1) == 256 * Pow256(0);
    assert Pow256(3) == 256 * Pow256(2);
    assert Pow256(5) == 256 * Pow256(4);
  }

  /** What is written for an integer of 1, 2, 4 or 8 bytes. */
  lemma WordBytes(n: nat)
    ensures LE(n, 1) == [(n % 256) as byte]
    ensures LE(n, 2) == Word16(n) && LE(n, 4) == Word32(n) && LE(n, 8) == Word64(n)
  {
    hide LE, Pow256;
    Powers();
    forall w, i: nat | w <= 8 && i < w ensures LE(n, w)[i] as nat == (n / Pow256(i)) % 256 {
      LEDigit(n, w, i);
    }
    assert LE(n, 1) == [(n % 256) as byte];
    assert LE(n, 2) == Word16(n);
    assert LE(n, 4) == Word32(n);
    assert LE(n, 8) == Word64(n);
  }

  /** `src` copied over `dst` at offset `at`. */
  function Overlay(dst: bytes, at: nat, src: bytes): (r: bytes)
    requires at + |src| <= |dst|
    ensures |r| == |dst|
  {
    dst[..at] + src + dst[at + |src|..]
  }

  /** memcpy into an array. */
  method CopyIn(dst: array<byte>, at: nat, src: bytes)
    requires at + |src| <= dst.Length
    modifies dst
    ensures dst[..] == Overlay(old(dst[..]), at, src)
  {
    forall i | 0 <= i < |src| {
      dst[at + i] := src[i];
    }
  }

  function Concat<T>(ss: seq<seq<T>>): seq<T> {
    if ss == [] then [] else ss[0] + Concat(ss[1..])
  }

  lemma {:induction false} ConcatAppend<T>(a: seq<seq<T>>, b: seq<seq<T>>)
    ensures Concat(a + b) == Concat(a) + Concat(b)
  {
    if a == [] {
      assert a + b == b;
    } else {
      assert (a + b)[1..] == a[1..] + b;
      ConcatAppend(a[1..], b);
    }
  }

  lemma ConcatSnoc<T>(a: seq<seq<T>>, x: seq<T>)
    ensures Concat(a + [x]) == Concat(a) + x
  {
    ConcatAppend(a, [x]);
    assert Concat([x]) == x + Concat<T>([]);
  }
}
