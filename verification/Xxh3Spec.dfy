/** The XXH3 64-bit hash of long inputs, as a function of the whole input. The accumulate and scramble
    steps are parameters, as they are function pointers in the source; Xxh3Kernels supplies them. */
module Xxh3Spec {
  import opened Bytes

  const STRIPE_LEN: nat := 64
  const INTERNALBUFFER_SIZE: nat := 256
  const MIDSIZE_MAX: nat := 240
  const SECRET_SIZE: nat := 192
  const SECRET_LIMIT: nat := 128
  const STRIPES_PER_BLOCK: nat := 16

  /** `accumulate` folds one stripe of input and 64 bytes of secret into the accumulators, `scramble`
      ends a block, `finish` merges accumulators and length, `short` hashes inputs of up to 240 bytes. */
  datatype Kernel<!A> = Kernel(
    init: A,
    accumulate: (A, bytes, bytes) -> A,
    scramble: (A, bytes) -> A,
    finish: (A, nat) -> bv64,
    short: bytes -> bv64)

  type Secret = s: bytes | |s| == SECRET_SIZE witness seq(192, _ => 0)

  type StripeIndex = n: nat | n < 16 witness 0

  /** Accumulators, and how many stripes of the current block went into them. */
  datatype Position<+A> = Position(acc: A, stripes: StripeIndex)

  /** One more stripe. */
  function Step<A>(k: Kernel<A>, secret: Secret, s: Position<A>, stripe: bytes): Position<A> {
    var acc := k.accumulate(s.acc, stripe, secret[s.stripes * 8..s.stripes * 8 + 64]);
    if s.stripes == 15 then Position(k.scramble(acc, secret[128..]), 0)
    else Position(acc, s.stripes + 1)
  }

  /** All whole stripes of `data`, one after the other. */
  function Consume<A>(k: Kernel<A>, secret: Secret, s: Position<A>, data: bytes): Position<A>
    decreases |data|
  {
    if |data| < 64 then s else Consume(k, secret, Step(k, secret, s, data[..64]), data[64..])
  }

  function Start<A>(k: Kernel<A>): Position<A> {
    Position(k.init, 0)
  }

  /** The accumulators of a long input: every stripe that does not contain the last byte, then the last 64
      bytes against another part of the secret. */
  function LongAcc<A>(k: Kernel<A>, secret: Secret, data: bytes): A
    requires |data| > 64
  {
    var n := (|data| - 1) / 64;
    k.accumulate(Consume(k, secret, Start(k), data[..64 * n]).acc, data[|data| - 64..], secret[121..185])
  }

  function Xxh3<A>(k: Kernel<A>, secret: Secret, data: bytes): bv64 {
    if |data| <= MIDSIZE_MAX then k.short(data)
    else k.finish(LongAcc(k, secret, data), |data|)
  }

  /** Zero marks a file without a checksum, so a digest of zero is replaced. */
  function NonZero(h: bv64): bv64 {
    if h == 0 then 1 else h
  }

  lemma {:induction false} ConsumeAppend<A>(k: Kernel<A>, secret: Secret, s: Position<A>, a: bytes, n: nat, b: bytes)
    requires |a| == 64 * n
    ensures Consume(k, secret, s, a + b) == Consume(k, secret, Consume(k, secret, s, a), b)
    decreases n
  {
    if n == 0 {
      assert a + b == b;
    } else {
      assert (a + b)[..64] == a[..64];
      assert (a + b)[64..] == a[64..] + b;
      ConsumeAppend(k, secret, Step(k, secret, s, a[..64]), a[64..], n - 1, b);
    }
  }

  /** Consecutive stripes within one block, without the scramble at its end. */
  function AccumulateStripes<A>(k: Kernel<A>, secret: Secret, acc: A, from: nat, data: bytes, n: nat): A
    requires |data| >= 64 * n && from + n <= 16
    decreases n
  {
    if n == 0 then acc
    else
      AccumulateStripes(k, secret, k.accumulate(acc, data[..64], secret[from * 8..from * 8 + 64]),
                        from + 1, data[64..], n - 1)
  }

  lemma OneStripe<A>(k: Kernel<A>, secret: Secret, s: Position<A>, data: bytes)
    requires |data| >= 64
    ensures Consume(k, secret, s, data) == Consume(k, secret, Step(k, secret, s, data[..64]), data[64..])
  {
  }

  lemma {:induction false} ConsumeWithinBlock<A>(k: Kernel<A>, secret: Secret, acc: A, from: nat, data: bytes, n: nat)
    requires |data| == 64 * n && from + n <= 16 && from < 16
    ensures Consume(k, secret, Position(acc, from), data) ==
      var a := AccumulateStripes(k, secret, acc, from, data, n);
      if from + n == 16 then Position(k.scramble(a, secret[128..]), 0) else Position(a, from + n)
    decreases n
  {
    hide Consume;
    if n == 0 {
      assert Consume(k, secret, Position(acc, from), data) == Position(acc, from) by {
        NoStripe(k, secret, Position(acc, from), data);
      }
    } else {
      var acc' := k.accumulate(acc, data[..64], secret[from * 8..from * 8 + 64]);
      OneStripe(k, secret, Position(acc, from), data);
      if from == 15 {
        NoStripe(k, secret, Position(k.scramble(acc', secret[128..]), 0), data[64..]);
        assert AccumulateStripes(k, secret, acc', 16, data[64..], 0) == acc';
      } else {
        ConsumeWithinBlock(k, secret, acc', from + 1, data[64..], n - 1);
      }
    }
  }

  lemma NoStripe<A>(k: Kernel<A>, secret: Secret, s: Position<A>, data: bytes)
    requires |data| < 64
    ensures Consume(k, secret, s, data) == s
  {
  }

  lemma {:induction false} AccumulateSnoc<A>(k: Kernel<A>, secret: Secret, acc: A, from: nat, data: bytes, n: nat)
    requires |data| >= 64 * (n + 1) && from + n + 1 <= 16
    ensures AccumulateStripes(k, secret, acc, from, data, n + 1) ==
      k.accumulate(AccumulateStripes(k, secret, acc, from, data, n), data[64 * n..64 * n + 64],
                   secret[(from + n) * 8..(from + n) * 8 + 64])
    decreases n
  {
    if n == 0 {
      assert AccumulateStripes(k, secret, acc, from, data, 0) == acc;
    } else {
      var acc' := k.accumulate(acc, data[..64], secret[from * 8..from * 8 + 64]);
      AccumulateSnoc(k, secret, acc', from + 1, data[64..], n - 1);
      assert data[64..][64 * (n - 1)..64 * (n - 1) + 64] == data[64 * n..64 * n + 64];
    }
  }

  lemma {:induction false} AccumulatePrefix<A>(k: Kernel<A>, secret: Secret, acc: A, from: nat, data: bytes, n: nat)
    requires |data| >= 64 * n && from + n <= 16
    ensures AccumulateStripes(k, secret, acc, from, data, n)
         == AccumulateStripes(k, secret, acc, from, data[..64 * n], n)
    decreases n
  {
    if n == 0 {
    } else {
      assert data[..64 * n][..64] == data[..64];
      assert data[..64 * n][64..] == data[64..][..64 * (n - 1)];
      AccumulatePrefix(k, secret, k.accumulate(acc, data[..64], secret[from * 8..from * 8 + 64]),
                       from + 1, data[64..], n - 1);
    }
  }

  /** A stretch of stripes that stays in one block, read off the front of a longer input. */
  lemma ConsumeStretch<A>(k: Kernel<A>, secret: Secret, s: Position<A>, data: bytes, n: nat)
    requires |data| >= 64 * n && s.stripes + n <= 16
    ensures var a := AccumulateStripes(k, secret, s.acc, s.stripes, data, n);
      Consume(k, secret, s, data[..64 * n]) ==
        if s.stripes + n == 16 then Position(k.scramble(a, secret[128..]), 0) else Position(a, s.stripes + n)
  {
    AccumulatePrefix(k, secret, s.acc, s.stripes, data, n);
    ConsumeWithinBlock(k, secret, s.acc, s.stripes, data[..64 * n], n);
  }

  lemma ConsumeMore<A>(k: Kernel<A>, secret: Secret, s: Position<A>, data: bytes, m: nat, n: nat)
    requires |data| >= 64 * (m + n)
    ensures Consume(k, secret, s, data[..64 * (m + n)])
         == Consume(k, secret, Consume(k, secret, s, data[..64 * m]), data[64 * m..][..64 * n])
  {
    assert data[..64 * (m + n)] == data[..64 * m] + data[64 * m..][..64 * n];
    ConsumeAppend(k, secret, s, data[..64 * m], m, data[64 * m..][..64 * n]);
  }
}
