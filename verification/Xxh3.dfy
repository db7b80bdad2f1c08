/** The XXH3 code itself: the one-shot loop and the streaming state, proved to compute the same hash. */
module Xxh3 {
  import opened Bytes
  import opened Xxh3Spec

  /** XXH3_accumulate: consecutive stripes of one block. */
  method Accumulate<A>(k: Kernel<A>, secret: Secret, acc0: A, input: bytes, from: nat, nbStripes: nat)
    returns (acc: A)
    requires |input| >= 64 * nbStripes && from + nbStripes <= STRIPES_PER_BLOCK
    ensures acc == AccumulateStripes(k, secret, acc0, from, input, nbStripes)
  {
    acc := acc0;
    var n := 0;
    while n < nbStripes
      invariant n <= nbStripes
      invariant acc == AccumulateStripes(k, secret, acc0, from, input, n)
    {
      AccumulateSnoc(k, secret, acc0, from, input, n);
      acc := k.accumulate(acc, input[n * 64..n * 64 + 64], secret[(from + n) * 8..(from + n) * 8 + 64]);
      n := n + 1;
    }
  }

  /** XXH3_hashLong_internal_loop. */
  method HashLongInternalLoop<A>(k: Kernel<A>, secret: Secret, input: bytes) returns (acc: A)
    requires |input| > STRIPE_LEN
    ensures acc == LongAcc(k, secret, input)
  {
    hide Consume, AccumulateStripes;
    NoStripe(k, secret, Start(k), input[..0]);
    acc := k.init;
    var nbBlocks := (|input| - 1) / 1024;
    var n := 0;
    while n < nbBlocks
      invariant n <= nbBlocks
      invariant Consume(k, secret, Start(k), input[..64 * (16 * n)]) == Position(acc, 0)
    {
      ConsumeStretch(k, secret, Position(acc, 0), input[1024 * n..], 16);
      ConsumeMore(k, secret, Start(k), input, 16 * n, 16);
      acc := Accumulate(k, secret, acc, input[1024 * n..], 0, 16);
      acc := k.scramble(acc, secret[SECRET_SIZE - STRIPE_LEN..]);
      n := n + 1;
    }
    var nbStripes := (|input| - 1 - 1024 * nbBlocks) / 64;
    ConsumeStretch(k, secret, Position(acc, 0), input[1024 * nbBlocks..], nbStripes);
    ConsumeMore(k, secret, Start(k), input, 16 * nbBlocks, nbStripes);
    assert 16 * nbBlocks + nbStripes == (|input| - 1) / 64;
    acc := Accumulate(k, secret, acc, input[1024 * nbBlocks..], 0, nbStripes);
    acc := k.accumulate(acc, input[|input| - 64..], secret[SECRET_SIZE - 64 - 7..SECRET_SIZE - 7]);
  }

  /** XXH3_64bits. */
  method Hash64<A>(k: Kernel<A>, secret: Secret, input: bytes) returns (h: bv64)
    ensures h == Xxh3(k, secret, input)
  {
    if |input| <= MIDSIZE_MAX {
      h := k.short(input);
    } else {
      var acc := HashLongInternalLoop(k, secret, input);
      h := k.finish(acc, |input|);
    }
  }

  /** XXH3_consumeStripes: any number of stripes, across block boundaries. */
  method ConsumeStripes<A>(k: Kernel<A>, secret: Secret, acc0: A, soFar0: StripeIndex, input: bytes, nbStripes0: nat)
    returns (acc: A, soFar: StripeIndex)
    requires |input| >= 64 * nbStripes0
    ensures Position(acc, soFar) == Consume(k, secret, Position(acc0, soFar0), input[..64 * nbStripes0])
  {
    acc, soFar := acc0, soFar0;
    var nbStripes, at: nat, from: StripeIndex := nbStripes0, 0, soFar0;
    if nbStripes >= 16 - soFar {
      var nbStripesThisIter := 16 - soFar;
      ConsumeStretch(k, secret, Position(acc0, soFar0), input, nbStripesThisIter);
      acc := Accumulate(k, secret, acc, input, from, nbStripesThisIter);
      acc := k.scramble(acc, secret[SECRET_LIMIT..]);
      at, nbStripes, from := nbStripesThisIter, nbStripes - nbStripesThisIter, 0;
      while nbStripes >= 16
        invariant 0 <= nbStripes && at + nbStripes == nbStripes0
        invariant Consume(k, secret, Position(acc0, soFar0), input[..64 * at]) == Position(acc, 0)
      {
        ConsumeStretch(k, secret, Position(acc, 0), input[64 * at..], 16);
        ConsumeMore(k, secret, Position(acc0, soFar0), input, at, 16);
        acc := Accumulate(k, secret, acc, input[64 * at..], from, 16);
        acc := k.scramble(acc, secret[SECRET_LIMIT..]);
        at, nbStripes := at + 16, nbStripes - 16;
      }
      soFar := 0;
    }
    ghost var acc1 := acc;
    if nbStripes > 0 {
      acc := Accumulate(k, secret, acc, input[64 * at..], from, nbStripes);
      soFar := soFar + nbStripes;
    }
    assert nbStripes == 0 ==> Consume(k, secret, Position(acc, from), input[64 * at..][..0]) == Position(acc, from);
    LastStretch(k, secret, Position(acc0, soFar0), Position(acc1, from), input, at, nbStripes);
  }

  lemma LastStretch<A>(k: Kernel<A>, secret: Secret, s0: Position<A>, s1: Position<A>, input: bytes, at: nat, n: nat)
    requires |input| >= 64 * (at + n) && s1.stripes + n < 16
    requires Consume(k, secret, s0, input[..64 * at]) == s1
    ensures Consume(k, secret, s0, input[..64 * (at + n)])
         == Position(AccumulateStripes(k, secret, s1.acc, s1.stripes, input[64 * at..], n), s1.stripes + n)
  {
    ConsumeMore(k, secret, s0, input, at, n);
    ConsumeStretch(k, secret, s1, input[64 * at..], n);
  }

  /** A length as a 64-bit counter. */
  function Mod64(n: nat): nat {
    n % TWO_64
  }

  lemma TotalModulo(a: nat, b: nat)
    ensures Mod64(Mod64(a) + b) == Mod64(a + b)
  {
    var q, r := a / TWO_64, a % TWO_64;
    assert a == TWO_64 * q + r;
    ModShift(r + b, q);
  }

  lemma {:induction false} ModShift(x: nat, q: nat)
    ensures (TWO_64 * q + x) % TWO_64 == x % TWO_64
    decreases q
  {
    if q == 0 {
    } else {
      ModShift(x, q - 1);
      assert TWO_64 * q + x == (TWO_64 * (q - 1) + x) + TWO_64;
    }
  }

  /** What the streaming state says about the bytes it has absorbed: a multiple of 64 of them is folded
      into the accumulators, the rest is buffered. */
  ghost predicate Represents<A>(k: Kernel<A>, secret: Secret, pos: Position<A>, buffer: bytes, buffered: nat,
                                folded: bytes, absorbed: bytes) {
    && |buffer| == INTERNALBUFFER_SIZE
    && buffered <= INTERNALBUFFER_SIZE
    && |folded| % 64 == 0
    && absorbed == folded + buffer[..buffered]
    && (absorbed != [] ==> buffered > 0)
    && (folded != [] ==> |absorbed| > INTERNALBUFFER_SIZE)
    && pos == Consume(k, secret, Start(k), folded)
    && Tail(buffer, buffered, folded)
  }

  /** Unless overwritten since, the end of the buffer still holds the last bytes that were folded in. */
  ghost predicate Tail(buffer: bytes, buffered: nat, folded: bytes)
    requires |buffer| == INTERNALBUFFER_SIZE
  {
    |folded| >= 64 ==>
      forall i :: 192 <= i < 256 && buffered <= i ==> buffer[i] == folded[|folded| - 256 + i]
  }

  lemma BufferMore<A>(k: Kernel<A>, secret: Secret, pos: Position<A>, buffer: bytes, buffered: nat,
                      folded: bytes, absorbed: bytes, input: bytes)
    requires Represents(k, secret, pos, buffer, buffered, folded, absorbed)
    requires buffered + |input| <= INTERNALBUFFER_SIZE
    ensures Represents(k, secret, pos, Overlay(buffer, buffered, input), buffered + |input|, folded, absorbed + input)
  {
    var b := Overlay(buffer, buffered, input);
    assert b[..buffered + |input|] == buffer[..buffered] + input;
    assert folded + (buffer[..buffered] + input) == absorbed + input;
  }

  lemma FoldMore<A>(k: Kernel<A>, secret: Secret, folded: bytes, chunk: bytes)
    requires |folded| % 64 == 0
    ensures Consume(k, secret, Start(k), folded + chunk)
         == Consume(k, secret, Consume(k, secret, Start(k), folded), chunk)
  {
    ConsumeAppend(k, secret, Start(k), folded, |folded| / 64, chunk);
  }

  lemma FullBuffer(buffer: bytes, buffered: nat, input: bytes, folded: bytes)
    requires |buffer| == INTERNALBUFFER_SIZE == buffered + |input|
    ensures folded + Overlay(buffer, buffered, input) == (folded + buffer[..buffered]) + input
  {
  }

  lemma TailOfBuffer(folded: bytes, buffer: bytes)
    requires |buffer| == INTERNALBUFFER_SIZE
    ensures Tail(buffer, 0, folded + buffer)
  {
  }

  lemma TailCopied(folded: bytes, chunk: bytes, buffer: bytes)
    requires |buffer| == INTERNALBUFFER_SIZE && |chunk| >= 64
    ensures Tail(Overlay(buffer, 192, chunk[|chunk| - 64..]), 0, folded + chunk)
  {
    var b, all := Overlay(buffer, 192, chunk[|chunk| - 64..]), folded + chunk;
    forall i | 192 <= i < 256 ensures b[i] == all[|all| - 256 + i] {
      assert b[i] == chunk[|chunk| - 64..][i - 192];
    }
  }

  lemma Split(before: bytes, input: bytes, at: nat)
    requires at <= |input|
    ensures (before + input[..at]) + input[at..] == before + input
  {
  }

  lemma BufferRest<A>(k: Kernel<A>, secret: Secret, pos: Position<A>, buffer: bytes, folded: bytes, rest: bytes)
    requires |buffer| == INTERNALBUFFER_SIZE && 0 < |rest| <= INTERNALBUFFER_SIZE && |folded| % 64 == 0
    requires folded != [] ==> |folded| + |rest| > INTERNALBUFFER_SIZE
    requires pos == Consume(k, secret, Start(k), folded) && Tail(buffer, 0, folded)
    ensures Represents(k, secret, pos, Overlay(buffer, 0, rest), |rest|, folded, folded + rest)
  {
    var b := Overlay(buffer, 0, rest);
    assert b[..|rest|] == rest;
  }

  /** XXH3_state_t with XXH3_update and XXH3_digest. */
  class State<!A> {
    const k: Kernel<A>
    const secret: Secret
    const buffer: array<byte>
    var acc: A
    var bufferedSize: nat
    var nbStripesSoFar: StripeIndex
    var totalLen: nat
    ghost var folded: bytes
    ghost var absorbed: bytes

    ghost predicate Valid()
      reads this, buffer
    {
      && buffer.Length == INTERNALBUFFER_SIZE
      && Represents(k, secret, Position(acc, nbStripesSoFar), buffer[..], bufferedSize, folded, absorbed)
      && totalLen == Mod64(|absorbed|)
    }

    /** XXH3_64bits_reset */
    constructor (k: Kernel<A>, secret: Secret)
      ensures Valid() && fresh(buffer) && absorbed == []
      ensures this.k == k && this.secret == secret
    {
      this.k, this.secret := k, secret;
      buffer := new byte[INTERNALBUFFER_SIZE];
      acc, bufferedSize, nbStripesSoFar, totalLen := k.init, 0, 0, 0;
      folded, absorbed := [], [];
    }

    /** Everything absorbed is folded in. */
    ghost predicate Aligned()
      reads this, buffer
    {
      && buffer.Length == INTERNALBUFFER_SIZE
      && |folded| % 64 == 0
      && Position(acc, nbStripesSoFar) == Consume(k, secret, Start(k), folded)
      && Tail(buffer[..], 0, folded)
    }

    /** Completes a partially filled buffer from the input and folds it in. */
    method CompleteBuffer(input: bytes) returns (at: nat)
      requires Valid() && |input| > INTERNALBUFFER_SIZE - bufferedSize
      modifies this, buffer
      ensures Aligned() && bufferedSize == 0
      ensures at < |input| && folded == old(absorbed) + input[..at]
      ensures at == if old(bufferedSize) > 0 then INTERNALBUFFER_SIZE - old(bufferedSize) else 0
      ensures totalLen == old(totalLen) && absorbed == old(absorbed)
    {
      hide Consume, Tail, Overlay;
      at := 0;
      if bufferedSize > 0 {
        at := INTERNALBUFFER_SIZE - bufferedSize;
        FullBuffer(buffer[..], bufferedSize, input[..at], folded);
        CopyIn(buffer, bufferedSize, input[..at]);
        FoldMore(k, secret, folded, buffer[..]);
        TailOfBuffer(folded, buffer[..]);
        assert buffer[..][..256] == buffer[..];
        acc, nbStripesSoFar := ConsumeStripes(k, secret, acc, nbStripesSoFar, buffer[..], 4);
        folded := folded + buffer[..];
        bufferedSize := 0;
      }
    }

    /** Folds in whole stripes straight from the input, and keeps the last one at the end of the buffer. */
    method ConsumeDirect(input: bytes, at0: nat) returns (at: nat)
      requires Aligned() && at0 + INTERNALBUFFER_SIZE < |input|
      modifies this, buffer
      ensures Aligned() && bufferedSize == old(bufferedSize)
      ensures at0 <= at < |input| <= at + 64
      ensures folded == old(folded) + input[at0..at]
      ensures totalLen == old(totalLen) && absorbed == old(absorbed)
    {
      var nbStripes := (|input| - 1 - at0) / 64;
      at := at0 + 64 * nbStripes;
      ghost var chunk := input[at0..][..64 * nbStripes];
      assert chunk == input[at0..at];
      FoldMore(k, secret, folded, chunk);
      acc, nbStripesSoFar := ConsumeStripes(k, secret, acc, nbStripesSoFar, input[at0..], nbStripes);
      assert input[at - 64..at] == chunk[|chunk| - 64..];
      TailCopied(folded, chunk, buffer[..]);
      CopyIn(buffer, INTERNALBUFFER_SIZE - 64, input[at - 64..at]);
      folded := folded + chunk;
    }

    /** Everything fits in the buffer. */
    method Buffer(input: bytes)
      requires Valid() && |input| <= INTERNALBUFFER_SIZE - bufferedSize
      modifies this, buffer
      ensures Represents(k, secret, Position(acc, nbStripesSoFar), buffer[..], bufferedSize, folded, absorbed + input)
      ensures totalLen == old(totalLen) && absorbed == old(absorbed)
    {
      hide Consume, Tail, Overlay, Mod64;
      BufferMore(k, secret, Position(acc, nbStripesSoFar), buffer[..], bufferedSize, folded, absorbed, input);
      CopyIn(buffer, bufferedSize, input);
      bufferedSize := bufferedSize + |input|;
    }

    /** More than the buffer takes: whole stripes are folded in, the rest is buffered. */
    method Fold(input: bytes)
      requires Valid() && |input| > INTERNALBUFFER_SIZE - bufferedSize
      modifies this, buffer
      ensures Represents(k, secret, Position(acc, nbStripesSoFar), buffer[..], bufferedSize, folded, absorbed + input)
      ensures totalLen == old(totalLen) && absorbed == old(absorbed)
    {
      hide Consume, Tail, Overlay, Mod64, Represents;
      ghost var before := absorbed;
      BufferedLess();
      var at := CompleteBuffer(input);
      if |input| - at > INTERNALBUFFER_SIZE {
        at := ConsumeDirect(input, at);
      }
      assert folded == before + input[..at];
      BufferRest(k, secret, Position(acc, nbStripesSoFar), buffer[..], folded, input[at..]);
      Split(before, input, at);
      CopyIn(buffer, 0, input[at..]);
      bufferedSize := |input| - at;
    }

    lemma BufferedLess()
      requires Valid()
      ensures bufferedSize <= INTERNALBUFFER_SIZE && bufferedSize <= |absorbed|
      ensures folded == [] ==> |absorbed| <= INTERNALBUFFER_SIZE
    {
    }

    /** XXH3_update */
    method Update(input: bytes)
      requires Valid()
      modifies this, buffer
      ensures Valid() && absorbed == old(absorbed) + input
    {
      hide Represents, Mod64;
      TotalModulo(|absorbed|, |input|);
      BufferedLess();
      if |input| <= INTERNALBUFFER_SIZE - bufferedSize {
        Buffer(input);
      } else {
        Fold(input);
      }
      totalLen := Mod64(totalLen + |input|);
      absorbed := absorbed + input;
    }

    /** XXH3_64bits_digest; the state is only read. The length is a 64-bit counter, as is that of a
        one-shot call. */
    method Digest() returns (h: bv64)
      requires Valid()
      ensures |absorbed| < TWO_64 ==> h == Xxh3(k, secret, absorbed)
    {
      ModBounds(|absorbed|);
      if totalLen > MIDSIZE_MAX {
        var a := DigestLong();
        h := k.finish(a, totalLen);
      } else {
        h := k.short(buffer[..totalLen]);
        assert |absorbed| < TWO_64 ==> absorbed == buffer[..totalLen];
      }
    }

    /** XXH3_digest_long */
    method DigestLong() returns (a: A)
      requires Valid() && |absorbed| > MIDSIZE_MAX
      ensures a == LongAcc(k, secret, absorbed)
    {
      var lastStripe: bytes;
      a := acc;
      if bufferedSize >= 64 {
        var nbStripes := (bufferedSize - 1) / 64;
        var soFar: StripeIndex;
        a, soFar := ConsumeStripes(k, secret, a, nbStripesSoFar, buffer[..], nbStripes);
        lastStripe := buffer[bufferedSize - 64..bufferedSize];
        LongFromBuffer(k, secret, Position(acc, nbStripesSoFar), buffer[..], bufferedSize, folded, absorbed);
      } else {
        var catchupSize := 64 - bufferedSize;
        lastStripe := buffer[buffer.Length - catchupSize..] + buffer[..bufferedSize];
        LongFromTail(k, secret, Position(acc, nbStripesSoFar), buffer[..], bufferedSize, folded, absorbed);
        assert lastStripe == buffer[..][192 + bufferedSize..] + buffer[..][..bufferedSize];
      }
      a := k.accumulate(a, lastStripe, secret[SECRET_LIMIT - 7..SECRET_LIMIT - 7 + 64]);
    }
  }

  lemma ModBounds(n: nat)
    ensures Mod64(n) <= n && (n < TWO_64 ==> Mod64(n) == n)
  {
  }

  lemma LongFromBuffer<A>(k: Kernel<A>, secret: Secret, pos: Position<A>, buffer: bytes, buffered: nat,
                          folded: bytes, absorbed: bytes)
    requires Represents(k, secret, pos, buffer, buffered, folded, absorbed)
    requires buffered >= 64 && |absorbed| > 64
    ensures var n := (buffered - 1) / 64;
      LongAcc(k, secret, absorbed) ==
        k.accumulate(Consume(k, secret, pos, buffer[..64 * n]).acc, buffer[buffered - 64..buffered], secret[121..185])
  {
    var n, m := (buffered - 1) / 64, |folded| / 64;
    FoldMore(k, secret, folded, buffer[..64 * n]);
    assert (|absorbed| - 1) / 64 == m + n;
    assert absorbed[..64 * (m + n)] == folded + buffer[..64 * n];
    assert absorbed[|absorbed| - 64..] == buffer[buffered - 64..buffered];
  }

  lemma LongFromTail<A>(k: Kernel<A>, secret: Secret, pos: Position<A>, buffer: bytes, buffered: nat,
                        folded: bytes, absorbed: bytes)
    requires Represents(k, secret, pos, buffer, buffered, folded, absorbed)
    requires buffered < 64 < |absorbed|
    ensures LongAcc(k, secret, absorbed) ==
        k.accumulate(pos.acc, buffer[192 + buffered..] + buffer[..buffered], secret[121..185])
  {
    assert (|absorbed| - 1) / 64 == |folded| / 64;
    assert absorbed[..|folded|] == folded;
    var last := buffer[192 + buffered..] + buffer[..buffered];
    forall i | 0 <= i < 64 ensures absorbed[|absorbed| - 64..][i] == last[i] {
      if i < 64 - buffered {
        assert last[i] == buffer[192 + buffered + i];
      }
    }
    assert absorbed[|absorbed| - 64..] == last;
  }

  /** Any way of cutting the input into updates gives the one-shot hash of the whole. */
  method HashInPieces<A>(k: Kernel<A>, secret: Secret, pieces: seq<bytes>) returns (h: bv64)
    requires |Concat(pieces)| < TWO_64
    ensures h == Xxh3(k, secret, Concat(pieces))
  {
    var st := new State(k, secret);
    var i := 0;
    while i < |pieces|
      invariant i <= |pieces|
      invariant st.Valid() && fresh(st) && fresh(st.buffer) && st.k == k && st.secret == secret
      invariant st.absorbed == Concat(pieces[..i])
    {
      assert pieces[..i + 1] == pieces[..i] + [pieces[i]];
      ConcatSnoc(pieces[..i], pieces[i]);
      st.Update(pieces[i]);
      i := i + 1;
    }
    assert pieces[..i] == pieces;
    h := st.Digest();
  }
}
