/** What the block reader computes, as functions on the unread part of the current block and the unread
    part of the compressed stream, and why it undoes the block writer. */
module ReaderSpec {
  import opened Bytes
  import opened BlockSpec

  type Rest = b: bytes | |b| <= MAX_BLOCKSIZE witness []

  /** What is left of the current block, and of the stream behind it. */
  datatype Reader = Reader(cur: Rest, input: bytes)

  /** One frame off the front of the stream. */
  function NextBlock(c: Codec, input: bytes): Result<(Block, bytes)> {
    if |input| < 4 then Err(UnexpectedEndOfFile)
    else
      var zsize := FromLE(input[..4]);
      var zbytes := CompressedSize(zsize);
      if zbytes > MAX_ZBLOCKSIZE then Err(BlockTooLarge)
      else if |input| - 4 < zbytes then Err(TruncatedBlock)
      else
        match c.decompress(zsize, input[4..4 + zbytes])
        case None => Err(DecompressionError)
        case Some(b) => Ok((b, input[4 + zbytes..]))
  }

  lemma NextBlockShrinks(c: Codec, input: bytes)
    ensures NextBlock(c, input).Ok? ==> |NextBlock(c, input).value.1| < |input|
  {
  }

  function Load(c: Codec, r: Reader): Result<Reader> {
    if r.cur == [] then
      var nb :- NextBlock(c, r.input);
      Ok(Reader(nb.0, nb.1))
    else Ok(r)
  }

  function GetPodContiguous(r: Reader, n: nat): Result<(bytes, Reader)> {
    if |r.cur| < n then Err(CorruptedBlock)
    else Ok((r.cur[..n], Reader(r.cur[n..], r.input)))
  }

  function GetPod(c: Codec, r: Reader, n: nat): Result<(bytes, Reader)> {
    var r1 :- Load(c, r);
    GetPodContiguous(r1, n)
  }

  /** 32-bit addition. */
  function Add32(a: nat, b: nat): nat
    requires a < TWO_32 && b < TWO_32
  {
    if a + b < TWO_32 then a + b else a + b - TWO_32
  }

  /** The part of bulk reading that starts at a block boundary. `acct` is the 32-bit count of bytes that
      were stored already; it wraps around. */
  function GetDirect(c: Codec, input: bytes, acct: nat, out: bytes): Result<(bytes, Reader)>
    requires acct < TWO_32 && acct <= |out|
    decreases |input|
  {
    if |out| - acct >= MAX_BLOCKSIZE then
      var nb :- NextBlock(c, input);
      if |nb.0| != MAX_BLOCKSIZE then Err(CorruptedBlock)
      else GetDirect(c, nb.1, Add32(acct, MAX_BLOCKSIZE), Overlay(out, acct, nb.0))
    else if |out| - acct > 0 then
      var nb :- NextBlock(c, input);
      var rest := |out| - acct;
      if |nb.0| < rest then Err(CorruptedBlock)
      else Ok((Overlay(out, acct, nb.0[..rest]), Reader(nb.0[rest..], nb.1)))
    else Ok((out, Reader([], input)))
  }

  /** Bulk reading into a destination of the wanted length, as the code does it. */
  function GetDataInto(c: Codec, r: Reader, out: bytes): Result<(bytes, Reader)> {
    var len := |out|;
    if |r.cur| >= len then Ok((r.cur[..len], Reader(r.cur[len..], r.input)))
    else GetDirect(c, r.input, |r.cur|, Overlay(out, 0, r.cur))
  }

  // ---------- bulk reading without a 32-bit counter ----------

  function TakeBlocks(c: Codec, input: bytes, n: nat): Result<(bytes, Reader)>
    decreases n
  {
    if n >= MAX_BLOCKSIZE then
      var nb :- NextBlock(c, input);
      if |nb.0| != MAX_BLOCKSIZE then Err(CorruptedBlock)
      else
        var more :- TakeBlocks(c, nb.1, n - MAX_BLOCKSIZE);
        Ok((nb.0 + more.0, more.1))
    else if n > 0 then
      var nb :- NextBlock(c, input);
      if |nb.0| < n then Err(CorruptedBlock)
      else Ok((nb.0[..n], Reader(nb.0[n..], nb.1)))
    else Ok(([], Reader([], input)))
  }

  /** The next `len` bytes of the stream. */
  function GetData(c: Codec, r: Reader, len: nat): Result<(bytes, Reader)> {
    if |r.cur| >= len then Ok((r.cur[..len], Reader(r.cur[len..], r.input)))
    else
      var more :- TakeBlocks(c, r.input, len - |r.cur|);
      Ok((r.cur + more.0, more.1))
  }

  /** The bytes of `n` that fill whole blocks. */
  function WholeBlocks(n: nat): nat {
    if n < MAX_BLOCKSIZE then 0 else MAX_BLOCKSIZE + WholeBlocks(n - MAX_BLOCKSIZE)
  }

  lemma {:induction false} WholeBlocksValue(n: nat)
    ensures WholeBlocks(n) == 1048576 * (n / 1048576)
    ensures WholeBlocks(n) <= n
  {
    if n < MAX_BLOCKSIZE {
    } else {
      WholeBlocksValue(n - MAX_BLOCKSIZE);
    }
  }

  /** The largest value the byte counter has to hold while `len` bytes are read. */
  function PeakCount(cur: nat, len: nat): nat {
    if cur >= len then 0 else cur + WholeBlocks(len - cur)
  }

  lemma OverlayPrefix(out: bytes, at: nat, b: bytes)
    requires at + |b| <= |out|
    ensures Overlay(out, at, b)[..at + |b|] == out[..at] + b
  {
  }

  lemma {:induction false} DirectCounts(c: Codec, input: bytes, acct: nat, out: bytes)
    requires acct < TWO_32 && acct <= |out|
    requires acct + WholeBlocks(|out| - acct) < TWO_32
    ensures GetDirect(c, input, acct, out) ==
      match TakeBlocks(c, input, |out| - acct)
      case Err(e) => Err(e)
      case Ok(t) => Ok((out[..acct] + t.0, t.1))
    decreases |input|, 0
  {
    var n := |out| - acct;
    var nb := NextBlock(c, input);
    if n >= MAX_BLOCKSIZE {
      if nb.Ok? && |nb.value.0| == MAX_BLOCKSIZE {
        DirectCountsStep(c, nb.value.1, acct, out, nb.value.0);
      }
    } else if n > 0 {
      if nb.Ok? && |nb.value.0| >= n {
        OverlayPrefix(out, acct, nb.value.0[..n]);
        assert Overlay(out, acct, nb.value.0[..n])[..|out|] == Overlay(out, acct, nb.value.0[..n]);
      }
    } else {
      assert out == out[..acct] + [];
    }
  }

  lemma {:induction false} DirectCountsStep(c: Codec, input: bytes, acct: nat, out: bytes, b: bytes)
    requires acct + MAX_BLOCKSIZE < TWO_32 && |b| == MAX_BLOCKSIZE && acct + MAX_BLOCKSIZE <= |out|
    requires acct + MAX_BLOCKSIZE + WholeBlocks(|out| - acct - MAX_BLOCKSIZE) < TWO_32
    ensures GetDirect(c, input, acct + MAX_BLOCKSIZE, Overlay(out, acct, b)) ==
      match TakeBlocks(c, input, |out| - acct - MAX_BLOCKSIZE)
      case Err(e) => Err(e)
      case Ok(t) => Ok((out[..acct] + (b + t.0), t.1))
    decreases |input|, 1
  {
    DirectCounts(c, input, acct + MAX_BLOCKSIZE, Overlay(out, acct, b));
    OverlayPrefix(out, acct, b);
    var t := TakeBlocks(c, input, |out| - acct - MAX_BLOCKSIZE);
    if t.Ok? {
      Assoc(out[..acct], b, t.value.0);
    }
  }

  lemma {:induction false} DirectWraps(c: Codec, input: bytes, acct: nat, out: bytes)
    requires acct < TWO_32 && acct <= |out|
    requires acct + WholeBlocks(|out| - acct) >= TWO_32
    ensures GetDirect(c, input, acct, out).Err?
    decreases |input|
  {
    var n := |out| - acct;
    assert n >= MAX_BLOCKSIZE;
    WholeBlocksValue(n - MAX_BLOCKSIZE);
    WholeBlocksValue(n - MAX_BLOCKSIZE + TWO_32);
    var nb := NextBlock(c, input);
    if nb.Ok? && |nb.value.0| == MAX_BLOCKSIZE {
      var acct' := Add32(acct, MAX_BLOCKSIZE);
      DirectWraps(c, nb.value.1, acct', Overlay(out, acct, nb.value.0));
    }
  }

  /** The 32-bit counter is harmless exactly when its peak fits; otherwise no finite stream satisfies
      the request. */
  lemma GetDataExact(c: Codec, r: Reader, out: bytes)
    ensures PeakCount(|r.cur|, |out|) < TWO_32 ==> GetDataInto(c, r, out) == GetData(c, r, |out|)
    ensures PeakCount(|r.cur|, |out|) >= TWO_32 ==> GetDataInto(c, r, out).Err?
  {
    if |r.cur| < |out| {
      var o := Overlay(out, 0, r.cur);
      assert o[..|r.cur|] == r.cur;
      if PeakCount(|r.cur|, |out|) < TWO_32 {
        DirectCounts(c, r.input, |r.cur|, o);
      } else {
        DirectWraps(c, r.input, |r.cur|, o);
      }
    }
  }

  lemma PeakFits(cur: nat, len: nat)
    requires len < TWO_32
    ensures PeakCount(cur, len) < TWO_32
  {
    if cur < len {
      WholeBlocksValue(len - cur);
    }
  }

  // ---------- reading back what was written ----------

  /** The blocks still to come, the current one included, when `p` has been written to the current
      block and `items` follow. */
  function Out(p: bytes, items: seq<Item>): seq<bytes>
    requires ItemsOk(items)
  {
    Flush(WriteAll(Writer([], p), items)).blocks
  }

  /** A reader that has consumed everything up to the point where the writer had `p` in its block and
      was about to write `items`. */
  ghost predicate Synced(c: Codec, r: Reader, p: bytes, items: seq<Item>) {
    && |p| <= MAX_BLOCKSIZE
    && ItemsOk(items)
    && var bs := Out(p, items);
       if p == [] then r.cur == [] && r.input == Stream(c, bs)
       else && bs != []
            && bs[0] == p + r.cur
            && r.input == Stream(c, bs[1..])
  }

  function Next(p: bytes, it: Item): bytes
    requires ItemOk(it)
  {
    Write(Writer([], p), it).pending
  }

  function NextAll(p: bytes, items: seq<Item>): bytes
    requires ItemsOk(items)
  {
    WriteAll(Writer([], p), items).pending
  }

  lemma WriteFrame(bs: seq<bytes>, p: bytes, it: Item)
    requires ItemOk(it)
    ensures Write(Writer(bs, p), it) == Writer(bs + Write(Writer([], p), it).blocks, Next(p, it))
  {
    match it
    case Run(pods) =>
      RunEffect(Writer(bs, p), pods);
      RunEffect(Writer([], p), pods);
      assert bs + [] == bs;
      assert bs + ([] + [p]) == bs + [p];
    case Data(d) =>
      assert [] + Cut(p + d).0 == Cut(p + d).0;
  }

  lemma {:induction false} WriteAllFrame(bs: seq<bytes>, p: bytes, items: seq<Item>)
    requires ItemsOk(items)
    ensures WriteAll(Writer(bs, p), items)
         == Writer(bs + WriteAll(Writer([], p), items).blocks, NextAll(p, items))
    decreases |items|
  {
    if items == [] {
      assert bs + [] == bs;
    } else {
      var w := Write(Writer([], p), items[0]);
      WriteFrame(bs, p, items[0]);
      WriteAllFrame(bs + w.blocks, w.pending, items[1..]);
      WriteAllFrame(w.blocks, w.pending, items[1..]);
      var more := WriteAll(Writer([], w.pending), items[1..]).blocks;
      assert (bs + w.blocks) + more == bs + (w.blocks + more);
    }
  }

  lemma OutStep(p: bytes, it: Item, t: seq<Item>)
    requires ItemOk(it) && ItemsOk(t)
    ensures ItemsOk([it] + t)
    ensures Out(p, [it] + t) == Write(Writer([], p), it).blocks + Out(Next(p, it), t)
  {
    assert ([it] + t)[1..] == t;
    var w := Write(Writer([], p), it);
    WriteAllFrame(w.blocks, w.pending, t);
    var v := WriteAll(Writer([], w.pending), t);
    assert w.blocks + (v.blocks + [v.pending]) == (w.blocks + v.blocks) + [v.pending];
  }

  /** A block under way stays a prefix of the block that is eventually emitted. */
  lemma {:induction false} OutPrefix(p: bytes, items: seq<Item>)
    requires p != [] && |p| <= MAX_BLOCKSIZE && ItemsOk(items)
    ensures var bs := Out(p, items); bs != [] && p <= bs[0] && |bs[0]| <= MAX_BLOCKSIZE
    decreases |items|
  {
    if items == [] {
    } else {
      var it := items[0];
      var w := Write(Writer([], p), it);
      assert [it] + items[1..] == items;
      OutStep(p, it, items[1..]);
      WriteKeepsOk(Writer([], p), it);
      if w.blocks == [] {
        assert p <= w.pending by {
          match it
          case Run(pods) => RunEffect(Writer([], p), pods);
          case Data(d) =>
        }
        OutPrefix(w.pending, items[1..]);
        assert Out(p, items) == Out(w.pending, items[1..]);
      } else {
        assert p <= w.blocks[0] by {
          match it
          case Run(pods) => RunEffect(Writer([], p), pods);
          case Data(d) => CutHead(p, d);
        }
      }
    }
  }

  lemma CutHead(p: bytes, d: bytes)
    requires |p| <= MAX_BLOCKSIZE && Cut(p + d).0 != []
    ensures p <= Cut(p + d).0[0]
  {
    assert Cut(p + d).0[0] == (p + d)[..MAX_BLOCKSIZE];
  }

  lemma NextFrame(c: Codec, b: bytes, rest: bytes)
    requires Sound(c) && 1 <= |b| <= MAX_BLOCKSIZE
    ensures NextBlock(c, Frame(c, b) + rest) == Ok((b, rest))
  {
    var z := c.compress(b);
    var input := Frame(c, b) + rest;
    PowValues();
    FromLEOfLE(z.zsize, 4);
    assert input[..4] == LE(z.zsize, 4);
    assert input[4..4 + |z.payload|] == z.payload;
    assert input[4 + |z.payload|..] == rest;
  }

  /** A reader at the start of the block that begins with `p'`, having consumed nothing of it. */
  lemma EnterBlock(c: Codec, p': bytes, t: seq<Item>) returns (r1: Reader)
    requires Sound(c) && ItemsOk(t) && p' != [] && |p'| <= MAX_BLOCKSIZE
    ensures NextBlock(c, Stream(c, Out(p', t))) == Ok((r1.cur, r1.input))
    ensures p' <= r1.cur
    ensures Synced(c, Reader(r1.cur[|p'|..], r1.input), p', t)
  {
    OutPrefix(p', t);
    var bs := Out(p', t);
    NextFrame(c, bs[0], Stream(c, bs[1..]));
    r1 := Reader(bs[0], Stream(c, bs[1..]));
    assert bs[0] == p' + r1.cur[|p'|..];
  }

  /** The current block simply goes on. */
  lemma StayInBlock(c: Codec, r: Reader, p: bytes, d: bytes, bs: seq<bytes>, t: seq<Item>)
    requires ItemsOk(t) && p != [] && |p + d| <= MAX_BLOCKSIZE
    requires bs == Out(p + d, t) && bs != [] && bs[0] == p + r.cur && r.input == Stream(c, bs[1..])
    ensures d <= r.cur
    ensures Synced(c, Reader(r.cur[|d|..], r.input), p + d, t)
  {
    OutPrefix(p + d, t);
    assert r.cur == bs[0][|p|..];
    assert r.cur[..|d|] == d;
    assert bs[0] == (p + d) + r.cur[|d|..];
  }

  /** After loading, the run's bytes stand at the front of the current block. */
  lemma LoadRun(c: Codec, r: Reader, p: bytes, pods: seq<bytes>, t: seq<Item>)
    returns (r1: Reader)
    requires Sound(c) && Synced(c, r, p, [Run(pods)] + t)
    ensures ItemOk(Run(pods)) && ItemsOk(t)
    ensures Load(c, r) == Ok(r1)
    ensures Concat(pods) <= r1.cur
    ensures Synced(c, Reader(r1.cur[|Concat(pods)|..], r1.input), Next(p, Run(pods)), t)
  {
    var it := Run(pods);
    assert ([it] + t)[0] == it && ([it] + t)[1..] == t;
    var run := Concat(pods);
    OutStep(p, it, t);
    RunEffect(Writer([], p), pods);
    var bs := Out(p, [it] + t);
    if p == [] || |p| > MIN_BLOCKSIZE {
      assert Next(p, it) == run by { assert [] + run == run; }
      if p == [] {
        assert bs == Out(run, t);
      } else {
        assert bs == [p] + Out(run, t);
        assert bs[1..] == Out(run, t);
        assert |p + r.cur| == |p|;
        assert r.cur == [];
      }
      r1 := EnterBlock(c, run, t);
    } else {
      assert bs == Out(p + run, t);
      StayInBlock(c, r, p, run, bs, t);
      assert run != [];
      r1 := r;
    }
  }

  lemma TakeShort(c: Codec, d: bytes, t: seq<Item>)
    requires Sound(c) && ItemsOk(t) && |d| < MAX_BLOCKSIZE
    ensures var got := TakeBlocks(c, Stream(c, Out(d, t)), |d|);
            got.Ok? && got.value.0 == d && Synced(c, got.value.1, d, t)
  {
    if d != [] {
      var r1 := EnterBlock(c, d, t);
      assert r1.cur[..|d|] == d;
    }
  }

  lemma TakeFull(c: Codec, b: bytes, rest: bytes, n: nat)
    requires Sound(c) && |b| == MAX_BLOCKSIZE
    requires TakeBlocks(c, rest, n).Ok?
    ensures var more := TakeBlocks(c, rest, n).value;
            TakeBlocks(c, Frame(c, b) + rest, n + MAX_BLOCKSIZE) == Ok((b + more.0, more.1))
  {
    NextFrame(c, b, rest);
  }

  lemma {:induction false} TakeWritten(c: Codec, d: bytes, t: seq<Item>)
    requires Sound(c) && ItemsOk(t)
    ensures var got := TakeBlocks(c, Stream(c, Cut(d).0 + Out(Cut(d).1, t)), |d|);
            got.Ok? && got.value.0 == d && Synced(c, got.value.1, Cut(d).1, t)
    decreases |d|
  {
    hide Sound, Synced, Out, Frame;
    var bs' := Out(Cut(d).1, t);
    if |d| >= MAX_BLOCKSIZE {
      var b, d' := d[..MAX_BLOCKSIZE], d[MAX_BLOCKSIZE..];
      TakeWritten(c, d', t);
      var rest := Cut(d').0 + bs';
      StreamCons(c, b, rest);
      assert Cut(d).0 + bs' == [b] + rest by { Assoc([b], Cut(d').0, bs'); }
      TakeFull(c, b, Stream(c, rest), |d'|);
      assert b + d' == d;
    } else {
      assert Cut(d).0 + bs' == bs';
      TakeShort(c, d, t);
    }
  }

  /** The push filled the current block: read what is left of it, then go on at a block boundary. */
  lemma ReadAcross(c: Codec, r: Reader, d: bytes, d2: bytes, t: seq<Item>)
    requires Sound(c) && ItemsOk(t)
    requires d == r.cur + d2
    requires r.input == Stream(c, Cut(d2).0 + Out(Cut(d2).1, t))
    ensures var got := GetData(c, r, |d|);
            got.Ok? && got.value.0 == d && Synced(c, got.value.1, Cut(d2).1, t)
  {
    if d2 == [] {
      assert r.cur[..|d|] == d && r.cur[|d|..] == [];
      assert Cut(d2).0 + Out(Cut(d2).1, t) == Out([], t);
    } else {
      TakeWritten(c, d2, t);
    }
  }

  lemma ReadDataFilling(c: Codec, r: Reader, p: bytes, d: bytes, bs: seq<bytes>, t: seq<Item>)
    requires Sound(c) && ItemsOk(t)
    requires |p| <= MAX_BLOCKSIZE <= |p + d|
    requires bs == Cut(p + d).0 + Out(Cut(p + d).1, t)
    requires bs != [] && bs[0] == p + r.cur && r.input == Stream(c, bs[1..])
    ensures var got := GetData(c, r, |d|);
            got.Ok? && got.value.0 == d && Synced(c, got.value.1, Cut(p + d).1, t)
  {
    hide Sound, Synced, Out, Stream, GetData, Cut;
    var k := MAX_BLOCKSIZE - |p|;
    var d1, d2 := d[..k], d[k..];
    CutFilling(p, d);
    Assoc([p + d1], Cut(d2).0, Out(Cut(d2).1, t));
    assert bs[1..] == Cut(d2).0 + Out(Cut(d2).1, t);
    assert r.cur == (p + r.cur)[|p|..] == d1;
    assert d == d1 + d2;
    ReadAcross(c, r, d, d2, t);
  }

  lemma ReadData(c: Codec, r: Reader, p: bytes, d: bytes, t: seq<Item>)
    requires Sound(c) && Synced(c, r, p, [Data(d)] + t)
    ensures ItemsOk(t)
    ensures var got := GetData(c, r, |d|);
            got.Ok? && got.value.0 == d && Synced(c, got.value.1, Next(p, Data(d)), t)
  {
    var items := [Data(d)] + t;
    assert items[1..] == t;
    OutStep(p, Data(d), t);
    var bs := Out(p, items);
    assert bs == Cut(p + d).0 + Out(Cut(p + d).1, t) by { assert [] + Cut(p + d).0 == Cut(p + d).0; }
    if p == [] {
      assert p + d == d == r.cur + d;
      ReadAcross(c, r, d, d, t);
    } else if |p| + |d| < MAX_BLOCKSIZE {
      assert bs == Out(p + d, t);
      StayInBlock(c, r, p, d, bs, t);
    } else {
      ReadDataFilling(c, r, p, d, bs, t);
    }
  }

  // ---------- whole scripts ----------

  function GetPods(r: Reader, pods: seq<bytes>): Result<(seq<bytes>, Reader)>
    decreases |pods|
  {
    if pods == [] then Ok(([], r))
    else
      var one :- GetPodContiguous(r, |pods[0]|);
      var more :- GetPods(one.1, pods[1..]);
      Ok(([one.0] + more.0, more.1))
  }

  /** The reader calls that match one write request; only the lengths in `it` are used. */
  function ReadItem(c: Codec, r: Reader, it: Item): Result<(Item, Reader)> {
    match it
    case Run(pods) =>
      if pods == [] then Ok((Run([]), r))
      else
        var one :- GetPod(c, r, |pods[0]|);
        var more :- GetPods(one.1, pods[1..]);
        Ok((Run([one.0] + more.0), more.1))
    case Data(d) =>
      var got :- GetData(c, r, |d|);
      Ok((Data(got.0), got.1))
  }

  function ReadAll(c: Codec, r: Reader, shape: seq<Item>): Result<(seq<Item>, Reader)>
    decreases |shape|
  {
    if shape == [] then Ok(([], r))
    else
      var one :- ReadItem(c, r, shape[0]);
      var more :- ReadAll(c, one.1, shape[1..]);
      Ok(([one.0] + more.0, more.1))
  }

  lemma {:induction false} GetPodsFront(r: Reader, pods: seq<bytes>)
    requires Concat(pods) <= r.cur
    ensures GetPods(r, pods) == Ok((pods, Reader(r.cur[|Concat(pods)|..], r.input)))
    decreases |pods|
  {
    if pods == [] {
    } else {
      assert r.cur[..|pods[0]|] == pods[0] by { assert Concat(pods)[..|pods[0]|] == pods[0]; }
      var r1 := Reader(r.cur[|pods[0]|..], r.input);
      assert Concat(pods)[|pods[0]|..] == Concat(pods[1..]);
      assert r1.cur[..|Concat(pods[1..])|] == Concat(pods[1..]);
      GetPodsFront(r1, pods[1..]);
      assert r1.cur[|Concat(pods[1..])|..] == r.cur[|Concat(pods)|..];
      assert [pods[0]] + pods[1..] == pods;
    }
  }

  lemma ReadItemBack(c: Codec, r: Reader, p: bytes, it: Item, t: seq<Item>)
    requires Sound(c) && Synced(c, r, p, [it] + t)
    ensures ItemOk(it) && ItemsOk(t)
    ensures var got := ReadItem(c, r, it);
            got.Ok? && got.value.0 == it && Synced(c, got.value.1, Next(p, it), t)
  {
    match it
    case Run(pods) =>
      var r1 := LoadRun(c, r, p, pods, t);
      GetPodsFront(r1, pods);
      assert [pods[0]] + pods[1..] == pods;
    case Data(d) =>
      ReadData(c, r, p, d, t);
  }

  lemma {:induction false} ReadAllBack(c: Codec, r: Reader, p: bytes, items: seq<Item>)
    requires Sound(c) && Synced(c, r, p, items)
    ensures var got := ReadAll(c, r, items);
            got.Ok? && got.value.0 == items && Synced(c, got.value.1, NextAll(p, items), [])
    decreases |items|
  {
    if items == [] {
    } else {
      assert [items[0]] + items[1..] == items;
      ReadItemBack(c, r, p, items[0], items[1..]);
      var r1 := ReadItem(c, r, items[0]).value.1;
      ReadAllBack(c, r1, Next(p, items[0]), items[1..]);
      WriteAllFrame(Write(Writer([], p), items[0]).blocks, Next(p, items[0]), items[1..]);
    }
  }

  lemma SyncedAtEnd(c: Codec, r: Reader, p: bytes)
    requires Synced(c, r, p, [])
    ensures r == Reader([], [])
  {
  }

  /** Reading with the same pod runs, and with bulk data cut in any way, returns what was written, without
      an error and with nothing left in the stream. */
  lemma ScriptRoundTrip(c: Codec, written: seq<Item>, read: seq<Item>)
    requires Sound(c) && ItemsOk(written) && ItemsOk(read)
    requires Tokens(written) == Tokens(read)
    ensures ReadAll(c, Reader([], Stream(c, Blocks(written))), read) == Ok((read, Reader([], [])))
  {
    CutsDoNotMatter(written, read);
    var r := Reader([], Stream(c, Blocks(read)));
    ReadAllBack(c, r, [], read);
    SyncedAtEnd(c, ReadAll(c, r, read).value.1, NextAll([], read));
  }
}
