/** What the block writer and the block reader compute, as functions on byte sequences.
    The classes of BlockModule are proved equal to these functions. */
module BlockSpec {
  import opened Bytes

  const MAX_BLOCKSIZE: nat := 1048576
  const BLOCK_RESERVE: nat := 64
  const MIN_BLOCKSIZE: nat := MAX_BLOCKSIZE - BLOCK_RESERVE
  // ZSTD_COMPRESSBOUND(MAX_BLOCKSIZE): for inputs of 128 KiB or more, n + n/256
  const MAX_ZBLOCKSIZE: nat := MAX_BLOCKSIZE + MAX_BLOCKSIZE / 256

  type Block = b: bytes | 1 <= |b| <= MAX_BLOCKSIZE witness [0]

  /** The 32-bit word in front of a compressed block, metadata bit included, and the compressed bytes. */
  datatype Compressed = Compressed(zsize: nat, payload: bytes)

  /** A 32-bit word without its top bit, which is metadata. */
  function CompressedSize(zsize: nat): nat {
    if zsize < TWO_31 then zsize else zsize - TWO_31
  }

  /** A compressor and the decompressor that belongs to it. */
  datatype Codec = Codec(compress: bytes -> Compressed, decompress: (nat, bytes) -> Option<Block>)

  ghost predicate Sound(c: Codec) {
    forall b: bytes {:trigger c.compress(b)} :: 1 <= |b| <= MAX_BLOCKSIZE ==>
      && c.compress(b).zsize < TWO_32
      && 1 <= CompressedSize(c.compress(b).zsize) <= MAX_ZBLOCKSIZE
      && |c.compress(b).payload| == CompressedSize(c.compress(b).zsize)
      && c.decompress(c.compress(b).zsize, c.compress(b).payload) == Some(b)
  }

  function Frame(c: Codec, b: bytes): bytes {
    LE(c.compress(b).zsize, 4) + c.compress(b).payload
  }

  function Stream(c: Codec, bs: seq<bytes>): bytes {
    if bs == [] then [] else Frame(c, bs[0]) + Stream(c, bs[1..])
  }

  lemma StreamCons(c: Codec, b: bytes, rest: seq<bytes>)
    ensures Stream(c, [b] + rest) == Frame(c, b) + Stream(c, rest)
  {
    assert ([b] + rest)[1..] == rest;
  }

  lemma {:induction false} StreamAppend(c: Codec, a: seq<bytes>, b: seq<bytes>)
    ensures Stream(c, a + b) == Stream(c, a) + Stream(c, b)
  {
    if a == [] {
      assert a + b == b;
    } else {
      assert (a + b)[1..] == a[1..] + b;
      StreamAppend(c, a[1..], b);
    }
  }

  lemma StreamSnoc(c: Codec, a: seq<bytes>, b: bytes)
    ensures Stream(c, a + [b]) == Stream(c, a) + Frame(c, b)
  {
    StreamAppend(c, a, [b]);
    assert Stream(c, [b]) == Frame(c, b) + Stream(c, []);
  }

  // ---------- writing ----------

  /** One write request: a pod followed by pods that must stay in the same block, or bulk bytes. */
  datatype Item = Run(pods: seq<bytes>) | Data(data: bytes)

  predicate ItemOk(it: Item) {
    it.Run? ==> it.pods != [] && |it.pods[0]| >= 1 && |Concat(it.pods)| <= BLOCK_RESERVE
  }

  predicate ItemsOk(items: seq<Item>) {
    forall i :: 0 <= i < |items| ==> ItemOk(items[i])
  }

  /** The blocks handed to the compressor so far and the bytes waiting in the current block. */
  datatype Writer = Writer(blocks: seq<bytes>, pending: bytes)

  function Flush(w: Writer): Writer {
    if w.pending == [] then w else Writer(w.blocks + [w.pending], [])
  }

  /** `s` cut into full blocks, and what is left over. */
  function Cut(s: bytes): (r: (seq<bytes>, bytes))
    ensures |r.1| < MAX_BLOCKSIZE
    decreases |s|
  {
    if |s| < MAX_BLOCKSIZE then ([], s)
    else
      var r := Cut(s[MAX_BLOCKSIZE..]);
      ([s[..MAX_BLOCKSIZE]] + r.0, r.1)
  }

  function PushData(w: Writer, d: bytes): Writer {
    var c := Cut(w.pending + d);
    Writer(w.blocks + c.0, c.1)
  }

  function PushPod(w: Writer, pod: bytes): Writer {
    var w' := if |w.pending| > MIN_BLOCKSIZE then Flush(w) else w;
    w'.(pending := w'.pending + pod)
  }

  function PushPodContiguous(w: Writer, pod: bytes): Writer {
    w.(pending := w.pending + pod)
  }

  function PushContiguous(w: Writer, pods: seq<bytes>): Writer
    ensures PushContiguous(w, pods) == Writer(w.blocks, w.pending + Concat(pods))
    decreases |pods|
  {
    if pods == [] then
      assert w.pending + Concat(pods) == w.pending;
      w
    else
      assert w.pending + (pods[0] + Concat(pods[1..])) == (w.pending + pods[0]) + Concat(pods[1..]);
      PushContiguous(PushPodContiguous(w, pods[0]), pods[1..])
  }

  function Write(w: Writer, it: Item): Writer
    requires ItemOk(it)
  {
    match it
    case Run(pods) => PushContiguous(PushPod(w, pods[0]), pods[1..])
    case Data(d) => PushData(w, d)
  }

  function WriteAll(w: Writer, items: seq<Item>): Writer
    requires ItemsOk(items)
    decreases |items|
  {
    if items == [] then w else WriteAll(Write(w, items[0]), items[1..])
  }

  const START := Writer([], [])

  /** The blocks of a whole run, the last one being the final flush. */
  function Blocks(items: seq<Item>): seq<bytes>
    requires ItemsOk(items)
  {
    Flush(WriteAll(START, items)).blocks
  }

  lemma {:induction false} WriteAllAppend(w: Writer, a: seq<Item>, b: seq<Item>)
    requires ItemsOk(a) && ItemsOk(b)
    ensures ItemsOk(a + b)
    ensures WriteAll(w, a + b) == WriteAll(WriteAll(w, a), b)
    decreases |a|
  {
    if a == [] {
      assert a + b == b;
    } else {
      assert (a + b)[1..] == a[1..] + b;
      WriteAllAppend(Write(w, a[0]), a[1..], b);
    }
  }

  lemma RunEffect(w: Writer, pods: seq<bytes>)
    requires ItemOk(Run(pods))
    ensures Write(w, Run(pods)) ==
      if |w.pending| > MIN_BLOCKSIZE then Writer(w.blocks + [w.pending], Concat(pods))
      else Writer(w.blocks, w.pending + Concat(pods))
  {
    var w1 := PushPod(w, pods[0]);
    if |w.pending| > MIN_BLOCKSIZE {
      assert w1.pending == pods[0];
    } else {
      Assoc(w.pending, pods[0], Concat(pods[1..]));
    }
  }

  // ---------- properties of the writer ----------

  lemma Assoc<T>(a: seq<T>, b: seq<T>, c: seq<T>)
    ensures (a + b) + c == a + (b + c)
  {
  }

  /** Filling the current block emits it, and the rest is cut as if it stood alone. */
  lemma CutFilling(p: bytes, d: bytes)
    requires |p| <= MAX_BLOCKSIZE <= |p| + |d|
    ensures var k := MAX_BLOCKSIZE - |p|;
            Cut(p + d) == ([p + d[..k]] + Cut(d[k..]).0, Cut(d[k..]).1)
  {
    var k := MAX_BLOCKSIZE - |p|;
    assert (p + d)[..MAX_BLOCKSIZE] == p + d[..k];
    assert (p + d)[MAX_BLOCKSIZE..] == d[k..];
  }

  lemma CutStep(s: bytes)
    requires |s| >= MAX_BLOCKSIZE
    ensures Cut(s) == ([s[..MAX_BLOCKSIZE]] + Cut(s[MAX_BLOCKSIZE..]).0, Cut(s[MAX_BLOCKSIZE..]).1)
  {
  }

  lemma {:induction false} CutConserves(s: bytes)
    ensures Concat(Cut(s).0) + Cut(s).1 == s
    decreases |s|
  {
    if |s| < MAX_BLOCKSIZE {
    } else {
      var first, rest := s[..MAX_BLOCKSIZE], s[MAX_BLOCKSIZE..];
      CutConserves(rest);
      CutStep(s);
      ConcatCons(first, Cut(rest).0);
      Assoc(first, Concat(Cut(rest).0), Cut(rest).1);
      assert s == first + rest;
    }
  }

  lemma ConcatCons(a: bytes, bs: seq<bytes>)
    ensures Concat([a] + bs) == a + Concat(bs)
  {
    assert ([a] + bs)[1..] == bs;
  }

  lemma {:induction false} CutLengths(s: bytes)
    ensures forall i :: 0 <= i < |Cut(s).0| ==> |Cut(s).0[i]| == MAX_BLOCKSIZE
    decreases |s|
  {
    if |s| < MAX_BLOCKSIZE {
    } else {
      CutLengths(s[MAX_BLOCKSIZE..]);
      CutStep(s);
    }
  }

  lemma {:induction false} CutAppend(s: bytes, t: bytes)
    ensures Cut(s + t) == (Cut(s).0 + Cut(Cut(s).1 + t).0, Cut(Cut(s).1 + t).1)
    decreases |s|
  {
    if |s| < MAX_BLOCKSIZE {
      assert [] + Cut(s + t).0 == Cut(s + t).0;
    } else {
      var s' := s[MAX_BLOCKSIZE..];
      assert (s + t)[..MAX_BLOCKSIZE] == s[..MAX_BLOCKSIZE];
      assert (s + t)[MAX_BLOCKSIZE..] == s' + t;
      CutAppend(s', t);
      assert ([s[..MAX_BLOCKSIZE]] + Cut(s').0) + Cut(Cut(s').1 + t).0
          == [s[..MAX_BLOCKSIZE]] + (Cut(s').0 + Cut(Cut(s').1 + t).0);
    }
  }

  /** Bulk data may be pushed in any number of pieces. */
  lemma PushDataSplit(w: Writer, a: bytes, b: bytes)
    ensures PushData(PushData(w, a), b) == PushData(w, a + b)
  {
    CutAppend(w.pending + a, b);
    Assoc(w.pending, a, b);
    var c := Cut(w.pending + a);
    Assoc(w.blocks, c.0, Cut(c.1 + b).0);
  }

  /** The bytes themselves are never lost, repeated or reordered. */
  function Payload(it: Item): bytes {
    match it
    case Run(pods) => Concat(pods)
    case Data(d) => d
  }

  function Payloads(items: seq<Item>): bytes {
    if items == [] then [] else Payload(items[0]) + Payloads(items[1..])
  }

  lemma PushDataConserves(w: Writer, d: bytes)
    ensures Concat(PushData(w, d).blocks) + PushData(w, d).pending == Concat(w.blocks) + w.pending + d
  {
    var c := Cut(w.pending + d);
    CutConserves(w.pending + d);
    ConcatAppend(w.blocks, c.0);
    Assoc(Concat(w.blocks), Concat(c.0), c.1);
    Assoc(Concat(w.blocks), w.pending, d);
  }

  lemma WriteConserves(w: Writer, it: Item)
    requires ItemOk(it)
    ensures Concat(Write(w, it).blocks) + Write(w, it).pending == Concat(w.blocks) + w.pending + Payload(it)
  {
    match it
    case Run(pods) =>
      RunEffect(w, pods);
      ConcatSnoc(w.blocks, w.pending);
      Assoc(Concat(w.blocks), w.pending, Concat(pods));
    case Data(d) =>
      PushDataConserves(w, d);
  }

  lemma {:induction false} WriteAllConserves(w: Writer, items: seq<Item>)
    requires ItemsOk(items)
    ensures Concat(WriteAll(w, items).blocks) + WriteAll(w, items).pending
         == Concat(w.blocks) + w.pending + Payloads(items)
    decreases |items|
  {
    if items == [] {
    } else {
      var w1 := Write(w, items[0]);
      WriteConserves(w, items[0]);
      WriteAllConserves(w1, items[1..]);
      var before := Concat(w.blocks) + w.pending;
      Assoc(before, Payload(items[0]), Payloads(items[1..]));
    }
  }

  /** A block that is not the last one. */
  predicate InnerBlock(b: bytes) {
    MIN_BLOCKSIZE < |b| <= MAX_BLOCKSIZE
  }

  predicate WriterOk(w: Writer) {
    && |w.pending| < MAX_BLOCKSIZE + 1
    && forall i :: 0 <= i < |w.blocks| ==> InnerBlock(w.blocks[i])
  }

  lemma WriteKeepsOk(w: Writer, it: Item)
    requires WriterOk(w) && ItemOk(it)
    ensures WriterOk(Write(w, it))
  {
    match it
    case Run(pods) => RunEffect(w, pods);
    case Data(d) => CutLengths(w.pending + d);
  }

  lemma {:induction false} WriteAllKeepsOk(w: Writer, items: seq<Item>)
    requires WriterOk(w) && ItemsOk(items)
    ensures WriterOk(WriteAll(w, items))
    decreases |items|
  {
    if items == [] {
    } else {
      WriteKeepsOk(w, items[0]);
      WriteAllKeepsOk(Write(w, items[0]), items[1..]);
    }
  }

  /** Every block of a run is non-empty and within the limit, and only the last may be short. */
  lemma BlockSizes(items: seq<Item>)
    requires ItemsOk(items)
    ensures var bs := Blocks(items);
            && (forall i :: 0 <= i < |bs| ==> 1 <= |bs[i]| <= MAX_BLOCKSIZE)
            && (forall i :: 0 <= i < |bs| - 1 ==> MIN_BLOCKSIZE < |bs[i]|)
            && Concat(bs) == Payloads(items)
  {
    WriteAllKeepsOk(START, items);
    WriteAllConserves(START, items);
    var w := WriteAll(START, items);
    ConcatSnoc(w.blocks, w.pending);
    assert Concat(START.blocks) + START.pending + Payloads(items) == Payloads(items);
  }

  // ---------- the same writes cut differently ----------

  datatype Token = TRun(pods: seq<bytes>) | TByte(b: byte)

  function Singles(d: bytes): seq<Token> {
    seq(|d|, i requires 0 <= i < |d| => TByte(d[i]))
  }

  function Tokens(items: seq<Item>): seq<Token> {
    if items == [] then []
    else (match items[0] case Run(pods) => [TRun(pods)] case Data(d) => Singles(d)) + Tokens(items[1..])
  }

  function WriteToken(w: Writer, t: Token): Writer
    requires t.TRun? ==> ItemOk(Run(t.pods))
  {
    match t
    case TRun(pods) => Write(w, Run(pods))
    case TByte(b) => PushData(w, [b])
  }

  predicate TokensOk(ts: seq<Token>) {
    forall i :: 0 <= i < |ts| ==> ts[i].TRun? ==> ItemOk(Run(ts[i].pods))
  }

  function WriteTokens(w: Writer, ts: seq<Token>): Writer
    requires TokensOk(ts)
    decreases |ts|
  {
    if ts == [] then w else WriteTokens(WriteToken(w, ts[0]), ts[1..])
  }

  lemma {:induction false} WriteTokensAppend(w: Writer, a: seq<Token>, b: seq<Token>)
    requires TokensOk(a) && TokensOk(b)
    ensures TokensOk(a + b) && WriteTokens(w, a + b) == WriteTokens(WriteTokens(w, a), b)
    decreases |a|
  {
    if a == [] {
      assert a + b == b;
    } else {
      assert (a + b)[1..] == a[1..] + b;
      WriteTokensAppend(WriteToken(w, a[0]), a[1..], b);
    }
  }

  lemma {:induction false} WriteSingles(w: Writer, d: bytes)
    requires |w.pending| < MAX_BLOCKSIZE || d != []
    ensures WriteTokens(w, Singles(d)) == PushData(w, d)
    decreases |d|
  {
    if d == [] {
      assert w.pending + d == w.pending;
      assert w.blocks + [] == w.blocks;
    } else {
      assert Singles(d)[1..] == Singles(d[1..]);
      WriteSingles(PushData(w, [d[0]]), d[1..]);
      PushDataSplit(w, [d[0]], d[1..]);
      assert [d[0]] + d[1..] == d;
    }
  }

  /** A full block that is still waiting behaves as if it had been flushed already. */
  lemma WriteFull(w: Writer, it: Item)
    requires |w.pending| == MAX_BLOCKSIZE && ItemOk(it)
    ensures Write(w, it) == Write(Flush(w), it)
  {
    match it
    case Run(pods) =>
      RunEffect(w, pods);
      RunEffect(Flush(w), pods);
      assert [] + Concat(pods) == Concat(pods);
    case Data(d) =>
      assert (w.pending + d)[..MAX_BLOCKSIZE] == w.pending;
      assert (w.pending + d)[MAX_BLOCKSIZE..] == d;
      assert [] + d == d;
      assert w.blocks + ([w.pending] + Cut(d).0) == (w.blocks + [w.pending]) + Cut(d).0;
  }

  lemma WriteAllFull(w: Writer, items: seq<Item>)
    requires |w.pending| == MAX_BLOCKSIZE && ItemsOk(items)
    ensures Flush(WriteAll(w, items)) == Flush(WriteAll(Flush(w), items))
  {
    if items != [] {
      WriteFull(w, items[0]);
    }
  }

  lemma {:induction false} WriteAllByTokens(w: Writer, items: seq<Item>)
    requires ItemsOk(items) && WriterOk(w)
    ensures TokensOk(Tokens(items))
    ensures Flush(WriteAll(w, items)) == Flush(WriteTokens(w, Tokens(items)))
    decreases |items|
  {
    if items == [] {
    } else {
      var w1 := Write(w, items[0]);
      WriteKeepsOk(w, items[0]);
      WriteAllByTokens(w1, items[1..]);
      match items[0]
      case Run(pods) =>
        assert Tokens(items) == [TRun(pods)] + Tokens(items[1..]);
      case Data(d) =>
        if d == [] && |w.pending| == MAX_BLOCKSIZE {
          WriteAllByTokens(w, items[1..]);
          WriteAllFull(w, items[1..]);
          assert w1 == Flush(w) by {
            assert w.pending + d == w.pending;
            assert w.pending[MAX_BLOCKSIZE..] == [];
            assert w.pending[..MAX_BLOCKSIZE] == w.pending;
            assert Cut([]) == ([], []);
          }
          assert Tokens(items) == Tokens(items[1..]);
        } else {
          WriteSingles(w, d);
          WriteTokensAppend(w, Singles(d), Tokens(items[1..]));
        }
    }
  }

  /** Where bulk data was cut into pushes leaves no trace in the blocks. */
  lemma CutsDoNotMatter(a: seq<Item>, b: seq<Item>)
    requires ItemsOk(a) && ItemsOk(b) && Tokens(a) == Tokens(b)
    ensures Blocks(a) == Blocks(b)
  {
    WriteAllByTokens(START, a);
    WriteAllByTokens(START, b);
  }
}
