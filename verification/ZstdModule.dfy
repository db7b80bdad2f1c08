/** The block compressors: plain zstd, and zstd behind a byte shuffle that is applied when a heuristic says so.
    zstd itself is a parameter of which two facts are used. */
module ZstdModule {
  import opened Bytes
  import opened BlockSpec
  import opened ShuffleRoutines

  const SHUFFLE_HEURISTIC_BLOCKSIZE: nat := 32768
  const SHUFFLE_ELEMSIZE: nat := 8
  const SHUFFLE_HEURISTIC_LEVEL: int := -1
  const HIGH_COMPRESS_LEVEL_THRESHOLD: int := 14
  const HIGH_HEURISTIC_THRESHOLD: real := -0.25
  const LOW_HEURISTIC_THRESHOLD: real := 0.0

  /** ZSTD_compressCCtx by level and ZSTD_decompressDCtx; None is an error code. */
  datatype Zstd = Zstd(compress: (bytes, int) -> Option<bytes>, decompress: bytes -> Option<bytes>)

  /** Decompression undoes compression at every level, and the result is within the compress bound. */
  ghost predicate SoundZstd(z: Zstd) {
    forall b: bytes, level: int {:trigger z.compress(b, level)} :: 1 <= |b| <= MAX_BLOCKSIZE ==>
      && z.compress(b, level).Some?
      && 1 <= |z.compress(b, level).value| <= MAX_ZBLOCKSIZE
      && z.decompress(z.compress(b, level).value) == Some(b)
  }

  /** Compression never writes more than the destination holds; otherwise it reports an error. */
  ghost predicate WithinCapacity(z: Zstd) {
    forall b: bytes, level: int {:trigger z.compress(b, level)} ::
      |b| <= MAX_BLOCKSIZE && z.compress(b, level).Some? ==>
      |z.compress(b, level).value| <= MAX_ZBLOCKSIZE
  }

  /** What the heuristic decides on: compressed sizes of four samples with and without shuffle, and the level. */
  type Model = (seq<nat>, int) -> real

  datatype Verdict = Failed | Use | DontUse

  // ---------- the shuffled block ----------

  /** Whole elements shuffled, the remainder as it is. */
  function ShuffledBlock(b: bytes): (s: bytes)
    ensures |s| == |b|
  {
    var n := |b| / 8;
    WholeElements(8, n);
    PlanesTo(b[..8 * n], n, 8, 8) + b[8 * n..]
  }

  function UnshuffledBlock(b: bytes): (s: bytes)
    ensures |s| == |b|
  {
    var n := |b| / 8;
    WholeElements(8, n);
    WholeElements(n, 8);
    ElementsTo(b[..8 * n], n, 8, n) + b[8 * n..]
  }

  /** The shuffle and the copy of the remainder, as both compressors do it. */
  method ShuffleInto(path: Path, src: bytes, shuffleblock: array<byte>)
    requires |src| <= shuffleblock.Length
    modifies shuffleblock
    ensures shuffleblock[..|src|] == ShuffledBlock(src)
  {
    hide Transposed, PlanesTo, At;
    var remainder := |src| % SHUFFLE_ELEMSIZE;
    var whole := |src| - remainder;
    var n := |src| / 8;
    assert whole == 8 * n && whole / 8 == n;
    WholeElements(8, n);
    WholeElements(n, 8);
    BloscShuffle(path, src[..whole], shuffleblock, SHUFFLE_ELEMSIZE);
    TransposeIs(src[..whole], shuffleblock[..], n, 8, 8);
    ghost var shuffled := shuffleblock[..];
    CopyIn(shuffleblock, whole, src[whole..]);
    PrefixThenRest(shuffled, whole, src[whole..]);
  }

  method UnshuffleInto(path: Path, src: bytes, dst: array<byte>)
    requires |src| <= dst.Length
    modifies dst
    ensures dst[..|src|] == UnshuffledBlock(src)
  {
    hide Transposed, ElementsTo, At;
    var remainder := |src| % SHUFFLE_ELEMSIZE;
    var whole := |src| - remainder;
    var n := |src| / 8;
    assert whole == 8 * n && whole / 8 == n;
    WholeElements(8, n);
    WholeElements(n, 8);
    BloscUnshuffle(path, src[..whole], dst, SHUFFLE_ELEMSIZE);
    InverseIs(dst[..], src[..whole], n, 8, n);
    ghost var restored := dst[..];
    CopyIn(dst, whole, src[whole..]);
    PrefixThenRest(restored, whole, src[whole..]);
  }

  lemma PrefixThenRest(d: bytes, n: nat, rest: bytes)
    requires n + |rest| <= |d|
    ensures Overlay(d, n, rest)[..n + |rest|] == d[..n] + rest
  {
  }

  lemma PlanesAreTransposed(a: bytes, n: nat)
    requires |a| == 8 * n
    ensures Transposed(a, PlanesTo(a, n, 8, 8), n, 8)
  {
    hide At, PlanesTo;
    WholeElements(8, n);
    WholeElements(n, 8);
    forall i: nat, k: nat | i < n && k < 8
      ensures Same(a, At(i, 8, k), PlanesTo(a, n, 8, 8), At(k, n, i))
    {
      PlanesAt(a, n, 8, 8, k, i);
      ElementAt(i, 8, k);
    }
  }

  /** Unshuffling a shuffled block of any size gives the block back, remainder included. */
  lemma ShuffleRoundTrip(b: bytes)
    ensures UnshuffledBlock(ShuffledBlock(b)) == b
  {
    hide At, PlanesTo, ElementsTo, Transposed;
    var n := |b| / 8;
    WholeElements(8, n);
    WholeElements(n, 8);
    var whole := b[..8 * n];
    var planes := PlanesTo(whole, n, 8, 8);
    assert ShuffledBlock(b)[..8 * n] == planes && ShuffledBlock(b)[8 * n..] == b[8 * n..];
    PlanesAreTransposed(whole, n);
    InverseIs(whole, planes, n, 8, n);
    assert whole + b[8 * n..] == b;
  }

  /** Byte `k` of element `i` of a shuffled block of n whole 8-byte elements is at k * n + i, and the bytes behind the
      last whole element stay where they are. */
  lemma ShuffledAt(b: bytes, i: nat, k: nat)
    requires i < |b| / 8 && k < 8
    ensures var n := |b| / 8; k * n + i < |b| && ShuffledBlock(b)[k * n + i] == b[8 * i + k]
    ensures ShuffledBlock(b)[8 * (|b| / 8)..] == b[8 * (|b| / 8)..]
  {
    hide At, PlanesTo;
    var n := |b| / 8;
    var whole := b[..8 * n];
    WholeElements(8, n);
    WholeElements(k, n);
    AtParts(k, n, i);
    PlanesAt(whole, n, 8, 8, k, i);
  }

  // ---------- the heuristic ----------

  /** The first byte of sample `i`. */
  function Offset(size: nat, i: nat): nat {
    (size / 4) * i
  }

  lemma SampleInRange(size: nat, i: nat)
    requires size >= 8 * SHUFFLE_HEURISTIC_BLOCKSIZE && i < 4
    ensures Offset(size, i) + SHUFFLE_HEURISTIC_BLOCKSIZE <= size
  {
  }

  function Sample(src: bytes, i: nat): (b: bytes)
    requires |src| >= 8 * SHUFFLE_HEURISTIC_BLOCKSIZE && i < 4
    ensures |b| == SHUFFLE_HEURISTIC_BLOCKSIZE
  {
    SampleInRange(|src|, i);
    src[Offset(|src|, i)..Offset(|src|, i) + SHUFFLE_HEURISTIC_BLOCKSIZE]
  }

  /** Compressed sizes, with and without shuffle, of the samples below `i`. */
  function SampleSizes(z: Zstd, src: bytes, i: nat): Option<seq<nat>>
    requires |src| >= 8 * SHUFFLE_HEURISTIC_BLOCKSIZE && i <= 4
    decreases i
  {
    if i == 0 then Some([])
    else
      match SampleSizes(z, src, i - 1)
      case None => None
      case Some(sizes) =>
        var b := Sample(src, i - 1);
        match z.compress(ShuffledBlock(b), SHUFFLE_HEURISTIC_LEVEL)
        case None => None
        case Some(shuf) =>
          match z.compress(b, SHUFFLE_HEURISTIC_LEVEL)
          case None => None
          case Some(noshuf) => Some(sizes + [|shuf|, |noshuf|])
  }

  function Heuristic(z: Zstd, model: Model, src: bytes, level: int, threshold: real): Verdict {
    if |src| < 8 * SHUFFLE_HEURISTIC_BLOCKSIZE then DontUse
    else
      match SampleSizes(z, src, 4)
      case None => Failed
      case Some(sizes) => if model(sizes, level) > threshold then Use else DontUse
  }

  /** 32 KiB of the block, `i` quarters in. */
  function QuarterSample(src: bytes, i: nat): (s: bytes)
    requires |src| >= 262144 && i < 4
  {
    SampleInRange(|src|, i);
    src[|src| / 4 * i..|src| / 4 * i + 32768]
  }

  /** The compressed sizes at level -1, shuffled and as it is. */
  function SizePair(z: Zstd, s: bytes): Option<seq<nat>> {
    match (z.compress(ShuffledBlock(s), -1), z.compress(s, -1))
    case (Some(a), Some(b)) => Some([|a|, |b|])
    case _ => None
  }

  /** The verdict from 256 KiB on: the model's score for the sizes of the four samples is above the threshold, or one of
      them does not compress. */
  lemma HeuristicMeans(z: Zstd, model: Model, src: bytes, level: int, threshold: real)
    requires |src| >= 262144
    ensures var v := Heuristic(z, model, src, level, threshold);
      match (SizePair(z, QuarterSample(src, 0)), SizePair(z, QuarterSample(src, 1)),
             SizePair(z, QuarterSample(src, 2)), SizePair(z, QuarterSample(src, 3)))
      case (Some(a), Some(b), Some(c), Some(d)) =>
        v == if model(a + b + c + d, level) > threshold then Use else DontUse
      case _ => v == Failed
  {
    hide ShuffledBlock, Sample, QuarterSample, SampleSizes, SizePair;
    FirstSample(z, src);
    SampleStep(z, src, 0);
    SampleStep(z, src, 1);
    SampleStep(z, src, 2);
    SampleStep(z, src, 3);
    if SizePair(z, QuarterSample(src, 0)).Some? {
      assert [] + SizePair(z, QuarterSample(src, 0)).value == SizePair(z, QuarterSample(src, 0)).value;
    }
  }

  lemma FirstSample(z: Zstd, src: bytes)
    requires |src| >= 262144
    ensures SampleSizes(z, src, 0) == Some([])
  {
  }

  lemma SampleStep(z: Zstd, src: bytes, i: nat)
    requires |src| >= 262144 && i < 4
    ensures var before, pair := SampleSizes(z, src, i), SizePair(z, QuarterSample(src, i));
      SampleSizes(z, src, i + 1) == if before.None? || pair.None? then None else Some(before.value + pair.value)
  {
    hide ShuffledBlock;
    assert Sample(src, i) == QuarterSample(src, i);
  }

  // ---------- compressing and decompressing ----------

  function Threshold(level: int): real {
    if level >= HIGH_COMPRESS_LEVEL_THRESHOLD then HIGH_HEURISTIC_THRESHOLD else LOW_HEURISTIC_THRESHOLD
  }

  function Plain(p: bytes): Compressed {
    Compressed(|p|, p)
  }

  /** The size word of shuffled data has its top bit set. */
  function Marked(p: bytes): Compressed {
    Compressed(|p| + TWO_31, p)
  }

  function CompressShuffle(z: Zstd, model: Model, level: int, src: bytes): Option<Compressed> {
    match Heuristic(z, model, src, level, Threshold(level))
    case Failed => None
    case Use =>
      (match z.compress(ShuffledBlock(src), level)
       case None => None
       case Some(shuffled) =>
         if level < HIGH_COMPRESS_LEVEL_THRESHOLD then Some(Marked(shuffled))
         else
           match z.compress(src, level)
           case None => None
           case Some(plain) => Some(if |shuffled| < |plain| then Marked(shuffled) else Plain(plain)))
    case DontUse =>
      match z.compress(src, level)
      case None => None
      case Some(plain) => Some(Plain(plain))
  }

  /** A block, unless the output is empty (the error code) or larger than the destination. */
  function Decompressed(z: Zstd, payload: bytes): Option<Block> {
    match z.decompress(payload)
    case None => None
    case Some(d) => if 1 <= |d| <= MAX_BLOCKSIZE then Some(d) else None
  }

  function DecompressShuffle(z: Zstd, zsize: nat, payload: bytes): Option<Block> {
    if CompressedSize(zsize) > MAX_ZBLOCKSIZE then None
    else if zsize >= TWO_31 then
      match Decompressed(z, payload)
      case None => None
      case Some(d) => Some(UnshuffledBlock(d))
    else Decompressed(z, payload)
  }

  function DecompressPlain(z: Zstd, zsize: nat, payload: bytes): Option<Block> {
    if zsize > MAX_ZBLOCKSIZE then None else Decompressed(z, payload)
  }

  /** The codec of files with the shuffle flag, and that of files without. */
  function ShuffleCodec(z: Zstd, model: Model, level: int): Codec {
    Codec((b: bytes) => match CompressShuffle(z, model, level, b) case Some(c) => c case None => Compressed(0, []),
          (zsize: nat, payload: bytes) => DecompressShuffle(z, zsize, payload))
  }

  function PlainCodec(z: Zstd, level: int): Codec {
    Codec((b: bytes) => match z.compress(b, level) case Some(p) => Plain(p) case None => Compressed(0, []),
          (zsize: nat, payload: bytes) => DecompressPlain(z, zsize, payload))
  }

  lemma {:induction false} SamplesCompress(z: Zstd, src: bytes, i: nat)
    requires SoundZstd(z) && |src| >= 8 * SHUFFLE_HEURISTIC_BLOCKSIZE && i <= 4
    ensures SampleSizes(z, src, i).Some?
    decreases i
  {
    hide ShuffledBlock;
    if i > 0 {
      SamplesCompress(z, src, i - 1);
      var b := Sample(src, i - 1);
      assert z.compress(ShuffledBlock(b), SHUFFLE_HEURISTIC_LEVEL).Some?;
      assert z.compress(b, SHUFFLE_HEURISTIC_LEVEL).Some?;
    }
  }

  /** Whatever the heuristic says, decompression undoes compression, the size is within bounds, and the
      shuffle bit can be told apart from it. */
  lemma CompressedBack(z: Zstd, model: Model, level: int, b: bytes)
    requires SoundZstd(z) && 1 <= |b| <= MAX_BLOCKSIZE
    ensures var c := CompressShuffle(z, model, level, b);
      && c.Some? && c.value.zsize < TWO_32
      && 1 <= |c.value.payload| == CompressedSize(c.value.zsize) <= MAX_ZBLOCKSIZE
      && DecompressShuffle(z, c.value.zsize, c.value.payload) == Some(b)
  {
    hide ShuffledBlock, UnshuffledBlock;
    if |b| >= 8 * SHUFFLE_HEURISTIC_BLOCKSIZE {
      SamplesCompress(z, b, 4);
    }
    ShuffleRoundTrip(b);
    var s := ShuffledBlock(b);
    assert z.compress(b, level).Some? && z.compress(s, level).Some?;
  }

  /** With any sound zstd, any model and any level, both codecs are sound. */
  lemma CodecsSound(z: Zstd, model: Model, level: int)
    requires SoundZstd(z)
    ensures Sound(ShuffleCodec(z, model, level)) && Sound(PlainCodec(z, level))
  {
    hide CompressShuffle, DecompressShuffle;
    var c, p := ShuffleCodec(z, model, level), PlainCodec(z, level);
    forall b: bytes | 1 <= |b| <= MAX_BLOCKSIZE
      ensures c.compress(b).zsize < TWO_32
      ensures 1 <= |c.compress(b).payload| == CompressedSize(c.compress(b).zsize) <= MAX_ZBLOCKSIZE
      ensures c.decompress(c.compress(b).zsize, c.compress(b).payload) == Some(b)
    {
      CompressedBack(z, model, level, b);
    }
    forall b: bytes | 1 <= |b| <= MAX_BLOCKSIZE
      ensures p.compress(b).zsize < TWO_32
      ensures 1 <= |p.compress(b).payload| == CompressedSize(p.compress(b).zsize) <= MAX_ZBLOCKSIZE
      ensures p.decompress(p.compress(b).zsize, p.compress(b).payload) == Some(b)
    {
      assert z.compress(b, level).Some?;
    }
  }

  /** Which output is left in `dst`: that of the shuffled block when the verdict is to shuffle and, from level 14 on,
      when it is strictly shorter than the other; else that of the block itself. The top bit of the size word tells,
      and an output that fails but is needed gives 0. */
  predicate Kept(level: int, verdict: Verdict, shuffled: Option<bytes>, plain: Option<bytes>, zsize: nat, dst: bytes) {
    match verdict
    case Failed => zsize == 0
    case DontUse =>
      if plain.None? then zsize == 0
      else zsize == |plain.value| <= |dst| && dst[..zsize] == plain.value
    case Use =>
      if level < 14 then
        if shuffled.None? then zsize == 0
        else |shuffled.value| <= |dst| && zsize == 0x8000_0000 + |shuffled.value|
             && dst[..|shuffled.value|] == shuffled.value
      else if shuffled.None? || plain.None? then zsize == 0
      else
        && (zsize >= 0x8000_0000 <==> |shuffled.value| < |plain.value|)
        && var n := if zsize >= 0x8000_0000 then zsize - 0x8000_0000 else zsize;
           n <= |shuffled.value| && n <= |plain.value| && n <= |dst|
           && dst[..n] == if zsize >= 0x8000_0000 then shuffled.value else plain.value
  }

  predicate IsPlain(plain: Option<bytes>, c: Compressed) {
    match plain
    case None => c.zsize == 0
    case Some(p) => c.zsize == |p| && c.payload == p
  }

  /** The outputs of the two codecs, whatever is compressed. */
  lemma CodecOutput(z: Zstd, model: Model, level: int, b: bytes)
    requires WithinCapacity(z) && |b| <= MAX_BLOCKSIZE
    ensures IsPlain(z.compress(b, level), PlainCodec(z, level).compress(b))
    ensures var c := ShuffleCodec(z, model, level).compress(b);
      Kept(level, Heuristic(z, model, b, level, if level >= 14 then -0.25 else 0.0),
           z.compress(ShuffledBlock(b), level), z.compress(b, level), c.zsize, c.payload)
  {
    hide ShuffledBlock, Heuristic;
    var shuffled, plain := z.compress(ShuffledBlock(b), level), z.compress(b, level);
    assert shuffled.Some? ==> |shuffled.value| <= MAX_ZBLOCKSIZE;
    assert plain.Some? ==> |plain.value| <= MAX_ZBLOCKSIZE;
    if shuffled.Some? {
      assert shuffled.value[..|shuffled.value|] == shuffled.value;
    }
    if plain.Some? {
      assert plain.value[..|plain.value|] == plain.value;
    }
  }

  // ---------- the classes ----------

  class ZstdShuffleCompressor {
    const z: Zstd
    const model: Model
    const path: Path
    const shuffleblock: array<byte>

    constructor (z: Zstd, model: Model, path: Path)
      ensures this.z == z && this.model == model && this.path == path
      ensures fresh(shuffleblock) && shuffleblock.Length == MAX_BLOCKSIZE
    {
      this.z, this.model, this.path := z, model, path;
      shuffleblock := new byte[MAX_BLOCKSIZE];
    }

    method UseShuffleHeuristic(src: bytes, level: int, threshold: real) returns (v: Verdict)
      requires shuffleblock.Length == MAX_BLOCKSIZE && |src| <= MAX_BLOCKSIZE
      modifies shuffleblock
      ensures v == Heuristic(z, model, src, level, threshold)
    {
      hide ShuffledBlock;
      if |src| < 8 * SHUFFLE_HEURISTIC_BLOCKSIZE {
        return DontUse;
      }
      var features: seq<nat> := [];
      var i := 0;
      while i < 4
        invariant i <= 4 && SampleSizes(z, src, i) == Some(features)
      {
        SampleInRange(|src|, i);
        var blockOffset := (|src| / 4) * i;
        var sample := src[blockOffset..blockOffset + SHUFFLE_HEURISTIC_BLOCKSIZE];
        assert sample == Sample(src, i);
        ShuffleInto(path, sample, shuffleblock);
        var shuf := z.compress(shuffleblock[..SHUFFLE_HEURISTIC_BLOCKSIZE], SHUFFLE_HEURISTIC_LEVEL);
        if shuf.None? {
          FailsThrough(z, src, i);
          return Failed;
        }
        var noshuf := z.compress(sample, SHUFFLE_HEURISTIC_LEVEL);
        if noshuf.None? {
          FailsThrough(z, src, i);
          return Failed;
        }
        features := features + [|shuf.value|, |noshuf.value|];
        i := i + 1;
      }
      v := if model(features, level) > threshold then Use else DontUse;
    }

    /** `dst` receives the compressed bytes; the result is their size word, or 0 for an error. */
    method Compress(dst: array<byte>, src: bytes, level: int) returns (zsize: nat)
      requires WithinCapacity(z) && shuffleblock.Length == MAX_BLOCKSIZE && 1 <= |src| <= MAX_BLOCKSIZE
      requires dst.Length == MAX_ZBLOCKSIZE && dst != shuffleblock
      modifies dst, shuffleblock
      ensures match CompressShuffle(z, model, level, src)
        case None => zsize == 0
        case Some(c) => zsize == c.zsize && |c.payload| <= dst.Length && dst[..|c.payload|] == c.payload
      ensures Kept(level, Heuristic(z, model, src, level, if level >= 14 then -0.25 else 0.0),
                   z.compress(ShuffledBlock(src), level), z.compress(src, level), zsize, dst[..])
    {
      hide ShuffledBlock, Heuristic;
      var threshold :=
        if level >= HIGH_COMPRESS_LEVEL_THRESHOLD then HIGH_HEURISTIC_THRESHOLD else LOW_HEURISTIC_THRESHOLD;
      var heuristic := UseShuffleHeuristic(src, level, threshold);
      if heuristic == Failed {
        return 0;
      }
      if heuristic == DontUse {
        var plain := z.compress(src, level);
        if plain.None? {
          return 0;
        }
        CopyIn(dst, 0, plain.value);
        return |plain.value|;
      }
      ShuffleInto(path, src, shuffleblock);
      var shuffled := z.compress(shuffleblock[..|src|], level);
      if level >= HIGH_COMPRESS_LEVEL_THRESHOLD {
        var plain := z.compress(src, level);
        if shuffled.None? || plain.None? {
          return 0;
        }
        CopyIn(dst, 0, plain.value);
        if |shuffled.value| < |plain.value| {
          CopyIn(dst, 0, shuffled.value);
          return |shuffled.value| + TWO_31;
        }
        return |plain.value|;
      }
      if shuffled.None? {
        return 0;
      }
      CopyIn(dst, 0, shuffled.value);
      return |shuffled.value| + TWO_31;
    }
  }

  lemma {:induction false} FailsThrough(z: Zstd, src: bytes, i: nat)
    requires |src| >= 8 * SHUFFLE_HEURISTIC_BLOCKSIZE && i < 4 && SampleSizes(z, src, i + 1).None?
    ensures SampleSizes(z, src, 4).None?
    decreases 4 - i
  {
    hide ShuffledBlock;
    if i < 3 {
      FailsThrough(z, src, i + 1);
    }
  }

  class ZstdShuffleDecompressor {
    const z: Zstd
    const path: Path
    const shuffleblock: array<byte>

    constructor (z: Zstd, path: Path)
      ensures this.z == z && this.path == path
      ensures fresh(shuffleblock) && shuffleblock.Length == MAX_BLOCKSIZE
    {
      this.z, this.path := z, path;
      shuffleblock := new byte[MAX_BLOCKSIZE];
    }

    /** `dst` receives the block; the result is its size, or 0 for an error. */
    method Decompress(dst: array<byte>, src: bytes, zsize: nat) returns (n: nat)
      requires shuffleblock.Length == MAX_BLOCKSIZE && dst.Length == MAX_BLOCKSIZE && dst != shuffleblock
      modifies dst, shuffleblock
      ensures match DecompressShuffle(z, zsize, src)
        case None => n == 0
        case Some(b) => n == |b| && dst[..n] == b
      ensures zsize % 0x8000_0000 > 1052672 && zsize < 0x1_0000_0000 ==> n == 0
      ensures z.decompress(src).None? ==> n == 0
    {
      hide UnshuffledBlock;
      var size := CompressedSize(zsize);
      if size > MAX_ZBLOCKSIZE {
        return 0;
      }
      match Decompressed(z, src)
      case None =>
        return 0;
      case Some(output) =>
        if zsize >= TWO_31 {
          CopyIn(shuffleblock, 0, output);
          assert shuffleblock[..|output|] == output;
          UnshuffleInto(path, shuffleblock[..|output|], dst);
        } else {
          CopyIn(dst, 0, output);
        }
        return |output|;
    }
  }

  /** The two facts about zstd are consistent: a tag byte in front of a copy has them. */
  const COPY: Zstd := Zstd((b: bytes, level: int) => Some([0] + b),
                           (p: bytes) => if p != [] && p[0] == 0 then Some(p[1..]) else None)

  lemma CopyIsSound()
    ensures SoundZstd(COPY)
  {
    forall b: bytes, level: int ensures COPY.decompress(COPY.compress(b, level).value) == Some(b) {
      assert ([0] + b)[1..] == b;
    }
  }
}
