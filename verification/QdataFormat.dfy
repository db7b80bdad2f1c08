/** Whole files: header, frames and checksum, written from an object and read back. */
module QdataFormat {
  import opened Bytes
  import opened BlockSpec
  import opened ReaderSpec
  import opened ObjectSpec
  import opened ObjectReaderSpec
  import opened PayloadRoundTrip
  import opened Xxh3Spec
  import opened Xxh3
  import opened MemoryStream
  import opened FileHeaders
  import opened FormatImage
  import opened FormatRules
  import opened BlockModule
  import opened BlockReaders
  import opened MultithreadedCalls
  import opened QdataSerializer
  import opened QdataDeserializer
  import MW = MultithreadedWriter
  import MR = MultithreadedReader
  import Xxh3Kernels
  import ZstdModule

  /** What the file says it is, and how it is hashed. The codec depends on the shuffle flag. */
  datatype Format<!A> = Format(codecs: bool -> Codec, k: Kernel<A>, secret: Secret)

  ghost predicate FormatOk<A>(f: Format<A>) {
    Sound(f.codecs(false)) && Sound(f.codecs(true))
  }

  function Checksum<A>(f: Format<A>, data: bytes): nat {
    NonZero(Xxh3Spec.Xxh3(f.k, f.secret, data)) as nat
  }

  ghost function Frames<A>(f: Format<A>, shuffle: bool, direct: Modes, x: Object): bytes {
    ScriptOk(direct, x);
    Stream(f.codecs(shuffle), Blocks(Script(direct, x)))
  }

  /** The file an object becomes. */
  ghost function FileOf<A>(f: Format<A>, shuffle: bool, direct: Modes, x: Object): bytes {
    FileHeader(shuffle, Checksum(f, Frames(f, shuffle, direct, x))) + Frames(f, shuffle, direct, x)
  }

  /** What reading a file gives. */
  function ReadFile<A>(f: Format<A>, data: bytes, validate: bool, max: nat): Result<Object> {
    var info :- ParseHeader(HeaderBits(data));
    var body := if |data| >= 24 then data[24..] else [];
    if validate && info.hash == 0 then Err(MissingChecksum)
    else if validate && Checksum(f, body) != info.hash then Err(ChecksumMismatch)
    else if max == 0 then Err(ZeroDepthLimit)
    else ReadObject(f.codecs(info.shuffle), body, max)
  }

  /** Everything the writer insists on. */
  ghost predicate Writable(x: Object, max: nat) {
    Depth(x) <= max && WithinLimits(x)
  }

  lemma BodyOf(head: bytes, body: bytes)
    requires |head| == 24
    ensures |head + body| >= 24 && (head + body)[24..] == body
  {
  }

  lemma ChecksumRange<A>(f: Format<A>, data: bytes)
    ensures 0 < Checksum(f, data) < TWO_64
  {
    hide Xxh3Spec.Xxh3;
  }

  /** Checksum validation of a written file always succeeds, so reading it is reading its frames. */
  lemma ValidationSucceeds<A>(f: Format<A>, shuffle: bool, direct: Modes, x: Object, validate: bool, max: nat)
    requires max >= 1
    ensures ReadFile(f, FileOf(f, shuffle, direct, x), validate, max)
         == ReadObject(f.codecs(shuffle), Frames(f, shuffle, direct, x), max)
  {
    hide ParseHeader, HeaderBits, FileHeader, ReadObject, Checksum, Frames;
    var body := Frames(f, shuffle, direct, x);
    var hash := Checksum(f, body);
    ChecksumRange(f, body);
    HeaderBack(shuffle, hash, body);
    BodyOf(FileHeader(shuffle, hash), body);
  }

  /** The object comes back exactly when the reader's own limits allow it. */
  lemma FileRoundTrip<A>(f: Format<A>, shuffle: bool, direct: Modes, x: Object, validate: bool, max: nat)
    requires FormatOk(f) && Typed(x) && WithinLimits(x) && max >= 1
    ensures var got := ReadFile(f, FileOf(f, shuffle, direct, x), validate, max);
      if Depth(x) <= max && AllFetchable(x) then got == Ok(x) else got.Err?
  {
    hide ReadFile, FileOf, ReadObject, Stream, AllFetchable, WithinLimits, Sound;
    ValidationSucceeds(f, shuffle, direct, x, validate, max);
    ObjectRoundTrip(f.codecs(shuffle), direct, x, max);
  }

  // ---------- writing ----------

  lemma WritableMeans(x: Object, max: nat)
    requires Typed(x)
    ensures Writable(x, max) <==> CheckObject(x, 0, max).Ok? && GroupsFit(Defer(NO_PAYLOADS, x))
    ensures GroupsTyped(Defer(NO_PAYLOADS, x))
  {
    CheckObjectMeans(x, 0, max);
    DeferWellQueued(NO_PAYLOADS, x);
    var q := Defer(NO_PAYLOADS, x);
    if GroupsFit(q) {
      forall k, i | 0 <= k < 5 && 0 <= i < |q[k]| ensures StringsFit(q[k][i]) {
        assert GroupFits(q[k]);
      }
    }
    if QueuesFit(q) {
      forall k | 0 <= k < 5 ensures GroupFits(q[k]) {
      }
    }
    forall k | 0 <= k < 5 ensures GroupTyped(q[k]) {
    }
  }

  /** write_single_thread */
  method WriteObject<A>(f: Format<A>, stream: MemoryWriter, x: Object, direct: Modes, shuffle: bool, max: nat)
    returns (r: Result<bv64>)
    requires FormatOk(f) && Typed(x) && stream.Valid()
    modifies stream, stream.buffer
    ensures r.Ok? ==> stream.Valid() && (stream.buffer == old(stream.buffer) || fresh(stream.buffer))
    ensures r.Ok? <==> Writable(x, max)
    ensures r.Ok? ==>
      stream.buffer[..stream.position] == old(stream.buffer[..stream.position]) + Frames(f, shuffle, direct, x)
    ensures r.Ok? && |Frames(f, shuffle, direct, x)| < TWO_64 ==>
      r.value as nat == Checksum(f, Frames(f, shuffle, direct, x))
  {
    hide BlockCompressWriter<A>.Valid, Wrote, Writable, CheckObject, GroupsFit, GroupsTyped, Structure, PayloadPass,
         Xxh3Spec.Xxh3, Stream, Sound, Defer;
    WritableMeans(x, max);
    var writer := new BlockCompressWriter(f.codecs(shuffle), stream, f.k, f.secret);
    ghost var head := writer.head;
    var serializer := new QdataStreamWriter(writer, max, direct);
    var structure :- serializer.WriteObject(x);
    ghost var w1 := writer.Abs();
    var payloads :- serializer.FlushPayloads();
    WroteThen(START, w1, writer.Abs(), Structure(x), PayloadPass(direct, Defer(NO_PAYLOADS, x)));
    assert BlockSpec.Flush(writer.Abs()).blocks == Blocks(Script(direct, x)) by {
      WroteMeans(writer.Abs(), Script(direct, x));
    }
    var hash := writer.Finish();
    writer.FileOk();
    r := Ok(hash);
  }

  lemma WroteMeans(w: Writer, items: seq<Item>)
    requires Wrote(START, w, items)
    ensures ItemsOk(items) && BlockSpec.Flush(w).blocks == Blocks(items)
  {
  }

  /** serialize: the whole file in memory. */
  method Serialize<A>(f: Format<A>, x: Object, direct: Modes, shuffle: bool, max: nat) returns (r: Result<bytes>)
    requires FormatOk(f) && Typed(x)
    ensures r.Ok? <==> max >= 1 && Writable(x, max)
    ensures r.Ok? ==> |r.value| == 24 + |Frames(f, shuffle, direct, x)|
    ensures r.Ok? ==> r.value[24..] == Frames(f, shuffle, direct, x)
    ensures r.Ok? && |Frames(f, shuffle, direct, x)| < TWO_64 ==> r.value == FileOf(f, shuffle, direct, x)
    ensures r.Ok? && |r.value| < TWO_64 ==> WrittenOut(f, shuffle, x, r.value)
  {
    hide WithinLimits, Depth, Frames, FormatOk, FileOf, WrittenOut;
    r := SerializeObject(f, x, direct, shuffle, max);
    if r.Ok? && |r.value| < TWO_64 {
      FileWrittenOut(f, shuffle, direct, x);
    }
  }

  /** Frames one after the other, each behind its size word, least significant byte first. */
  function Framed(c: Codec, bs: seq<bytes>): bytes {
    if bs == [] then []
    else Word32(c.compress(bs[0]).zsize) + c.compress(bs[0]).payload + Framed(c, bs[1..])
  }

  /** Blocks that `image` can have been cut into. */
  ghost predicate CutOf(bs: seq<bytes>, image: bytes) {
    && Concat(bs) == image
    && (forall i :: 0 <= i < |bs| ==> 1 <= |bs[i]| <= 1048576)
    && (forall i :: 0 <= i < |bs| - 1 ==> 1048512 < |bs[i]|)
  }

  /** The bytes of a file: its header with the digest of the rest, then the image of the object in framed blocks. An
      image that fits one block is one block. */
  ghost predicate WrittenOut<A>(f: Format<A>, shuffle: bool, x: Object, file: bytes) {
    && |file| >= 24
    && file[..24] == [0x0B, 0x0E, 0x0A, 0xCD, 1, 1, 2, if shuffle then 1 else 0, 0, 0, 0, 0, 0, 0, 0, 0]
                     + Word64(Digest(f, file))
    && (exists bs :: CutOf(bs, Image(x)) && file[24..] == Framed(f.codecs(shuffle), bs))
    && (1 <= |Image(x)| <= 1048512 ==> file[24..] == Framed(f.codecs(shuffle), [Image(x)]))
  }

  lemma FileWrittenOut<A>(f: Format<A>, shuffle: bool, direct: Modes, x: Object)
    requires WithinLimits(x)
    ensures WrittenOut(f, shuffle, x, FileOf(f, shuffle, direct, x))
  {
    hide FileHeader, Frames, Framed, CutOf, Image, Word64, Xxh3Spec.Xxh3;
    var frames := Frames(f, shuffle, direct, x);
    var hash := Checksum(f, frames);
    FileHeaderBytes(shuffle, hash);
    BodyOf(FileHeader(shuffle, hash), frames);
    assert FileOf(f, shuffle, direct, x)[..24] == FileHeader(shuffle, hash);
    FramesWritten(f, shuffle, direct, x);
  }

  lemma FramesWritten<A>(f: Format<A>, shuffle: bool, direct: Modes, x: Object)
    requires WithinLimits(x)
    ensures ItemsOk(Script(direct, x))
    ensures var bs := Blocks(Script(direct, x));
      && CutOf(bs, Image(x)) && Frames(f, shuffle, direct, x) == Framed(f.codecs(shuffle), bs)
      && (1 <= |Image(x)| <= 1048512 ==> bs == [Image(x)])
  {
    hide Image, Script, Blocks, Stream, Framed;
    BlocksAreImage(direct, x);
    var bs := Blocks(Script(direct, x));
    BlockSizesInBytes(Script(direct, x));
    StreamFramed(f.codecs(shuffle), bs);
  }

  lemma {:induction false} StreamFramed(c: Codec, bs: seq<bytes>)
    ensures Stream(c, bs) == Framed(c, bs)
    decreases |bs|
  {
    hide Word32, LE;
    if bs == [] {
    } else {
      WordBytes(c.compress(bs[0]).zsize);
      StreamFramed(c, bs[1..]);
    }
  }

  method SerializeObject<A>(f: Format<A>, x: Object, direct: Modes, shuffle: bool, max: nat) returns (r: Result<bytes>)
    requires FormatOk(f) && Typed(x)
    ensures r.Ok? <==> max >= 1 && Writable(x, max)
    ensures r.Ok? ==> |r.value| == 24 + |Frames(f, shuffle, direct, x)|
    ensures r.Ok? ==> r.value[24..] == Frames(f, shuffle, direct, x)
    ensures r.Ok? && |Frames(f, shuffle, direct, x)| < TWO_64 ==> r.value == FileOf(f, shuffle, direct, x)
  {
    hide Writable, Frames, Checksum, FormatOk, FileHeader, Overlay, LE;
    if max == 0 {
      return Err(ZeroDepthLimit);
    }
    var stream := new MemoryWriter();
    WriteQdataHeader(stream, shuffle);
    var hash :- WriteObject(f, stream, x, direct, shuffle, max);
    ghost var frames := Frames(f, shuffle, direct, x);
    var end := stream.position;
    ghost var written := stream.buffer[..];
    assert written[..end] == FileHeader(shuffle, 0) + frames;
    WriteQxHash(stream, hash);
    var ok := stream.SeekP(end);
    stream.Resize(end);
    r := Ok(stream.buffer[..]);
    HashInHeader(shuffle, written, end, frames, hash as nat);
  }

  lemma HashInHeader(shuffle: bool, written: bytes, end: nat, frames: bytes, hash: nat)
    requires end <= |written| && written[..end] == FileHeader(shuffle, 0) + frames
    ensures |written| >= 24 && end == 24 + |frames|
    ensures Overlay(written, HASH_POSITION, LE(hash, 8))[..end] == FileHeader(shuffle, hash) + frames
  {
    hide FileHeader;
    Backpatched(shuffle, hash, frames);
    var patch := LE(hash, 8);
    assert Overlay(written, HASH_POSITION, patch)[..end] == Overlay(written[..end], HASH_POSITION, patch);
  }

  // ---------- reading ----------

  /** A header this version reads, byte by byte. */
  predicate GoodHeader(data: bytes) {
    && |data| >= 24 && data[0] == 0x0B && data[1] == 0x0E && data[2] == 0x0A && data[3] == 0xCD
    && data[4] <= 1 && data[5] == 1 && data[6] == 2
  }

  /** The digest of everything behind the header; a digest of zero is replaced by one. */
  function Digest<A>(f: Format<A>, data: bytes): nat
    requires |data| >= 24
  {
    var h := Xxh3Spec.Xxh3(f.k, f.secret, data[24..]);
    if h == 0 then 1 else h as nat
  }

  /** What validation asks of a file, whatever the result of reading it is otherwise: an object is only returned if
      the stored hash is the digest, and without a hash or with another one there is the error that says so. */
  ghost predicate Validated<A>(f: Format<A>, data: bytes, r: Result<Object>) {
    && (r.Ok? ==> GoodHeader(data) && FromLE(data[16..24]) == Digest(f, data))
    && (GoodHeader(data) && FromLE(data[16..24]) == 0 ==> r == Err(MissingChecksum))
    && (GoodHeader(data) && FromLE(data[16..24]) != 0 && FromLE(data[16..24]) != Digest(f, data) ==>
          r == Err(ChecksumMismatch))
  }

  lemma HeaderIsGood(data: bytes)
    ensures |data| >= 24 ==> (ParseHeader(HeaderBits(data)).Ok? <==> GoodHeader(data))
    ensures GoodHeader(data) ==> ParseHeader(HeaderBits(data)) == Ok(Info(data[7] != 0, FromLE(data[16..24])))
  {
    hide FromLE;
    if |data| >= 24 {
      var h := HeaderBits(data);
      HeaderRefusals(h);
      assert h[16..24] == data[16..24];
    }
  }

  lemma NothingToRead(c: Codec, max: nat)
    ensures ReadObject(c, [], max).Err? && MR.Readable(c, [])
  {
    FrameRefusals(c, []);
    assert MR.FirstFrame([]) == Err(UnexpectedEndOfFile);
  }

  /** Reading, with or without threads, validates. */
  lemma ReadValidated<A>(f: Format<A>, data: bytes, max: nat, r: Result<Object>)
    requires r == ReadFile(f, data, true, max) || ReadThreaded(f, data, true, max, r)
    ensures Validated(f, data, r)
  {
    hide ReadObject, ParseHeader, HeaderBits, FromLE, Xxh3Spec.Xxh3, MR.Readable;
    HeaderIsGood(data);
    var info := ParseHeader(HeaderBits(data));
    if info.Ok? && |data| < 24 {
      NothingToRead(f.codecs(info.value.shuffle), max);
    }
  }

  /** read_single_thread behind read_qdata_object */
  method Deserialize<A>(f: Format<A>, data: bytes, validate: bool, max: nat) returns (r: Result<Object>)
    ensures |data| < TWO_64 ==> r == ReadFile(f, data, validate, max)
    ensures |data| < TWO_64 && validate ==> Validated(f, data, r)
  {
    hide ReadFile, Validated;
    r := ReadSingleThread(f, data, validate, max);
    if validate && |data| < TWO_64 {
      ReadValidated(f, data, max, r);
    }
  }

  method ReadSingleThread<A>(f: Format<A>, data: bytes, validate: bool, max: nat) returns (r: Result<Object>)
    ensures |data| < TWO_64 ==> r == ReadFile(f, data, validate, max)
  {
    hide BlockCompressReader<A>.Valid, ObjectReaderSpec.ReadObject, ParseHeader, Xxh3Spec.Xxh3, NonZero;
    var stream := new MemoryReader(data);
    assert stream.Unread() == data;
    var info :- ReadQdataHeader(stream);
    if validate {
      if info.hash == 0 {
        return Err(MissingChecksum);
      }
      var computed := ReadQxHash(stream, f.k, f.secret);
      if computed as nat != info.hash {
        return Err(ChecksumMismatch);
      }
    }
    if max == 0 {
      return Err(ZeroDepthLimit);
    }
    var reader := new BlockCompressReader(f.codecs(info.shuffle), stream, f.k, f.secret);
    var deserializer := new QdataDeserializer(SingleThreaded(reader), max);
    r := deserializer.ReadObject();
  }

  /** What reading with threads may give. Where work is cancelled, some error, but which one depends on the run. */
  ghost predicate ReadThreaded<A>(f: Format<A>, data: bytes, validate: bool, max: nat, r: Result<Object>) {
    var body := if |data| >= 24 then data[24..] else [];
    match ParseHeader(HeaderBits(data))
    case Err(e) => r == Err(e)
    case Ok(info) =>
      if validate && info.hash == 0 then r == Err(MissingChecksum)
      else if validate && Checksum(f, body) != info.hash then r == Err(ChecksumMismatch)
      else if max == 0 then r == Err(ZeroDepthLimit)
      else if !MR.Readable(f.codecs(info.shuffle), body) then r.Err?
      else
        match ReadObject(f.codecs(info.shuffle), body, max)
        case Ok(x) => r == Ok(x)
        case Err(e) => r == Err(Told(e))
  }

  /** read_multi_thread behind read_qdata_object. The blocks are those that every run of the pipeline delivers, and
      work is cancelled as FinishExact says; `finish` then throws, if no call has done so before. */
  method DeserializeThreads<A>(f: Format<A>, data: bytes, validate: bool, max: nat) returns (r: Result<Object>)
    ensures |data| < TWO_64 ==> ReadThreaded(f, data, validate, max, r)
    ensures |data| < TWO_64 && validate ==> Validated(f, data, r)
  {
    hide ReadThreaded, Validated;
    r := ReadMultiThread(f, data, validate, max);
    if validate && |data| < TWO_64 {
      ReadValidated(f, data, max, r);
    }
  }

  method ReadMultiThread<A>(f: Format<A>, data: bytes, validate: bool, max: nat) returns (r: Result<Object>)
    ensures |data| < TWO_64 ==> ReadThreaded(f, data, validate, max, r)
  {
    hide ObjectReaderSpec.ReadObject, ParseHeader, Xxh3Spec.Xxh3, NonZero, MR.Readable;
    var stream := new MemoryReader(data);
    assert stream.Unread() == data;
    var info :- ReadQdataHeader(stream);
    if validate {
      if info.hash == 0 {
        return Err(MissingChecksum);
      }
      var computed := ReadQxHash(stream, f.k, f.secret);
      if computed as nat != info.hash {
        return Err(ChecksumMismatch);
      }
    }
    if max == 0 {
      return Err(ZeroDepthLimit);
    }
    r := ReadFrames(f, f.codecs(info.shuffle), stream.buffer[stream.position..], max);
  }

  method ReadFrames<A>(f: Format<A>, codec: Codec, body: bytes, max: nat) returns (r: Result<Object>)
    requires max >= 1
    ensures if !MR.Readable(codec, body) then r.Err?
            else match ReadObject(codec, body, max)
                 case Ok(x) => r == Ok(x)
                 case Err(e) => r == Err(Told(e))
  {
    hide BlockCompressReaderMT.Valid, ObjectReaderSpec.ReadObject, MR.Readable, Supplies;
    if !MR.Readable(codec, body) {
      return Err(ReadFailure);
    }
    ReadableSupplies(codec, body);
    var reader := new BlockCompressReaderMT(codec, body, MR.AllBlocks(codec, body));
    var deserializer := new QdataDeserializer<A>(MultiThreaded(reader), max);
    r := deserializer.ReadObject();
  }

  /** What reading with threads gives is what reading without gives. The other way round it depends on the whole file:
      a frame behind the object that cannot be read fails the one and is not looked at by the other. */
  lemma ReadersAgree<A>(f: Format<A>, data: bytes, validate: bool, max: nat, r: Result<Object>)
    requires ReadThreaded(f, data, validate, max, r)
    ensures r.Ok? ==> ReadFile(f, data, validate, max) == r
    ensures ReadFile(f, data, validate, max).Ok? ==>
      var shuffle := ParseHeader(HeaderBits(data)).value.shuffle;
      r == ReadFile(f, data, validate, max) <==> MR.Readable(f.codecs(shuffle), if |data| >= 24 then data[24..] else [])
  {
    hide ParseHeader, HeaderBits, ReadObject, MR.Readable, Checksum;
  }

  /** A written object comes back with threads as it does without. */
  lemma FileRoundTripThreads<A>(f: Format<A>, shuffle: bool, direct: Modes, x: Object, validate: bool, max: nat,
                                r: Result<Object>)
    requires FormatOk(f) && Typed(x) && WithinLimits(x) && max >= 1
    requires ReadThreaded(f, FileOf(f, shuffle, direct, x), validate, max, r)
    ensures if Depth(x) <= max && AllFetchable(x) then r == Ok(x) else r.Err?
  {
    hide ReadFile, ReadThreaded, ReadObject, Stream, AllFetchable, WithinLimits, Sound, Checksum,
         MR.Readable, Script, Blocks;
    FileRoundTrip(f, shuffle, direct, x, validate, max);
    ReadersAgree(f, FileOf(f, shuffle, direct, x), validate, max, r);
    var body := Frames(f, shuffle, direct, x);
    var hash := Checksum(f, body);
    ChecksumRange(f, body);
    HeaderBack(shuffle, hash, body);
    BodyOf(FileHeader(shuffle, hash), body);
    ScriptOk(direct, x);
    BlockSizes(Script(direct, x));
    MR.StreamReadable(f.codecs(shuffle), Blocks(Script(direct, x)));
  }

  /** Both directions by the code itself. */
  method SerializeDeserialize<A>(f: Format<A>, x: Object, direct: Modes, shuffle: bool, validate: bool,
                                 max: nat, readMax: nat)
    returns (r: Result<Object>)
    requires FormatOk(f) && Typed(x) && Writable(x, max) && max >= 1 && readMax >= 1
    ensures |Frames(f, shuffle, direct, x)| + 24 < TWO_64 ==>
      if Depth(x) <= readMax && AllFetchable(x) then r == Ok(x) else r.Err?
  {
    hide Frames, FileOf, ReadFile, AllFetchable, WithinLimits;
    var file := Serialize(f, x, direct, shuffle, max);
    r := Deserialize(f, file.value, validate, readMax);
    FileRoundTrip(f, shuffle, direct, x, validate, readMax);
  }

  // ---------- zstd, XXH3 and threads ----------

  /** The format as the library sets it up: zstd with or without the byte shuffle, XXH3 with its default
      secret. */
  function ZstdFormat(z: ZstdModule.Zstd, model: ZstdModule.Model, level: int, short: bytes -> bv64)
    : Format<Xxh3Kernels.Lanes>
  {
    Format((shuffle: bool) =>
             if shuffle then ZstdModule.ShuffleCodec(z, model, level) else ZstdModule.PlainCodec(z, level),
           Xxh3Kernels.Xxh3Kernel(short), Xxh3Kernels.SECRET)
  }

  lemma ZstdFormatOk(z: ZstdModule.Zstd, model: ZstdModule.Model, level: int, short: bytes -> bv64)
    requires ZstdModule.SoundZstd(z)
    ensures FormatOk(ZstdFormat(z, model, level, short))
  {
    hide Sound, ZstdModule.ShuffleCodec, ZstdModule.PlainCodec;
    ZstdModule.CodecsSound(z, model, level);
  }

  /** The frames that any interleaving of the multithreaded writer leaves in the file for an object are those
      of the single-threaded writer. */
  lemma ThreadsWriteTheSameFrames<A>(f: Format<A>, shuffle: bool, direct: Modes, directMem: bool, x: Object,
                                     steps: seq<MW.Step>, t: MW.State)
    requires FormatOk(f)
    requires ItemsOk(Script(direct, x))
    requires MW.IsRun(MW.Config(f.codecs(shuffle), directMem), MW.Init(Script(direct, x)), steps, t) && MW.Finished(t)
    ensures t.out == Frames(f, shuffle, direct, x) && t.hashed == t.out
  {
    hide Sound, MW.IsRun, MW.Finished, Stream, Blocks;
    MW.SameAsSingleThreaded(MW.Config(f.codecs(shuffle), directMem), Script(direct, x), steps, t);
  }

  /** In any interleaving of the multithreaded reader on such a file the blocks come in the order in which the
      single-threaded reader meets them, nothing is cancelled, and the end comes after the last. */
  lemma ThreadsReadTheSameBlocks<A>(f: Format<A>, shuffle: bool, direct: Modes, x: Object,
                                    steps: seq<MR.Step>, t: MR.State)
    requires FormatOk(f)
    requires ItemsOk(Script(direct, x))
    requires MR.IsRun(f.codecs(shuffle), MR.Init(Frames(f, shuffle, direct, x)), steps, t)
    ensures !t.cancelled && t.delivered <= Blocks(Script(direct, x))
    ensures t.pc.RaisedEnd? ==> t.delivered == Blocks(Script(direct, x))
  {
    hide Sound, MR.IsRun, Stream, Blocks, Script;
    BlockSizes(Script(direct, x));
    MR.CompleteFile(f.codecs(shuffle), Blocks(Script(direct, x)), steps, t);
  }

  /** What the shuffle flag of the header selects: without it every block is plain zstd output at the level asked for;
      with it the output is the one Kept describes. */
  lemma FlagSelects(z: ZstdModule.Zstd, model: ZstdModule.Model, level: int, short: bytes -> bv64, b: bytes)
    requires ZstdModule.WithinCapacity(z) && |b| <= MAX_BLOCKSIZE
    ensures var c := ZstdFormat(z, model, level, short).codecs(false).compress(b);
      ZstdModule.IsPlain(z.compress(b, level), c)
    ensures var c := ZstdFormat(z, model, level, short).codecs(true).compress(b);
      var verdict := ZstdModule.Heuristic(z, model, b, level, if level >= 14 then -0.25 else 0.0);
      ZstdModule.Kept(level, verdict, z.compress(ZstdModule.ShuffledBlock(b), level), z.compress(b, level), c.zsize,
                      c.payload)
  {
    hide ZstdModule.Heuristic, ZstdModule.ShuffledBlock, ZstdModule.Kept, ZstdModule.ShuffleCodec,
         ZstdModule.PlainCodec;
    ZstdModule.CodecOutput(z, model, level, b);
  }
}
