/** The single-threaded block writer and block reader, as the classes of the source. */
module BlockModule {
  import opened Bytes
  import opened BlockSpec
  import opened ReaderSpec
  import opened Xxh3Spec
  import opened Xxh3
  import opened MemoryStream

  class BlockCompressWriter<!A> {
    const codec: Codec
    const file: MemoryWriter
    const hp: State<A>
    const block: array<byte>
    const zblock: array<byte>
    var currentBlocksize: nat
    // what the file held before, and the blocks that were compressed since
    ghost const head: bytes
    ghost var blocks: seq<bytes>

    ghost predicate Separate()
      reads this, file
    {
      && block != zblock && block != file.buffer && block != hp.buffer
      && zblock != file.buffer && zblock != hp.buffer && file.buffer != hp.buffer
    }

    /** The file holds the frames of the emitted blocks, and just these bytes were hashed. */
    ghost predicate Valid()
      reads this, file, file.buffer, hp, hp.buffer
    {
      && Separate() && Sound(codec)
      && block.Length == MAX_BLOCKSIZE && zblock.Length == MAX_ZBLOCKSIZE
      && currentBlocksize <= MAX_BLOCKSIZE
      && file.Valid() && hp.Valid()
      && hp.absorbed == Stream(codec, blocks)
      && file.buffer[..file.position] == head + hp.absorbed
    }

    ghost function Abs(): Writer
      requires Valid()
      reads this, block, file, file.buffer, hp, hp.buffer
    {
      Writer(blocks, block[..currentBlocksize])
    }

    ghost function Repr(): set<object>
      reads this, file
    {
      {this, block, zblock, file, file.buffer, hp, hp.buffer}
    }

    constructor (codec: Codec, file: MemoryWriter, k: Kernel<A>, secret: Secret)
      requires Sound(codec) && file.Valid()
      ensures Valid() && Abs() == START
      ensures fresh(block) && fresh(zblock) && fresh(hp) && fresh(hp.buffer)
      ensures this.codec == codec && this.file == file && hp.k == k && hp.secret == secret
      ensures head == file.buffer[..file.position]
    {
      this.codec, this.file := codec, file;
      hp := new State(k, secret);
      block := new byte[MAX_BLOCKSIZE];
      zblock := new byte[MAX_ZBLOCKSIZE];
      currentBlocksize := 0;
      head, blocks := file.buffer[..file.position], [];
    }

    lemma FileOk()
      requires Valid()
      ensures file.Valid()
    {
    }

    method WriteAndUpdate(data: bytes)
      requires file.Valid() && hp.Valid() && file.buffer != hp.buffer
      modifies file, file.buffer, hp, hp.buffer
      ensures file.Valid() && hp.Valid()
      ensures file.buffer == old(file.buffer) || fresh(file.buffer)
      ensures file.buffer[..file.position] == old(file.buffer[..file.position]) + data
      ensures hp.absorbed == old(hp.absorbed) + data
    {
      hide Overlay;
      ghost var buffer0, at := file.buffer[..], file.position;
      file.Write(data);
      WrittenPrefix(buffer0, file.buffer.Length - |buffer0|, at, data);
      hp.Update(data);
    }

    /** The compressed form of `src` in `zblock`, and its size word. */
    method Compress(src: bytes) returns (zsize: nat)
      requires Sound(codec) && 1 <= |src| <= MAX_BLOCKSIZE && zblock.Length == MAX_ZBLOCKSIZE
      modifies zblock
      ensures zsize == codec.compress(src).zsize
      ensures CompressedSize(zsize) <= zblock.Length
      ensures zblock[..CompressedSize(zsize)] == codec.compress(src).payload
    {
      var z := codec.compress(src);
      zsize := z.zsize;
      CopyIn(zblock, 0, z.payload);
    }

    /** Compresses one block and appends its frame to the file. */
    method Emit(src: bytes)
      requires Valid() && 1 <= |src| <= MAX_BLOCKSIZE
      modifies this`blocks, zblock, file, file.buffer, hp, hp.buffer
      ensures Valid() && blocks == old(blocks) + [src]
      ensures file.buffer == old(file.buffer) || fresh(file.buffer)
      ensures var z := codec.compress(src);
        file.buffer[..file.position] == old(file.buffer[..file.position]) + (Word32(z.zsize) + z.payload)
    {
      hide Sound, Stream, Represents, LE, Word32;
      WordBytes(codec.compress(src).zsize);
      ghost var before := hp.absorbed;
      var zsize := Compress(src);
      WriteAndUpdate(LE(zsize, 4));
      WriteAndUpdate(zblock[..CompressedSize(zsize)]);
      FrameInParts(head, before, LE(zsize, 4), codec.compress(src).payload);
      StreamSnoc(codec, blocks, src);
      blocks := blocks + [src];
    }

    method Flush()
      requires Valid()
      modifies this, zblock, file, file.buffer, hp, hp.buffer
      ensures Valid() && Abs() == BlockSpec.Flush(old(Abs()))
      ensures file.buffer == old(file.buffer) || fresh(file.buffer)
      ensures currentBlocksize == 0
      ensures var pending := old(Abs().pending);
        file.buffer[..file.position] == old(file.buffer[..file.position]) +
          if pending == [] then [] else Word32(codec.compress(pending).zsize) + codec.compress(pending).payload
    {
      hide Sound, Stream, Represents, Word32;
      if currentBlocksize > 0 {
        Emit(block[..currentBlocksize]);
        currentBlocksize := 0;
      }
    }

    /** A copy into the current block. */
    method Append(data: bytes)
      requires Valid() && currentBlocksize + |data| <= MAX_BLOCKSIZE
      modifies this`currentBlocksize, block
      ensures Valid() && Abs() == Writer(old(Abs()).blocks, old(Abs()).pending + data)
      ensures currentBlocksize == old(currentBlocksize) + |data|
    {
      hide Sound, Stream, Represents;
      CopyIn(block, currentBlocksize, data);
      currentBlocksize := currentBlocksize + |data|;
    }

    method PushPodContiguous(pod: bytes)
      requires Valid() && currentBlocksize + |pod| <= MAX_BLOCKSIZE
      modifies this`currentBlocksize, block
      ensures Valid() && Abs() == BlockSpec.PushPodContiguous(old(Abs()), pod)
    {
      hide Sound, Stream, Represents;
      Append(pod);
    }

    method PushPod(pod: bytes)
      requires Valid() && |pod| <= BLOCK_RESERVE
      modifies this, block, zblock, file, file.buffer, hp, hp.buffer
      ensures Valid() && Abs() == BlockSpec.PushPod(old(Abs()), pod)
      ensures file.buffer == old(file.buffer) || fresh(file.buffer)
      ensures currentBlocksize <= MIN_BLOCKSIZE + |pod|
    {
      hide Sound, Stream, Represents;
      ghost var w := Abs();
      assert |w.pending| == currentBlocksize;
      if currentBlocksize > MIN_BLOCKSIZE {
        Flush();
      }
      assert Abs() == if |w.pending| > MIN_BLOCKSIZE then BlockSpec.Flush(w) else w;
      Append(pod);
    }

    /** The first part of PushData: what still fits goes into the current block. */
    method TopUp(data: bytes) returns (consumed: nat)
      requires Valid()
      modifies this, block, zblock, file, file.buffer, hp, hp.buffer
      ensures Valid() && consumed <= |data|
      ensures BlockSpec.PushData(Abs(), data[consumed..]) == BlockSpec.PushData(old(Abs()), data)
      ensures currentBlocksize < MAX_BLOCKSIZE && (consumed < |data| ==> currentBlocksize == 0)
      ensures file.buffer == old(file.buffer) || fresh(file.buffer)
    {
      hide Sound, Stream, Represents, Cut, BlockSpec.PushData;
      FullFirst(Abs(), data);
      consumed := 0;
      if currentBlocksize >= MAX_BLOCKSIZE {
        Flush();
      }
      ghost var w := Abs();
      if currentBlocksize > 0 {
        var room := MAX_BLOCKSIZE - currentBlocksize;
        var addLength := if |data| < room then |data| else room;
        Append(data[..addLength]);
        consumed := addLength;
      }
      if currentBlocksize >= MAX_BLOCKSIZE {
        Flush();
      }
      AfterTopUp(w, Abs(), data, consumed);
    }

    method PushData(data: bytes)
      requires Valid()
      modifies this, block, zblock, file, file.buffer, hp, hp.buffer
      ensures Valid() && Abs() == BlockSpec.PushData(old(Abs()), data)
      ensures file.buffer == old(file.buffer) || fresh(file.buffer)
    {
      hide Sound, Stream, Represents, Cut, BlockSpec.PushData;
      ghost var w := Abs();
      var consumed := TopUp(data);
      while |data| - consumed >= MAX_BLOCKSIZE
        invariant consumed <= |data|
        invariant Valid()
        invariant file.buffer == old(file.buffer) || fresh(file.buffer)
        invariant currentBlocksize < MAX_BLOCKSIZE && (consumed < |data| ==> currentBlocksize == 0)
        invariant BlockSpec.PushData(Abs(), data[consumed..]) == BlockSpec.PushData(w, data)
      {
        DirectChunk(Abs(), data, consumed);
        Emit(data[consumed..consumed + MAX_BLOCKSIZE]);
        assert Abs().pending == [];
        consumed := consumed + MAX_BLOCKSIZE;
      }
      LastChunk(Abs(), data[consumed..]);
      if |data| - consumed > 0 {
        Append(data[consumed..]);
      }
    }

    /** Ends the stream and returns its checksum. */
    method Finish() returns (hash: bv64)
      requires Valid()
      modifies this, zblock, file, file.buffer, hp, hp.buffer
      ensures Valid() && Abs() == BlockSpec.Flush(old(Abs()))
      ensures file.buffer == old(file.buffer) || fresh(file.buffer)
      ensures file.buffer[..file.position] == head + Stream(codec, BlockSpec.Flush(old(Abs())).blocks)
      ensures |Stream(codec, blocks)| < TWO_64 ==>
        hash == NonZero(Xxh3Spec.Xxh3(hp.k, hp.secret, Stream(codec, blocks)))
    {
      hide Sound, Stream, Represents, Xxh3Spec.Xxh3;
      Flush();
      hash := hp.Digest();
      hash := NonZero(hash);
    }
  }

  lemma FrameInParts(head: bytes, before: bytes, size: bytes, payload: bytes)
    ensures (before + size) + payload == before + (size + payload)
    ensures ((head + before) + size) + payload == head + (before + (size + payload))
  {
  }

  /** A full block may be flushed before more data arrives. */
  lemma FullFirst(w: Writer, data: bytes)
    requires |w.pending| <= MAX_BLOCKSIZE
    ensures var w1 := if |w.pending| >= MAX_BLOCKSIZE then BlockSpec.Flush(w) else w;
      BlockSpec.PushData(w1, data) == BlockSpec.PushData(w, data)
  {
    if |w.pending| >= MAX_BLOCKSIZE {
      WriteFull(w, Data(data));
    }
  }

  function Min(a: nat, b: nat): nat {
    if a < b then a else b
  }

  lemma AfterTopUp(w: Writer, w1: Writer, data: bytes, n: nat)
    requires |w.pending| < MAX_BLOCKSIZE && n <= |data|
    requires n == if w.pending == [] then 0 else Min(|data|, MAX_BLOCKSIZE - |w.pending|)
    requires var filled := Writer(w.blocks, w.pending + data[..n]);
      w1 == if |filled.pending| >= MAX_BLOCKSIZE then BlockSpec.Flush(filled) else filled
    ensures BlockSpec.PushData(w1, data[n..]) == BlockSpec.PushData(w, data)
    ensures n < |data| ==> w1.pending == []
    ensures |w1.pending| < MAX_BLOCKSIZE
  {
    var filled := Writer(w.blocks, w.pending + data[..n]);
    FullFirst(filled, data[n..]);
    assert (w.pending + data[..n]) + data[n..] == w.pending + data;
  }

  lemma DirectChunk(w: Writer, data: bytes, at: nat)
    requires w.pending == [] && at + MAX_BLOCKSIZE <= |data|
    ensures BlockSpec.PushData(w, data[at..])
         == BlockSpec.PushData(Writer(w.blocks + [data[at..at + MAX_BLOCKSIZE]], []), data[at + MAX_BLOCKSIZE..])
  {
    var d := data[at..];
    assert w.pending + d == d && [] + d[MAX_BLOCKSIZE..] == d[MAX_BLOCKSIZE..];
    assert d[..MAX_BLOCKSIZE] == data[at..at + MAX_BLOCKSIZE];
    assert d[MAX_BLOCKSIZE..] == data[at + MAX_BLOCKSIZE..];
    var c := Cut(d[MAX_BLOCKSIZE..]);
    Assoc(w.blocks, [d[..MAX_BLOCKSIZE]], c.0);
  }

  lemma LastChunk(w: Writer, d: bytes)
    requires |w.pending| + |d| < MAX_BLOCKSIZE
    ensures BlockSpec.PushData(w, d) == Writer(w.blocks, w.pending + d)
  {
  }

  // ---------- reading ----------

  class BlockCompressReader<!A> {
    const codec: Codec
    const file: MemoryReader
    const hp: State<A>
    const block: array<byte>
    const zblock: array<byte>
    var currentBlocksize: nat
    var dataOffset: nat
    ghost const start: nat

    /** The buffers are in place, and just what was read from the file was hashed. */
    ghost predicate Ready()
      reads this, file, hp, hp.buffer
    {
      && block != zblock && block != hp.buffer && zblock != hp.buffer
      && block.Length == MAX_BLOCKSIZE && zblock.Length == MAX_ZBLOCKSIZE
      && file.Valid() && hp.Valid()
      && start <= file.position
      && hp.absorbed == file.buffer[start..file.position]
    }

    ghost predicate Valid()
      reads this, file, hp, hp.buffer
    {
      Ready() && dataOffset <= currentBlocksize <= MAX_BLOCKSIZE
    }

    ghost function Abs(): (r: Reader)
      requires Valid()
      reads this, block, file, hp, hp.buffer
      ensures |r.cur| == currentBlocksize - dataOffset
    {
      Reader(block[dataOffset..currentBlocksize], file.Unread())
    }

    ghost function Repr(): set<object> {
      {this, block, zblock, file, hp, hp.buffer}
    }

    constructor (codec: Codec, file: MemoryReader, k: Kernel<A>, secret: Secret)
      requires file.Valid()
      ensures Valid() && Abs() == Reader([], file.Unread())
      ensures fresh(block) && fresh(zblock) && fresh(hp) && fresh(hp.buffer)
      ensures this.codec == codec && this.file == file && hp.k == k && hp.secret == secret
    {
      this.codec, this.file, start := codec, file, file.position;
      hp := new State(k, secret);
      block := new byte[MAX_BLOCKSIZE];
      zblock := new byte[MAX_ZBLOCKSIZE];
      currentBlocksize, dataOffset := 0, 0;
    }

    /** Hashes what was just read. */
    method HashLast(data: bytes)
      requires file.Valid() && hp.Valid() && start + |data| <= file.position
      requires data == file.buffer[file.position - |data|..file.position]
      requires hp.absorbed == file.buffer[start..file.position - |data|]
      modifies hp, hp.buffer
      ensures hp.Valid() && hp.absorbed == file.buffer[start..file.position]
    {
      hide Represents;
      hp.Update(data);
      assert file.buffer[start..file.position] == file.buffer[start..file.position - |data|] + data;
    }

    /** One frame from the file, decompressed. */
    method ReadFrame() returns (r: Result<Block>)
      requires Ready()
      modifies zblock, file, hp, hp.buffer
      ensures file.Valid()
      ensures r.Err? <==> NextBlock(codec, old(file.Unread())).Err?
      ensures r.Err? ==> NextBlock(codec, old(file.Unread())) == Err(r.error)
      ensures r.Ok? ==> Ready() && NextBlock(codec, old(file.Unread())) == Ok((r.value, file.Unread()))
    {
      hide Represents, NextBlock, Overlay;
      ghost var input := file.Unread();
      var word := file.Read(4);
      if |word| != 4 {
        ShortInput(codec, input);
        return Err(UnexpectedEndOfFile);
      }
      ghost var rest := file.Unread();
      FrameCases(codec, input, word, rest);
      var zsize := FromLE(word);
      var zbytes := CompressedSize(zsize);
      if zbytes > MAX_ZBLOCKSIZE {
        return Err(BlockTooLarge);
      }
      HashLast(word);
      var payload := file.Read(zbytes);
      CopyIn(zblock, 0, payload);
      OverlayAll(old(zblock[..]), 0, |payload|, payload);
      if |payload| != zbytes {
        return Err(TruncatedBlock);
      }
      HashLast(payload);
      assert rest[..zbytes] == payload && rest[zbytes..] == file.Unread();
      match codec.decompress(zsize, zblock[0..zbytes])
      case None =>
        return Err(DecompressionError);
      case Some(b) =>
        return Ok(b);
    }

    method DecompressBlock() returns (r: Result<Block>)
      requires Ready()
      modifies this`currentBlocksize, block, zblock, file, hp, hp.buffer
      ensures r.Err? <==> NextBlock(codec, old(file.Unread())).Err?
      ensures r.Err? ==> NextBlock(codec, old(file.Unread())) == Err(r.error)
      ensures file.Valid()
      ensures r.Ok? ==> Ready() && currentBlocksize == |r.value| && block[..currentBlocksize] == r.value
      ensures r.Ok? ==> NextBlock(codec, old(file.Unread())) == Ok((r.value, file.Unread()))
    {
      hide Represents, NextBlock;
      r := ReadFrame();
      if r.Ok? {
        CopyIn(block, 0, r.value);
        currentBlocksize := |r.value|;
      }
    }

    /** Decompresses straight into the caller's memory. */
    method DecompressDirect(out: array<byte>, at: nat) returns (r: Result<Block>)
      requires Ready() && at + MAX_BLOCKSIZE <= out.Length
      requires out != block && out != zblock && out != hp.buffer
      modifies this`currentBlocksize, out, zblock, file, hp, hp.buffer
      ensures r.Err? <==> NextBlock(codec, old(file.Unread())).Err?
      ensures r.Err? ==> NextBlock(codec, old(file.Unread())) == Err(r.error)
      ensures file.Valid()
      ensures r.Ok? ==> Ready() && currentBlocksize == |r.value|
      ensures out[..] == if r.Ok? then Overlay(old(out[..]), at, r.value) else old(out[..])
      ensures r.Ok? ==> NextBlock(codec, old(file.Unread())) == Ok((r.value, file.Unread()))
    {
      hide Represents, NextBlock;
      r := ReadFrame();
      if r.Ok? {
        CopyIn(out, at, r.value);
        currentBlocksize := |r.value|;
      }
    }

    /** What a reading method did, against the function that says what it should do. */
    ghost predicate Did<T>(r: Result<T>, spec: Result<(T, Reader)>)
      reads this, block, file, hp, hp.buffer
    {
      match r
      case Ok(v) => Valid() && spec == Ok((v, Abs()))
      case Err(e) => spec == Err(e)
    }

    method GetPodContiguous(n: nat) returns (r: Result<bytes>)
      requires Valid()
      modifies this`dataOffset
      ensures Did(r, ReaderSpec.GetPodContiguous(old(Abs()), n))
    {
      hide Represents;
      if currentBlocksize - dataOffset < n {
        return Err(CorruptedBlock);
      }
      ghost var cur := Abs().cur;
      Slices(block[..], dataOffset, currentBlocksize, n);
      var pod := block[dataOffset..dataOffset + n];
      dataOffset := dataOffset + n;
      assert pod == cur[..n] && Abs().cur == cur[n..];
      return Ok(pod);
    }

    method GetPod(n: nat) returns (r: Result<bytes>)
      requires Valid()
      modifies this, block, zblock, file, hp, hp.buffer
      ensures Did(r, ReaderSpec.GetPod(codec, old(Abs()), n))
    {
      hide Represents, NextBlock;
      if currentBlocksize == dataOffset {
        var b := DecompressBlock();
        if b.Err? {
          return Err(b.error);
        }
        dataOffset := 0;
      }
      assert Valid() && Load(codec, old(Abs())) == Ok(Abs());
      r := GetPodContiguous(n);
    }

    /** A pointer into the current block, if the bytes are all there. */
    method GetPtr(n: nat) returns (ptr: Option<bytes>)
      requires Valid()
      modifies this`dataOffset
      ensures Valid()
      ensures match ptr
        case None => |old(Abs()).cur| < n && Abs() == old(Abs())
        case Some(data) => ReaderSpec.GetPodContiguous(old(Abs()), n) == Ok((data, Abs()))
    {
      hide Represents;
      if currentBlocksize - dataOffset >= n {
        ghost var cur := Abs().cur;
        Slices(block[..], dataOffset, currentBlocksize, n);
        ptr := Some(block[dataOffset..dataOffset + n]);
        dataOffset := dataOffset + n;
        assert ptr.value == cur[..n] && Abs().cur == cur[n..];
      } else {
        ptr := None;
      }
    }

    /** Bulk reading into the `len` bytes of `out` from `from` on; `bytesAccounted` is a 32-bit counter. */
    method GetData(out: array<byte>, from: nat, len: nat) returns (r: Result<()>)
      requires Valid() && from + len <= out.Length
      requires out != block && out != zblock && out != hp.buffer
      modifies this, out, block, zblock, file, hp, hp.buffer
      ensures out[..from] == old(out[..from]) && out[from + len..] == old(out[from + len..])
      ensures r.Ok? ==> Valid()
      ensures r.Ok? ==>
        GetDataInto(codec, old(Abs()), old(out[from..from + len])) == Ok((out[from..from + len], Abs()))
      ensures r.Err? ==> GetDataInto(codec, old(Abs()), old(out[from..from + len])) == Err(r.error)
    {
      hide Represents, NextBlock, Overlay;
      ghost var out0 := out[..];
      if currentBlocksize - dataOffset >= len {
        ghost var cur := Abs().cur;
        Slices(block[..], dataOffset, currentBlocksize, len);
        CopyIn(out, from, block[dataOffset..dataOffset + len]);
        OverlayAll(out0, from, len, block[dataOffset..dataOffset + len]);
        dataOffset := dataOffset + len;
        assert out[from..from + len] == cur[..len] && Abs().cur == cur[len..];
        return Ok(());
      }
      var bytesAccounted: nat := currentBlocksize - dataOffset;
      assert from + 0 == from;
      CopyIn(out, from, block[dataOffset..currentBlocksize]);
      OverlayRegion(out0, from, len, 0, block[dataOffset..currentBlocksize]);
      r := GetRest(out, from, len, bytesAccounted);
    }

    /** The loop of bulk reading over whole blocks, and the block that is only read in part. */
    method GetRest(out: array<byte>, from: nat, len: nat, start: nat) returns (r: Result<()>)
      requires Ready() && from + len <= out.Length && start < len && start < TWO_32
      requires out != block && out != zblock && out != hp.buffer
      modifies this, out, block, zblock, file, hp, hp.buffer
      ensures out[..from] == old(out[..from]) && out[from + len..] == old(out[from + len..])
      ensures r.Ok? ==> Valid()
      ensures r.Ok? ==>
        GetDirect(codec, old(file.Unread()), start, old(out[from..from + len])) == Ok((out[from..from + len], Abs()))
      ensures r.Err? ==> GetDirect(codec, old(file.Unread()), start, old(out[from..from + len])) == Err(r.error)
    {
      hide Represents, NextBlock, Overlay, GetDirect;
      ghost var spec := GetDirect(codec, file.Unread(), start, out[from..from + len]);
      var bytesAccounted: nat := start;
      while len - bytesAccounted >= MAX_BLOCKSIZE
        invariant bytesAccounted < TWO_32 && bytesAccounted <= len
        invariant Ready()
        invariant bytesAccounted < len || dataOffset == currentBlocksize == MAX_BLOCKSIZE
        invariant GetDirect(codec, file.Unread(), bytesAccounted, out[from..from + len]) == spec
        invariant out[..from] == old(out[..from]) && out[from + len..] == old(out[from + len..])
        decreases |file.Unread()|
      {
        ghost var before, input := out[..], file.Unread();
        DirectTurn(codec, input, bytesAccounted, out[from..from + len]);
        var b := DecompressDirect(out, from + bytesAccounted);
        if b.Err? {
          return Err(b.error);
        }
        OverlayRegion(before, from, len, bytesAccounted, b.value);
        if currentBlocksize != MAX_BLOCKSIZE {
          return Err(CorruptedBlock);
        }
        NextBlockShrinks(codec, input);
        bytesAccounted := Add32(bytesAccounted, MAX_BLOCKSIZE);
        dataOffset := MAX_BLOCKSIZE;
      }
      DirectEnd(codec, file.Unread(), bytesAccounted, out[from..from + len]);
      if len - bytesAccounted > 0 {
        ghost var before := out[..];
        var b := DecompressBlock();
        if b.Err? {
          return Err(b.error);
        }
        var rest := len - bytesAccounted;
        if currentBlocksize < rest {
          return Err(CorruptedBlock);
        }
        CopyIn(out, from + bytesAccounted, block[..rest]);
        OverlayRegion(before, from, len, bytesAccounted, block[..rest]);
        dataOffset := rest;
        assert block[..rest] == b.value[..rest] && Abs().cur == b.value[rest..];
      } else {
        assert Abs().cur == [];
      }
      return Ok(());
    }
  }

  lemma Slices(mem: bytes, from: nat, to: nat, n: nat)
    requires from + n <= to <= |mem|
    ensures mem[from..to][..n] == mem[from..from + n] && mem[from..to][n..] == mem[from + n..to]
  {
  }

  lemma OverlayRegion(out: bytes, from: nat, len: nat, at: nat, b: bytes)
    requires from + len <= |out| && at + |b| <= len
    ensures var o := Overlay(out, from + at, b);
      && o[from..from + len] == Overlay(out[from..from + len], at, b)
      && o[..from] == out[..from] && o[from + len..] == out[from + len..]
  {
  }

  lemma OverlayAll(out: bytes, from: nat, len: nat, b: bytes)
    requires from + len <= |out| && |b| == len
    ensures var o := Overlay(out, from, b);
      o[from..from + len] == b && o[..from] == out[..from] && o[from + len..] == out[from + len..]
  {
  }

  lemma DirectTurn(c: Codec, input: bytes, acct: nat, out: bytes)
    requires acct < TWO_32 && acct + MAX_BLOCKSIZE <= |out|
    ensures var nb := NextBlock(c, input);
      GetDirect(c, input, acct, out) ==
        if nb.Err? then Err(nb.error)
        else if |nb.value.0| != MAX_BLOCKSIZE then Err(CorruptedBlock)
        else GetDirect(c, nb.value.1, Add32(acct, MAX_BLOCKSIZE), Overlay(out, acct, nb.value.0))
  {
  }

  lemma DirectEnd(c: Codec, input: bytes, acct: nat, out: bytes)
    requires acct < TWO_32 && acct <= |out| < acct + MAX_BLOCKSIZE
    ensures |out| == acct ==> GetDirect(c, input, acct, out) == Ok((out, Reader([], input)))
    ensures |out| > acct ==>
      var nb, rest := NextBlock(c, input), |out| - acct;
      GetDirect(c, input, acct, out) ==
        if nb.Err? then Err(nb.error)
        else if |nb.value.0| < rest then Err(CorruptedBlock)
        else Ok((Overlay(out, acct, nb.value.0[..rest]), Reader(nb.value.0[rest..], nb.value.1)))
  {
  }

  lemma ShortInput(c: Codec, input: bytes)
    requires |input| < 4
    ensures NextBlock(c, input) == Err(UnexpectedEndOfFile)
  {
  }

  lemma FrameCases(c: Codec, input: bytes, word: bytes, rest: bytes)
    requires |word| == 4 && word + rest == input
    ensures NextBlock(c, input) ==
      var n := CompressedSize(FromLE(word));
      if n > MAX_ZBLOCKSIZE then Err(BlockTooLarge)
      else if |rest| < n then Err(TruncatedBlock)
      else match c.decompress(FromLE(word), rest[..n])
      case None => Err(DecompressionError)
      case Some(b) => Ok((b, rest[n..]))
  {
    var n := CompressedSize(FromLE(word));
    assert input[..4] == word;
    if |rest| >= n {
      assert input[4..4 + n] == rest[..n] && input[4 + n..] == rest[n..];
    }
  }
}
