/** What a caller of the multithreaded block reader gets: the calls work on the blocks that the sequencer
    hands over, and are proved equal to the functions the single-threaded reader is proved equal to. */
module MultithreadedCalls {
  import opened Bytes
  import opened BlockSpec
  import opened ReaderSpec
  import opened BlockModule
  import MR = MultithreadedReader

  /** `bs` is what the single-threaded reader gets from `input`, block by block, until there is no more. */
  ghost predicate Supplies(c: Codec, bs: seq<bytes>, input: bytes)
    decreases |bs|
  {
    if bs == [] then MR.OutOfInput(input)
    else
      var nb := NextBlock(c, input);
      nb.Ok? && nb.value.0 == bs[0] && Supplies(c, bs[1..], nb.value.1)
  }

  /** A readable file supplies its blocks, which MultithreadedReader.ReadableFile shows to be what any run on it
      delivers. */
  lemma {:induction false} ReadableSupplies(c: Codec, input: bytes)
    requires MR.Readable(c, input)
    ensures Supplies(c, MR.AllBlocks(c, input), input)
    decreases |input|
  {
    hide NextBlock, MR.FirstFrame;
    MR.FrameFits(input);
    MR.FramingErrors(input);
    MR.NextBlockOfFrame(c, input);
    match MR.FirstFrame(input)
    case Err(_) =>
    case Ok(f) =>
      var rest := input[4 + |f.payload|..];
      ReadableSupplies(c, rest);
      var b := c.decompress(f.word, f.payload).value;
      assert ([b] + MR.AllBlocks(c, rest))[1..] == MR.AllBlocks(c, rest);
  }

  /** A run that ends with "Unexpected end of file" and was not cancelled has delivered just what the
      single-threaded reader gets. */
  lemma RunSupplies(c: Codec, input: bytes, steps: seq<MR.Step>, t: MR.State)
    requires MR.IsRun(c, MR.Init(input), steps, t) && t.pc.RaisedEnd? && !t.cancelled
    ensures Supplies(c, t.delivered, input)
  {
    hide MR.IsRun, MR.Init, Supplies, MR.Readable, MR.AllBlocks;
    MR.EndOfReadable(c, input, steps, t);
    MR.ReadableFile(c, input, steps, t);
    ReadableSupplies(c, input);
  }

  /** How the multithreaded reader reports an error of the single-threaded one: it does not tell a frame that breaks
      off from the end of the file. */
  function Told(e: Error): Error {
    if e.TruncatedBlock? then UnexpectedEndOfFile else e
  }

  class BlockCompressReaderMT {
    ghost const codec: Codec
    ghost var unread: bytes           // the file behind the current block
    var sequenced: seq<bytes>         // the blocks still to come out of the sequencer
    var currentBlock: Rest
    var dataOffset: nat

    ghost predicate Valid()
      reads this
    {
      dataOffset <= |currentBlock| && Supplies(codec, sequenced, unread)
    }

    ghost function Abs(): (r: Reader)
      requires Valid()
      reads this
      ensures |r.cur| == |currentBlock| - dataOffset
    {
      Reader(currentBlock[dataOffset..|currentBlock|], unread)
    }

    constructor (ghost codec: Codec, ghost input: bytes, sequenced: seq<bytes>)
      requires Supplies(codec, sequenced, input)
      ensures Valid() && Abs() == Reader([], input) && this.codec == codec
    {
      this.codec, unread, this.sequenced := codec, input, sequenced;
      currentBlock, dataOffset := [], 0;
    }

    /** The same result, errors included. */
    ghost predicate Did<T>(r: Result<T>, spec: Result<(T, Reader)>)
      reads this
    {
      match r
      case Ok(v) => Valid() && spec == Ok((v, Abs()))
      case Err(e) => spec.Err? && e == Told(spec.error)
    }

    /** get_new_block, once the sequencer has the next block or the end is reached. */
    method GetNewBlock() returns (r: Result<Block>)
      requires Supplies(codec, sequenced, unread)
      modifies this`sequenced, this`currentBlock, this`unread
      ensures r.Err? ==> NextBlock(codec, old(unread)).Err? && r.error == Told(NextBlock(codec, old(unread)).error)
      ensures r.Ok? ==> Supplies(codec, sequenced, unread) && currentBlock == r.value
      ensures r.Ok? ==> NextBlock(codec, old(unread)) == Ok((r.value, unread))
    {
      hide NextBlock;
      if sequenced == [] {
        MR.NextBlockOfFrame(codec, unread);
        return Err(UnexpectedEndOfFile);
      }
      unread := NextBlock(codec, unread).value.1;
      currentBlock := sequenced[0];
      sequenced := sequenced[1..];
      return Ok(currentBlock);
    }

    method GetPodContiguous(n: nat) returns (r: Result<bytes>)
      requires Valid()
      modifies this`dataOffset
      ensures Did(r, ReaderSpec.GetPodContiguous(old(Abs()), n))
    {
      hide NextBlock, Supplies;
      if |currentBlock| - dataOffset < n {
        return Err(CorruptedBlock);
      }
      Slices(currentBlock, dataOffset, |currentBlock|, n);
      r := Ok(currentBlock[dataOffset..dataOffset + n]);
      dataOffset := dataOffset + n;
    }

    method GetPod(n: nat) returns (r: Result<bytes>)
      requires Valid()
      modifies this
      ensures Did(r, ReaderSpec.GetPod(codec, old(Abs()), n))
    {
      hide NextBlock, Supplies;
      if |currentBlock| == dataOffset {
        var b := GetNewBlock();
        if b.Err? {
          return Err(b.error);
        }
        dataOffset := 0;
        assert Abs().cur == b.value;
      } else {
        assert Abs().cur != [];
      }
      assert Valid() && Load(codec, old(Abs())) == Ok(Abs());
      r := GetPodContiguous(n);
    }

    /** A pointer into the current block, if the bytes are all there. */
    method GetPtr(n: nat) returns (ptr: Option<bytes>)
      requires Valid()
      modifies this`dataOffset
      ensures Valid()
      ensures match ptr
        case None => |old(Abs()).cur| < n && Abs() == old(Abs())
        case Some(data) => ReaderSpec.GetPodContiguous(old(Abs()), n) == Ok((data, Abs()))
    {
      hide NextBlock, Supplies;
      if |currentBlock| - dataOffset >= n {
        Slices(currentBlock, dataOffset, |currentBlock|, n);
        ptr := Some(currentBlock[dataOffset..dataOffset + n]);
        dataOffset := dataOffset + n;
      } else {
        ptr := None;
      }
    }

    /** Bulk reading into the `len` bytes of `out` from `from` on. Unlike the single-threaded reader this one
        copies every block; `bytesAccounted` is a 32-bit counter here too. */
    method GetData(out: array<byte>, from: nat, len: nat) returns (r: Result<()>)
      requires Valid() && from + len <= out.Length
      modifies this, out
      ensures out[..from] == old(out[..from]) && out[from + len..] == old(out[from + len..])
      ensures r.Ok? ==> Valid()
      ensures r.Ok? ==>
        GetDataInto(codec, old(Abs()), old(out[from..from + len])) == Ok((out[from..from + len], Abs()))
      ensures r.Err? ==> GetDataInto(codec, old(Abs()), old(out[from..from + len])).Err?
      ensures r.Err? ==> r.error == Told(GetDataInto(codec, old(Abs()), old(out[from..from + len])).error)
    {
      hide NextBlock, Overlay, Supplies;
      ghost var out0 := out[..];
      if |currentBlock| - dataOffset >= len {
        ghost var cur := Abs().cur;
        Slices(currentBlock, dataOffset, |currentBlock|, len);
        CopyIn(out, from, currentBlock[dataOffset..dataOffset + len]);
        OverlayAll(out0, from, len, currentBlock[dataOffset..dataOffset + len]);
        dataOffset := dataOffset + len;
        assert out[from..from + len] == cur[..len] && Abs().cur == cur[len..];
        return Ok(());
      }
      var bytesAccounted: nat := |currentBlock| - dataOffset;
      assert from + 0 == from;
      CopyIn(out, from, currentBlock[dataOffset..|currentBlock|]);
      OverlayRegion(out0, from, len, 0, currentBlock[dataOffset..|currentBlock|]);
      r := GetRest(out, from, len, bytesAccounted);
    }

    method GetRest(out: array<byte>, from: nat, len: nat, start: nat) returns (r: Result<()>)
      requires Supplies(codec, sequenced, unread)
      requires from + len <= out.Length && start < len && start < TWO_32
      modifies this, out
      ensures out[..from] == old(out[..from]) && out[from + len..] == old(out[from + len..])
      ensures r.Ok? ==> Valid()
      ensures r.Ok? ==>
        GetDirect(codec, old(unread), start, old(out[from..from + len])) == Ok((out[from..from + len], Abs()))
      ensures r.Err? ==> GetDirect(codec, old(unread), start, old(out[from..from + len])).Err?
      ensures r.Err? ==> r.error == Told(GetDirect(codec, old(unread), start, old(out[from..from + len])).error)
    {
      hide NextBlock, Overlay, GetDirect, Supplies;
      ghost var spec := GetDirect(codec, unread, start, out[from..from + len]);
      var bytesAccounted: nat := start;
      while len - bytesAccounted >= MAX_BLOCKSIZE
        invariant bytesAccounted < TWO_32 && bytesAccounted <= len
        invariant Supplies(codec, sequenced, unread)
        invariant bytesAccounted < len || dataOffset == |currentBlock|
        invariant GetDirect(codec, unread, bytesAccounted, out[from..from + len]) == spec
        invariant out[..from] == old(out[..from]) && out[from + len..] == old(out[from + len..])
        decreases |unread|
      {
        ghost var before, input := out[..], unread;
        DirectTurn(codec, input, bytesAccounted, out[from..from + len]);
        NextBlockShrinks(codec, input);
        var b := GetNewBlock();
        if b.Err? {
          return Err(b.error);
        }
        if |currentBlock| != MAX_BLOCKSIZE {
          return Err(CorruptedBlock);
        }
        CopyIn(out, from + bytesAccounted, currentBlock);
        OverlayRegion(before, from, len, bytesAccounted, currentBlock);
        bytesAccounted := Add32(bytesAccounted, MAX_BLOCKSIZE);
        dataOffset := MAX_BLOCKSIZE;
      }
      DirectEnd(codec, unread, bytesAccounted, out[from..from + len]);
      if len - bytesAccounted > 0 {
        ghost var before := out[..];
        var b := GetNewBlock();
        if b.Err? {
          return Err(b.error);
        }
        var rest := len - bytesAccounted;
        if |currentBlock| < rest {
          return Err(CorruptedBlock);
        }
        CopyIn(out, from + bytesAccounted, currentBlock[..rest]);
        OverlayRegion(before, from, len, bytesAccounted, currentBlock[..rest]);
        dataOffset := rest;
        assert Abs().cur == b.value[rest..];
      } else {
        assert Abs().cur == [];
      }
      return Ok(());
    }
  }
}
