/** What the format refuses and where its limits lie, on bytes and numbers written out. */
module FormatRules {
  import opened Bytes
  import opened BlockSpec
  import opened ReaderSpec
  import opened ObjectSpec
  import opened ObjectReaderSpec
  import opened FormatBytes
  import opened FileHeaders
  import opened MemoryStream
  import opened QdataSerializer

  // ---------- file headers ----------

  /** The header of a file: magic number, version, compression, byte order, shuffle flag, reserved bytes, hash. */
  lemma FileHeaderBytes(shuffle: bool, hash: nat)
    ensures FileHeader(shuffle, hash)
         == [0x0B, 0x0E, 0x0A, 0xCD, 1, 1, 2, if shuffle then 1 else 0, 0, 0, 0, 0, 0, 0, 0, 0] + Word64(hash)
  {
    hide LE, Word64;
    WordBytes(hash);
    assert Zeros(8) == [0, 0, 0, 0, 0, 0, 0, 0];
  }

  /** What each byte of a header is refused for, in this order, and what it says otherwise. */
  lemma HeaderRefusals(h: bytes)
    requires |h| == 24
    ensures h[0] != 0x0B || h[1] != 0x0E || h[2] != 0x0A ==> ParseHeader(h) == Err(UnknownFormat)
    ensures h[0] == 0x0B && h[1] == 0x0E && h[2] == 0x0A ==>
      && (h[3] == 0xC1 || h[3] == 0x0C ==> ParseHeader(h) == Err(ForeignFormat))
      && (h[3] != 0xC1 && h[3] != 0x0C && h[3] != 0xCD ==> ParseHeader(h) == Err(UnknownFormat))
    ensures h[0] == 0x0B && h[1] == 0x0E && h[2] == 0x0A && h[3] == 0xCD ==>
      && (h[4] > 1 ==> ParseHeader(h) == Err(NewerFormat))
      && (h[4] <= 1 && h[5] != 1 ==> ParseHeader(h) == Err(UnknownCompression))
      && (h[4] <= 1 && h[5] == 1 && h[6] != 2 ==> ParseHeader(h) == Err(EndianMismatch))
      && (h[4] <= 1 && h[5] == 1 && h[6] == 2 ==> ParseHeader(h) == Ok(Info(h[7] != 0, FromLE(h[16..24]))))
  {
    hide FromLE;
    assert h[..4] == [h[0], h[1], h[2], h[3]];
  }

  /** A file of less than 24 bytes is read as if zeros followed, so without its first four bytes it is refused, and
      without its first seven too. */
  lemma ShortFileRefused(data: bytes)
    requires |data| < 7
    ensures ParseHeader(HeaderBits(data)).Err?
  {
    var h := HeaderBits(data);
    assert h[6] == 0;
    HeaderRefusals(h);
  }

  // ---------- frames ----------

  /** The errors of reading a frame, by its size word without the top bit. */
  lemma FrameRefusals(c: Codec, input: bytes)
    ensures |input| < 4 ==> NextBlock(c, input) == Err(UnexpectedEndOfFile)
    ensures |input| >= 4 ==>
      var word := input[0] as nat + 0x100 * (input[1] as nat) + 0x1_0000 * (input[2] as nat)
                + 0x100_0000 * (input[3] as nat);
      var size := word % 0x8000_0000;
      && (size > 1052672 ==> NextBlock(c, input) == Err(BlockTooLarge))
      && (size <= 1052672 && |input| - 4 < size ==> NextBlock(c, input) == Err(TruncatedBlock))
      && (size <= 1052672 && |input| - 4 >= size ==>
            match c.decompress(word, input[4..4 + size])
            case None => NextBlock(c, input) == Err(DecompressionError)
            case Some(b) => NextBlock(c, input) == Ok((b, input[4 + size..])))
  {
    if |input| >= 4 {
      WordValues(input[0], input[1], input[2], input[3], 0, 0, 0, 0);
      assert input[..4] == [input[0], input[1], input[2], input[3]];
      TopBit(FromLE(input[..4]));
    }
  }

  lemma TopBit(word: nat)
    requires word < 0x1_0000_0000
    ensures CompressedSize(word) == word % 0x8000_0000
  {
  }

  // ---------- blocks ----------

  /** A header run starts a new block exactly when more than 2^20 - 64 bytes are pending. */
  lemma RunsFlushEarly(w: Writer, pods: seq<bytes>)
    requires ItemOk(Run(pods))
    ensures Write(w, Run(pods)) ==
      if |w.pending| > 1048512 then Writer(w.blocks + [w.pending], Concat(pods))
      else Writer(w.blocks, w.pending + Concat(pods))
  {
    RunEffect(w, pods);
  }

  /** The sizes of blocks. */
  lemma BlockSizesInBytes(items: seq<Item>)
    requires ItemsOk(items)
    ensures forall i :: 0 <= i < |Blocks(items)| ==> 1 <= |Blocks(items)[i]| <= 1048576
    ensures forall i :: 0 <= i < |Blocks(items)| - 1 ==> 1048512 < |Blocks(items)[i]|
  {
    BlockSizes(items);
  }

  // ---------- strings and names ----------

  /** How a string header is read: lengths up to 252 as they are, 253 and 254 before wider ones, 255 for NA. */
  lemma StringHeaderRead(c: Codec, r: Reader)
    requires |r.cur| >= 5
    ensures var n, b := ReadStringHeader(c, r), r.cur;
      && (b[0] < 253 ==> n == Ok((b[0] as nat, Reader(b[1..], r.input))))
      && (b[0] == 253 ==> n == Ok((b[1] as nat + 0x100 * (b[2] as nat), Reader(b[3..], r.input))))
      && (b[0] == 254 ==> n == Ok((b[1] as nat + 0x100 * (b[2] as nat) + 0x1_0000 * (b[3] as nat)
                                  + 0x100_0000 * (b[4] as nat), Reader(b[5..], r.input))))
      && (b[0] == 255 ==> n == Ok((4294967295, Reader(b[1..], r.input))))
  {
    hide FromLE;
    var b := r.cur;
    WordValues(b[1], b[2], b[3], b[4], 0, 0, 0, 0);
    assert b[..1] == [b[0]];
    assert b[1..][..2] == [b[1], b[2]] && b[1..][..4] == [b[1], b[2], b[3], b[4]];
    assert b[1..][2..] == b[3..] && b[1..][4..] == b[5..];
  }

  /** Attribute names are never NA and never longer than 2^31 - 1 bytes; strings are held to the same length. */
  lemma NameRefusals(c: Codec, r: Reader)
    requires ReadStringHeader(c, r).Ok?
    ensures var n := ReadStringHeader(c, r).value.0;
      && (n == 4294967295 ==> ReadName(c, r) == Err(MissingAttributeName))
      && (2147483647 < n < 4294967295 ==> ReadName(c, r) == Err(LengthLimit) && ReadString(c, r) == Err(LengthLimit))
  {
    hide ReadStringHeader;
  }

  // ---------- limits ----------

  /** The writer's limits on a vector, a list and a name: 2^52 elements, 2^31 - 1 attributes, 2^31 - 1 bytes. */
  lemma WriterLimits(x: Object, depth: nat, max: nat)
    requires depth < max
    ensures x.Vector? && (Size(x.payload) > 4503599627370496 || |x.attrs| > 2147483647) ==>
      CheckObject(x, depth, max) == Err(LengthLimit)
    ensures x.List? && (|x.items| > 4503599627370496 || |x.attrs| > 2147483647) ==>
      CheckObject(x, depth, max) == Err(LengthLimit)
    ensures x.Vector? && x.attrs == [] && Size(x.payload) <= 4503599627370496 ==> CheckObject(x, depth, max) == Ok(())
    ensures x.Vector? && x.attrs != [] && |x.attrs[0].name| > 2147483647 ==>
      CheckObject(x, depth, max) == Err(LengthLimit)
  {
    match x
    case Nil =>
    case Vector(_, _, attrs) => FirstName(attrs, depth + 1, max);
    case List(_, _) =>
  }

  lemma FirstName(attrs: seq<Attribute>, depth: nat, max: nat)
    ensures attrs == [] ==> CheckAttrs(attrs, depth, max) == Ok(())
    ensures attrs != [] && |attrs[0].name| > 2147483647 ==> CheckAttrs(attrs, depth, max) == Err(LengthLimit)
  {
  }

  /** The reader's limits, on a header that was read. */
  lemma ReaderLimits(c: Codec, r: Reader, q: Slots, depth: nat, max: nat)
    requires depth < max && ReadHeader(c, r).Ok?
    ensures var h := ReadHeader(c, r).value;
      (h.tag.VECTOR? || h.tag == LIST) && h.attrs > 2147483647 ==> ReadInto(c, r, q, depth, max) == Err(LengthLimit)
    ensures var h := ReadHeader(c, r).value;
      h.tag.VECTOR? && h.len > 4503599627370496 ==> ReadInto(c, r, q, depth, max) == Err(LengthLimit)
    ensures var h := ReadHeader(c, r).value;
      h.tag == LIST && h.attrs == 0 && h.len > 4503599627370496 ==> ReadInto(c, r, q, depth, max) == Err(LengthLimit)
  {
    hide ReadHeader;
    var h := ReadHeader(c, r).value;
    NoAttributes(c, h.rest, q, depth + 1, max);
  }

  lemma NoAttributes(c: Codec, r: Reader, q: Slots, depth: nat, max: nat)
    requires depth <= max
    ensures ReadAttributes(c, r, q, depth, max, 0, []) == Ok(Parsed([], q, r))
  {
  }

  /** The objects directly inside another. */
  predicate Inside(y: Object, x: Object) {
    (!x.Nil? && exists i :: 0 <= i < |x.attrs| && x.attrs[i].value == y)
    || (x.List? && y in x.items)
  }

  /** The depth of an object is one more than that of the deepest object inside it, attribute values included, and 1
      if there is none. */
  lemma DepthIs(x: Object)
    ensures forall y :: Inside(y, x) ==> Depth(y) < Depth(x)
    ensures Depth(x) == 1 || exists y :: Inside(y, x) && Depth(y) + 1 == Depth(x)
  {
    match x
    case Nil =>
    case Vector(_, _, attrs) => AttrsDepthIs(attrs);
    case List(items, attrs) =>
      AttrsDepthIs(attrs);
      ItemsDepthIs(items);
  }

  lemma {:induction false} AttrsDepthIs(attrs: seq<Attribute>)
    ensures forall i :: 0 <= i < |attrs| ==> Depth(attrs[i].value) <= AttrsDepth(attrs)
    ensures attrs == [] ==> AttrsDepth(attrs) == 0
    ensures attrs != [] ==> exists i :: 0 <= i < |attrs| && Depth(attrs[i].value) == AttrsDepth(attrs)
    decreases |attrs|
  {
    if attrs != [] {
      AttrsDepthIs(attrs[1..]);
      if AttrsDepth(attrs) == Depth(attrs[0].value) {
      } else {
        var i :| 0 <= i < |attrs[1..]| && Depth(attrs[1..][i].value) == AttrsDepth(attrs[1..]);
        assert Depth(attrs[i + 1].value) == AttrsDepth(attrs);
      }
      forall i | 0 <= i < |attrs| ensures Depth(attrs[i].value) <= AttrsDepth(attrs) {
        if i > 0 {
          assert attrs[i] == attrs[1..][i - 1];
        }
      }
    }
  }

  lemma {:induction false} ItemsDepthIs(items: seq<Object>)
    ensures forall i :: 0 <= i < |items| ==> Depth(items[i]) <= ItemsDepth(items)
    ensures items == [] ==> ItemsDepth(items) == 0
    ensures items != [] ==> exists i :: 0 <= i < |items| && Depth(items[i]) == ItemsDepth(items)
    decreases |items|
  {
    if items != [] {
      ItemsDepthIs(items[1..]);
      if ItemsDepth(items) == Depth(items[0]) {
      } else {
        var i :| 0 <= i < |items[1..]| && Depth(items[1..][i]) == ItemsDepth(items[1..]);
        assert Depth(items[i + 1]) == ItemsDepth(items);
      }
      forall i | 0 <= i < |items| ensures Depth(items[i]) <= ItemsDepth(items) {
        if i > 0 {
          assert items[i] == items[1..][i - 1];
        }
      }
    }
  }

  /** The C++ types: cells of 4 bytes for logical and integer, 8 for real, 16 for complex, 1 for raw vectors. */
  lemma CellWidths(k: Kind, cells: seq<bytes>)
    requires PayloadTyped(k, Cells(cells))
    ensures forall i :: 0 <= i < |cells| ==>
      |cells[i]| == if k == Raw then 1 else if k == Real then 8 else if k == Complex then 16 else 4
  {
  }

  // ---------- the buffer ----------

  /** The buffer starts at 1024 bytes and doubles, and is resized only when that is too little. */
  lemma GrowthSteps(size: nat, required: nat)
    requires required <= 0x4000_0000_0000_0000
    ensures required <= size ==> Grown(size, required) == size
    ensures size == 0 && 0 < required <= 1024 ==> Grown(size, required) == 1024
    ensures 0 < size < required <= 2 * size ==> Grown(size, required) == 2 * size
    ensures 0 < size && 2 * size < required ==> Grown(size, required) == Grown(2 * size, required)
  {
    if 0 < size < required {
      assert Doubled(size, required) == Doubled(2 * size, required);
    }
  }
}
