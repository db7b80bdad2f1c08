/** The bytes of the format, written out. The round trips hold for any coding that reader and writer share; here
    every code, width and order is pinned to its value, in terms of numbers and literal bytes only. */
module FormatBytes {
  import opened Bytes
  import opened BlockSpec
  import opened ReaderSpec
  import opened ObjectSpec
  import opened ObjectReaderSpec

  // ---------- words ----------

  /** What bytes are read as. */
  lemma WordValues(a: byte, b: byte, c: byte, d: byte, e: byte, f: byte, g: byte, h: byte)
    ensures FromLE([a]) == a as nat
    ensures FromLE([a, b]) == a as nat + 0x100 * (b as nat)
    ensures FromLE([a, b, c, d])
         == a as nat + 0x100 * (b as nat) + 0x1_0000 * (c as nat) + 0x100_0000 * (d as nat)
    ensures FromLE([a, b, c, d, e, f, g, h])
         == a as nat + 0x100 * (b as nat) + 0x1_0000 * (c as nat) + 0x100_0000 * (d as nat)
          + 0x1_0000_0000 * (e as nat) + 0x100_0000_0000 * (f as nat) + 0x1_0000_0000_0000 * (g as nat)
          + 0x100_0000_0000_0000 * (h as nat)
  {
    hide FromLE;
    Pair(g, h);
    Pair(e, f);
    Pair(c, d);
    Pair(a, b);
    Peel(a, []);
    assert [a] + [] == [a];
    PeelTwo(e, f, [g, h]);
    PeelTwo(c, d, [e, f, g, h]);
    PeelTwo(a, b, [c, d, e, f, g, h]);
    PeelTwo(a, b, [c, d]);
    assert [a, b] + [c, d] == [a, b, c, d] && [e, f] + [g, h] == [e, f, g, h];
    assert [c, d] + [e, f, g, h] == [c, d, e, f, g, h];
    assert [a, b] + [c, d, e, f, g, h] == [a, b, c, d, e, f, g, h];
  }

  lemma Pair(a: byte, b: byte)
    ensures FromLE([a, b]) == a as nat + 0x100 * (b as nat)
  {
    PeelTwo(a, b, []);
    assert [a, b] + [] == [a, b];
  }

  lemma PeelTwo(a: byte, b: byte, rest: bytes)
    ensures FromLE([a, b] + rest) == a as nat + 0x100 * (b as nat) + 0x1_0000 * FromLE(rest)
    ensures FromLE([]) == 0
  {
    hide FromLE;
    Peel(a, [b] + rest);
    Peel(b, rest);
    assert [a] + ([b] + rest) == [a, b] + rest;
  }

  lemma Peel(a: byte, rest: bytes)
    ensures FromLE([a] + rest) == a as nat + 256 * FromLE(rest)
    ensures FromLE([]) == 0
  {
    assert ([a] + rest)[1..] == rest;
  }

  // ---------- frames ----------

  /** A frame starts with the size word, least significant byte first; the compressed bytes follow. */
  lemma FrameBytes(c: Codec, b: bytes)
    ensures var z, f := c.compress(b).zsize, Frame(c, b);
      && |f| == 4 + |c.compress(b).payload| && f[4..] == c.compress(b).payload
      && f[0] as nat == z % 256 && f[1] as nat == z / 0x100 % 256
      && f[2] as nat == z / 0x1_0000 % 256 && f[3] as nat == z / 0x100_0000 % 256
  {
    WordBytes(c.compress(b).zsize);
  }

  // ---------- object headers ----------

  /** The header bytes of every type with a length in the header byte: the 5-bit form, then 1, 2, 4 and 8 bytes. */
  lemma HeaderBytes(n: nat)
    requires n < 0x1_0000_0000_0000_0000
    ensures n < 32 ==>
      && Concat(HeaderPods(LIST, n, 0)) == [(0x20 + n) as byte]
      && Concat(HeaderPods(VECTOR(Real), n, 0)) == [(0x40 + n) as byte]
      && Concat(HeaderPods(VECTOR(Integer), n, 0)) == [(0x60 + n) as byte]
      && Concat(HeaderPods(VECTOR(Logical), n, 0)) == [(0x80 + n) as byte]
      && Concat(HeaderPods(VECTOR(Character), n, 0)) == [(0xA0 + n) as byte]
    ensures 32 <= n < 256 ==>
      && Concat(HeaderPods(LIST, n, 0)) == [0x01, n as byte]
      && Concat(HeaderPods(VECTOR(Real), n, 0)) == [0x05, n as byte]
      && Concat(HeaderPods(VECTOR(Integer), n, 0)) == [0x09, n as byte]
      && Concat(HeaderPods(VECTOR(Logical), n, 0)) == [0x0D, n as byte]
      && Concat(HeaderPods(VECTOR(Character), n, 0)) == [0x11, n as byte]
    ensures 256 <= n < 65536 ==>
      && Concat(HeaderPods(LIST, n, 0)) == [0x02] + Word16(n)
      && Concat(HeaderPods(VECTOR(Real), n, 0)) == [0x06] + Word16(n)
      && Concat(HeaderPods(VECTOR(Integer), n, 0)) == [0x0A] + Word16(n)
      && Concat(HeaderPods(VECTOR(Logical), n, 0)) == [0x0E] + Word16(n)
      && Concat(HeaderPods(VECTOR(Character), n, 0)) == [0x12] + Word16(n)
    ensures 65536 <= n < 0x1_0000_0000 ==>
      && Concat(HeaderPods(LIST, n, 0)) == [0x03] + Word32(n)
      && Concat(HeaderPods(VECTOR(Real), n, 0)) == [0x07] + Word32(n)
      && Concat(HeaderPods(VECTOR(Integer), n, 0)) == [0x0B] + Word32(n)
      && Concat(HeaderPods(VECTOR(Logical), n, 0)) == [0x0F] + Word32(n)
      && Concat(HeaderPods(VECTOR(Character), n, 0)) == [0x13] + Word32(n)
    ensures 0x1_0000_0000 <= n ==>
      && Concat(HeaderPods(LIST, n, 0)) == [0x04] + Word64(n)
      && Concat(HeaderPods(VECTOR(Real), n, 0)) == [0x08] + Word64(n)
      && Concat(HeaderPods(VECTOR(Integer), n, 0)) == [0x0C] + Word64(n)
      && Concat(HeaderPods(VECTOR(Logical), n, 0)) == [0x10] + Word64(n)
      && Concat(HeaderPods(VECTOR(Character), n, 0)) == [0x14] + Word64(n)
  {
    hide Concat, LE, Word16, Word32, Word64;
    WordBytes(n);
    HeaderRun(LIST, n);
    HeaderRun(VECTOR(Real), n);
    HeaderRun(VECTOR(Integer), n);
    HeaderRun(VECTOR(Logical), n);
    HeaderRun(VECTOR(Character), n);
  }

  /** The types without a short form. */
  lemma WideHeaderBytes(n: nat)
    requires n < 0x1_0000_0000_0000_0000
    ensures n < 0x1_0000_0000 ==>
      && Concat(HeaderPods(VECTOR(Complex), n, 0)) == [0x15] + Word32(n)
      && Concat(HeaderPods(VECTOR(Raw), n, 0)) == [0x17] + Word32(n)
    ensures 0x1_0000_0000 <= n ==>
      && Concat(HeaderPods(VECTOR(Complex), n, 0)) == [0x16] + Word64(n)
      && Concat(HeaderPods(VECTOR(Raw), n, 0)) == [0x18] + Word64(n)
  {
    hide Concat, LE, Word32, Word64;
    WordBytes(n);
    HeaderRun(VECTOR(Complex), n);
    HeaderRun(VECTOR(Raw), n);
  }

  lemma HeaderRun(t: Tag, n: nat)
    requires t != NIL && t != ATTRIBUTE
    ensures Concat(HeaderPods(t, n, 0)) ==
      if LengthWidth(t, n) == 0 then [(ShortCode(t) + n) as byte]
      else [LongCode(t, LengthWidth(t, n)) as byte] + LE(n, LengthWidth(t, n))
  {
    LengthRun(t, n);
  }

  /** Attributes are announced in front of the header proper. */
  lemma AttributeBytes(t: Tag, n: nat, attrs: nat)
    requires t != NIL && t != ATTRIBUTE && 0 < attrs < 0x1_0000_0000
    ensures Concat(HeaderPods(t, n, attrs)) ==
      (if attrs < 32 then [(0xE0 + attrs) as byte]
       else if attrs < 256 then [0x1E, attrs as byte]
       else [0x1F] + Word32(attrs)) + Concat(HeaderPods(t, n, 0))
  {
    hide Concat, LE, Word16, Word32, Word64;
    WordBytes(attrs);
    LengthRun(ATTRIBUTE, attrs);
    ConcatAppend(LengthPods(ATTRIBUTE, attrs), LengthPods(t, n));
  }

  /** Strings: their length below 253 in one byte, else 253 and two bytes or 254 and four; NA is 255; nil is 0. */
  lemma StringBytes(n: nat)
    requires n < 0x1_0000_0000
    ensures Concat(StringPods(n)) ==
      if n < 253 then [n as byte] else if n < 65536 then [253] + Word16(n) else [254] + Word32(n)
    ensures Payloads(StringItems(None)) == [255] && Payloads(Structure(Nil)) == [0]
  {
    hide LE;
    WordBytes(n);
    if n < 253 {
      OnePod([n as byte]);
    } else {
      TwoPods(StringPods(n)[0], StringPods(n)[1]);
    }
    OnePod([255]);
    OnePod([0]);
    assert StringItems(None)[1..] == [] && Structure(Nil)[1..] == [];
    assert Payloads(StringItems(None)) == [255] + [];
    assert Payloads(Structure(Nil)) == [0] + [];
  }

  // ---------- reading headers ----------

  /** Wherever these bytes stand, they are read as the header of an object of type `t`, length `n`, no attributes. */
  ghost predicate ReadsAs(c: Codec, head: bytes, t: Tag, n: nat) {
    forall r: Reader :: head != [] && head <= r.cur ==>
      ReadHeader(c, r) == Ok(Header(t, n, 0, Reader(r.cur[|head|..], r.input)))
  }

  ghost predicate Refused(c: Codec, head: bytes, e: Error) {
    forall r: Reader :: head != [] && head <= r.cur ==> ReadHeader(c, r) == Err(e)
  }

  lemma Parts(cur: bytes, code: byte, len: bytes)
    requires [code] + len <= cur
    ensures cur != [] && cur[0] == code && cur[..1] == [code]
    ensures |len| <= |cur[1..]| && cur[1..][..|len|] == len && cur[1..][|len|..] == cur[|[code] + len|..]
  {
    assert cur[..|[code] + len|] == [code] + len;
  }

  lemma LongRead(c: Codec, code: byte, len: bytes, t: Tag)
    requires 0 < code < 32 && LongHeader(code as nat) == Some((t, |len|)) && t != ATTRIBUTE && t != NIL
    ensures ReadsAs(c, [code] + len, t, FromLE(len))
  {
    hide LongHeader, FromLE;
    var head := [code] + len;
    forall r: Reader | head <= r.cur
      ensures ReadHeader(c, r) == Ok(Header(t, FromLE(len), 0, Reader(r.cur[|head|..], r.input)))
    {
      Parts(r.cur, code, len);
    }
  }

  lemma ShortRead(c: Codec, b: byte, t: Tag)
    requires b >= 32 && ShortHeader(b as nat) == Some(t) && t != ATTRIBUTE
    ensures ReadsAs(c, [b], t, b as nat % 32)
  {
    hide ShortHeader;
  }

  lemma NotRead(c: Codec, b: byte)
    requires if b >= 32 then ShortHeader(b as nat).None? else LongHeader(b as nat).None?
    ensures Refused(c, [b], UnknownHeader)
  {
    hide ShortHeader, LongHeader;
  }

  /** Header bytes with the length in their low five bits. */
  lemma ShortHeaderRead(c: Codec, n: nat)
    requires n < 32
    ensures ReadsAs(c, [(0x20 + n) as byte], LIST, n)
    ensures ReadsAs(c, [(0x40 + n) as byte], VECTOR(Real), n)
    ensures ReadsAs(c, [(0x60 + n) as byte], VECTOR(Integer), n)
    ensures ReadsAs(c, [(0x80 + n) as byte], VECTOR(Logical), n)
    ensures ReadsAs(c, [(0xA0 + n) as byte], VECTOR(Character), n)
    ensures Refused(c, [(0xC0 + n) as byte], UnknownHeader)
  {
    hide ReadsAs, Refused;
    ShortRead(c, (0x20 + n) as byte, LIST);
    ShortRead(c, (0x40 + n) as byte, VECTOR(Real));
    ShortRead(c, (0x60 + n) as byte, VECTOR(Integer));
    ShortRead(c, (0x80 + n) as byte, VECTOR(Logical));
    ShortRead(c, (0xA0 + n) as byte, VECTOR(Character));
    NotRead(c, (0xC0 + n) as byte);
  }

  /** Nil, and the five bytes below 0x20 that announce nothing. */
  lemma NilRead(c: Codec, b: byte)
    ensures ReadsAs(c, [0x00], NIL, 0)
    ensures 0x19 <= b <= 0x1D ==> Refused(c, [b], UnknownHeader)
  {
    if 0x19 <= b <= 0x1D {
      NotRead(c, b);
    }
  }

  /** One byte of length. */
  lemma ByteHeaderRead(c: Codec, a: byte)
    ensures var n := a as nat;
      && ReadsAs(c, [0x01] + [a], LIST, n)
      && ReadsAs(c, [0x05] + [a], VECTOR(Real), n)
      && ReadsAs(c, [0x09] + [a], VECTOR(Integer), n)
      && ReadsAs(c, [0x0D] + [a], VECTOR(Logical), n)
      && ReadsAs(c, [0x11] + [a], VECTOR(Character), n)
  {
    hide ReadsAs, LongHeader, FromLE;
    WordValues(a, 0, 0, 0, 0, 0, 0, 0);
    ByteCodes();
    LongRead(c, 0x01, [a], LIST);
    LongRead(c, 0x05, [a], VECTOR(Real));
    LongRead(c, 0x09, [a], VECTOR(Integer));
    LongRead(c, 0x0D, [a], VECTOR(Logical));
    LongRead(c, 0x11, [a], VECTOR(Character));
  }

  /** Two bytes of length. */
  lemma WordHeaderRead(c: Codec, a: byte, b: byte)
    ensures var n := a as nat + 0x100 * (b as nat);
      && ReadsAs(c, [0x02] + [a, b], LIST, n)
      && ReadsAs(c, [0x06] + [a, b], VECTOR(Real), n)
      && ReadsAs(c, [0x0A] + [a, b], VECTOR(Integer), n)
      && ReadsAs(c, [0x0E] + [a, b], VECTOR(Logical), n)
      && ReadsAs(c, [0x12] + [a, b], VECTOR(Character), n)
  {
    hide ReadsAs, LongHeader, FromLE;
    WordValues(a, b, 0, 0, 0, 0, 0, 0);
    WordCodes();
    LongRead(c, 0x02, [a, b], LIST);
    LongRead(c, 0x06, [a, b], VECTOR(Real));
    LongRead(c, 0x0A, [a, b], VECTOR(Integer));
    LongRead(c, 0x0E, [a, b], VECTOR(Logical));
    LongRead(c, 0x12, [a, b], VECTOR(Character));
  }

  /** Four bytes of length. */
  lemma DwordHeaderRead(c: Codec, a: byte, b: byte, d: byte, e: byte)
    ensures var n := a as nat + 0x100 * (b as nat) + 0x1_0000 * (d as nat) + 0x100_0000 * (e as nat);
      && ReadsAs(c, [0x03] + [a, b, d, e], LIST, n)
      && ReadsAs(c, [0x07] + [a, b, d, e], VECTOR(Real), n)
      && ReadsAs(c, [0x0B] + [a, b, d, e], VECTOR(Integer), n)
      && ReadsAs(c, [0x0F] + [a, b, d, e], VECTOR(Logical), n)
      && ReadsAs(c, [0x13] + [a, b, d, e], VECTOR(Character), n)
      && ReadsAs(c, [0x15] + [a, b, d, e], VECTOR(Complex), n)
      && ReadsAs(c, [0x17] + [a, b, d, e], VECTOR(Raw), n)
  {
    hide ReadsAs, LongHeader, FromLE;
    WordValues(a, b, d, e, 0, 0, 0, 0);
    DwordCodes();
    LongRead(c, 0x03, [a, b, d, e], LIST);
    LongRead(c, 0x07, [a, b, d, e], VECTOR(Real));
    LongRead(c, 0x0B, [a, b, d, e], VECTOR(Integer));
    LongRead(c, 0x0F, [a, b, d, e], VECTOR(Logical));
    LongRead(c, 0x13, [a, b, d, e], VECTOR(Character));
    LongRead(c, 0x15, [a, b, d, e], VECTOR(Complex));
    LongRead(c, 0x17, [a, b, d, e], VECTOR(Raw));
  }

  /** Eight bytes of length, whose value is that of WordValues. */
  lemma QwordHeaderRead(c: Codec, len: bytes)
    requires |len| == 8
    ensures var n := FromLE(len);
      && ReadsAs(c, [0x04] + len, LIST, n)
      && ReadsAs(c, [0x08] + len, VECTOR(Real), n)
      && ReadsAs(c, [0x0C] + len, VECTOR(Integer), n)
      && ReadsAs(c, [0x10] + len, VECTOR(Logical), n)
      && ReadsAs(c, [0x14] + len, VECTOR(Character), n)
      && ReadsAs(c, [0x16] + len, VECTOR(Complex), n)
      && ReadsAs(c, [0x18] + len, VECTOR(Raw), n)
  {
    hide ReadsAs, LongHeader, FromLE;
    QwordCodes();
    LongRead(c, 0x04, len, LIST);
    LongRead(c, 0x08, len, VECTOR(Real));
    LongRead(c, 0x0C, len, VECTOR(Integer));
    LongRead(c, 0x10, len, VECTOR(Logical));
    LongRead(c, 0x14, len, VECTOR(Character));
    LongRead(c, 0x16, len, VECTOR(Complex));
    LongRead(c, 0x18, len, VECTOR(Raw));
  }

  lemma ByteCodes()
    ensures LongHeader(0x01) == Some((LIST, 1))
    ensures LongHeader(0x05) == Some((VECTOR(Real), 1))
    ensures LongHeader(0x09) == Some((VECTOR(Integer), 1))
    ensures LongHeader(0x0D) == Some((VECTOR(Logical), 1))
    ensures LongHeader(0x11) == Some((VECTOR(Character), 1))
  {
  }

  lemma WordCodes()
    ensures LongHeader(0x02) == Some((LIST, 2))
    ensures LongHeader(0x06) == Some((VECTOR(Real), 2))
    ensures LongHeader(0x0A) == Some((VECTOR(Integer), 2))
    ensures LongHeader(0x0E) == Some((VECTOR(Logical), 2))
    ensures LongHeader(0x12) == Some((VECTOR(Character), 2))
  {
  }

  lemma DwordCodes()
    ensures LongHeader(0x03) == Some((LIST, 4))
    ensures LongHeader(0x07) == Some((VECTOR(Real), 4))
    ensures LongHeader(0x0B) == Some((VECTOR(Integer), 4))
    ensures LongHeader(0x0F) == Some((VECTOR(Logical), 4))
    ensures LongHeader(0x13) == Some((VECTOR(Character), 4))
    ensures LongHeader(0x15) == Some((VECTOR(Complex), 4))
    ensures LongHeader(0x17) == Some((VECTOR(Raw), 4))
  {
  }

  lemma QwordCodes()
    ensures LongHeader(0x04) == Some((LIST, 8))
    ensures LongHeader(0x08) == Some((VECTOR(Real), 8))
    ensures LongHeader(0x0C) == Some((VECTOR(Integer), 8))
    ensures LongHeader(0x10) == Some((VECTOR(Logical), 8))
    ensures LongHeader(0x14) == Some((VECTOR(Character), 8))
    ensures LongHeader(0x16) == Some((VECTOR(Complex), 8))
    ensures LongHeader(0x18) == Some((VECTOR(Raw), 8))
  {
  }

  // ---------- attributes ----------

  /** Bytes that announce `k` attributes in front of any header with this meaning. */
  ghost predicate AnnouncesAttributes(c: Codec, head: bytes, k: nat) {
    forall second: bytes, t: Tag, n: nat, r: Reader ::
      second != [] && second[0] < 0xE0 && second[0] != 0x1E && second[0] != 0x1F
      && ReadsAs(c, second, t, n) && head + second <= r.cur ==>
      ReadHeader(c, r) == Ok(Header(t, n, k, Reader(r.cur[|head + second|..], r.input)))
  }

  lemma AttributesRead(c: Codec, head: bytes, k: nat)
    requires head != []
    requires forall r: Reader :: head <= r.cur ==>
      DecodeHeader(Reader(r.cur[1..], r.input), head[0] as nat)
      == Ok(Decoded(ATTRIBUTE, k, Reader(r.cur[|head|..], r.input)))
    ensures AnnouncesAttributes(c, head, k)
  {
    hide ReadHeader, DecodeHeader, ReadsAs;
    forall second: bytes, t: Tag, n: nat, r: Reader
      | second != [] && second[0] < 0xE0 && second[0] != 0x1E && second[0] != 0x1F
        && ReadsAs(c, second, t, n) && head + second <= r.cur
      ensures ReadHeader(c, r) == Ok(Header(t, n, k, Reader(r.cur[|head + second|..], r.input)))
    {
      assert r.cur[..|head + second|] == head + second;
      assert head <= r.cur && r.cur[0] == head[0] && r.cur[..1] == [head[0]];
      var later := Reader(r.cur[|head|..], r.input);
      assert second <= later.cur && later.cur[|second|..] == r.cur[|head + second|..];
      AttributesThen(c, r, k, later, second, t, n);
    }
  }

  lemma AttributesThen(c: Codec, r: Reader, k: nat, later: Reader, second: bytes, t: Tag, n: nat)
    requires r.cur != [] && second != [] && second <= later.cur && ReadsAs(c, second, t, n)
    requires DecodeHeader(Reader(r.cur[1..], r.input), r.cur[0] as nat) == Ok(Decoded(ATTRIBUTE, k, later))
    requires second[0] < 0xE0 && second[0] != 0x1E && second[0] != 0x1F
    ensures ReadHeader(c, r) == Ok(Header(t, n, k, Reader(later.cur[|second|..], later.input)))
  {
    hide DecodeHeader;
    assert ReadHeader(c, later) == Ok(Header(t, n, 0, Reader(later.cur[|second|..], later.input)));
    assert later.cur[0] == second[0];
    NoAttribute(Reader(later.cur[1..], later.input), second[0] as nat);
  }

  lemma NoAttribute(r: Reader, b: nat)
    requires b < 0xE0 && b != 0x1E && b != 0x1F
    ensures DecodeHeader(r, b).Ok? ==> DecodeHeader(r, b).value.tag != ATTRIBUTE
  {
  }

  /** The three forms of the attribute header, and that two of them in a row are refused. */
  lemma AttributeHeaderRead(c: Codec, k: nat, a: byte, b: byte, d: byte, e: byte)
    requires 0 < k < 32
    ensures AnnouncesAttributes(c, [(0xE0 + k) as byte], k)
    ensures AnnouncesAttributes(c, [0x1E, a], a as nat)
    ensures AnnouncesAttributes(c, [0x1F, a, b, d, e],
                                a as nat + 0x100 * (b as nat) + 0x1_0000 * (d as nat) + 0x100_0000 * (e as nat))
    ensures Refused(c, [(0xE0 + k) as byte, 0xE1], MalformedHeader)
  {
    hide AnnouncesAttributes, FromLE, Refused;
    WordValues(a, b, d, e, 0, 0, 0, 0);
    ShortAttributes(c, k);
    LongAttributes(c, 0x1E, [a]);
    LongAttributes(c, 0x1F, [a, b, d, e]);
    assert [0x1E] + [a] == [0x1E, a] && [0x1F] + [a, b, d, e] == [0x1F, a, b, d, e];
    TwoAttributeHeaders(c, k);
  }

  lemma ShortAttributes(c: Codec, k: nat)
    requires k < 32
    ensures AnnouncesAttributes(c, [(0xE0 + k) as byte], k)
  {
    hide AnnouncesAttributes;
    AttributesRead(c, [(0xE0 + k) as byte], k);
  }

  lemma LongAttributes(c: Codec, code: byte, len: bytes)
    requires (code == 0x1E && |len| == 1) || (code == 0x1F && |len| == 4)
    ensures AnnouncesAttributes(c, [code] + len, FromLE(len))
  {
    hide AnnouncesAttributes, FromLE, DecodeHeader;
    var head := [code] + len;
    forall r: Reader | head <= r.cur
      ensures DecodeHeader(Reader(r.cur[1..], r.input), head[0] as nat)
           == Ok(Decoded(ATTRIBUTE, FromLE(len), Reader(r.cur[|head|..], r.input)))
    {
      Parts(r.cur, code, len);
      LengthRead(Reader(r.cur[1..], r.input), code, len);
    }
    AttributesRead(c, head, FromLE(len));
  }

  lemma LengthRead(r: Reader, code: byte, len: bytes)
    requires (code == 0x1E && |len| == 1) || (code == 0x1F && |len| == 4)
    requires |len| <= |r.cur| && r.cur[..|len|] == len
    ensures DecodeHeader(r, code as nat) == Ok(Decoded(ATTRIBUTE, FromLE(len), Reader(r.cur[|len|..], r.input)))
  {
    hide FromLE;
  }

  lemma TwoAttributeHeaders(c: Codec, k: nat)
    requires k < 32
    ensures Refused(c, [(0xE0 + k) as byte, 0xE1], MalformedHeader)
  {
    forall r: Reader | [(0xE0 + k) as byte, 0xE1] <= r.cur ensures ReadHeader(c, r) == Err(MalformedHeader) {
      assert r.cur[0] == (0xE0 + k) as byte && r.cur[1] == 0xE1;
      assert r.cur[..1] == [r.cur[0]] && r.cur[1..][..1] == [0xE1];
    }
  }
}
