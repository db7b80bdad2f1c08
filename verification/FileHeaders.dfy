/** The 24-byte file header with the checksum in its last eight bytes, and the checksum over the rest. */
module FileHeaders {
  import opened Bytes
  import opened BlockSpec
  import opened Xxh3Spec
  import opened Xxh3
  import opened MemoryStream

  const QDATA_MAGIC: bytes := [0x0B, 0x0E, 0x0A, 0xCD]
  const QS2_MAGIC: bytes := [0x0B, 0x0E, 0x0A, 0xC1]
  const QS_LEGACY_MAGIC: bytes := [0x0B, 0x0E, 0x0A, 0x0C]
  const FORMAT_VERSION: byte := 1
  const ZSTD_COMPRESSION: byte := 1
  const LITTLE_ENDIAN: byte := 2
  const HASH_POSITION: nat := 16

  /** The header as it stands in a finished file. */
  function FileHeader(shuffle: bool, hash: nat): (h: bytes)
    ensures |h| == 24
  {
    (QDATA_MAGIC + [FORMAT_VERSION, ZSTD_COMPRESSION, LITTLE_ENDIAN, if shuffle then 1 else 0])
    + (Zeros(8) + LE(hash, 8))
  }

  datatype Info = Info(shuffle: bool, hash: nat)

  /** What 24 bytes say about the file behind them. */
  function ParseHeader(bits: bytes): Result<Info>
    requires |bits| == 24
  {
    if bits[..4] != QDATA_MAGIC then
      if bits[..4] == QS2_MAGIC || bits[..4] == QS_LEGACY_MAGIC then Err(ForeignFormat) else Err(UnknownFormat)
    else if bits[4] > FORMAT_VERSION then Err(NewerFormat)
    else if bits[5] != ZSTD_COMPRESSION then Err(UnknownCompression)
    else if bits[6] != LITTLE_ENDIAN then Err(EndianMismatch)
    else Ok(Info(bits[7] != 0, FromLE(bits[16..24])))
  }

  /** The buffer starts out as zeros, so a short file reads as if zeros followed. */
  function HeaderBits(input: bytes): (bits: bytes)
    ensures |bits| == 24
  {
    if |input| >= 24 then input[..24] else input + Zeros(24 - |input|)
  }

  lemma HeaderFields(shuffle: bool, hash: nat)
    ensures var h := FileHeader(shuffle, hash);
      && h[..4] == QDATA_MAGIC && h[4] == FORMAT_VERSION && h[5] == ZSTD_COMPRESSION && h[6] == LITTLE_ENDIAN
      && (h[7] != 0 <==> shuffle) && h[16..24] == LE(hash, 8)
  {
    hide LE, Zeros;
  }

  lemma HeaderBack(shuffle: bool, hash: nat, rest: bytes)
    requires hash < TWO_64
    ensures ParseHeader(HeaderBits(FileHeader(shuffle, hash) + rest)) == Ok(Info(shuffle, hash))
  {
    hide FileHeader, LE, FromLE;
    var h := FileHeader(shuffle, hash);
    assert HeaderBits(h + rest) == h;
    HeaderFields(shuffle, hash);
    PowValues();
    FromLEOfLE(hash, 8);
  }

  lemma ZeroHash()
    ensures LE(0, 8) == Zeros(8)
  {
    assert LE(0, 0) == Zeros(0);
    assert LE(0, 1) == Zeros(1);
    assert LE(0, 2) == Zeros(2);
    assert LE(0, 3) == Zeros(3);
    assert LE(0, 4) == Zeros(4);
    assert LE(0, 5) == Zeros(5);
    assert LE(0, 6) == Zeros(6);
    assert LE(0, 7) == Zeros(7);
  }

  /** Filling in the hash touches nothing else. */
  lemma Backpatched(shuffle: bool, hash: nat, rest: bytes)
    ensures Overlay(FileHeader(shuffle, 0) + rest, HASH_POSITION, LE(hash, 8)) == FileHeader(shuffle, hash) + rest
  {
    ZeroHash();
  }

  /** write_qdata_header */
  method WriteQdataHeader(writer: MemoryWriter, shuffle: bool)
    requires writer.Valid() && writer.position == 0 && writer.buffer.Length == 0
    modifies writer, writer.buffer
    ensures writer.Valid() && fresh(writer.buffer)
    ensures writer.position == 24 && writer.buffer[..24] == FileHeader(shuffle, 0)
  {
    hide LE;
    var bits := new byte[24](_ => 0);
    bits[0], bits[1], bits[2], bits[3] := QDATA_MAGIC[0], QDATA_MAGIC[1], QDATA_MAGIC[2], QDATA_MAGIC[3];
    bits[4] := FORMAT_VERSION;
    bits[5] := ZSTD_COMPRESSION;
    bits[6] := LITTLE_ENDIAN;
    bits[7] := if shuffle then 1 else 0;
    ZeroHash();
    assert bits[..] == FileHeader(shuffle, 0);
    WrittenPrefix(writer.buffer[..], Grown(0, 24), 0, bits[..]);
    writer.Write(bits[..]);
  }

  /** write_qx_hash; zero means that there is no checksum. */
  method WriteQxHash(writer: MemoryWriter, value: bv64)
    requires writer.Valid() && writer.buffer.Length >= 24
    modifies writer, writer.buffer
    ensures writer.Valid() && writer.buffer == old(writer.buffer)
    ensures value == 0 ==> writer.buffer[..] == old(writer.buffer[..])
    ensures value != 0 ==>
      writer.buffer[..] == Overlay(old(writer.buffer[..]), HASH_POSITION, LE(value as nat, 8))
  {
    if value != 0 {
      GrownBounds(writer.buffer.Length, HASH_POSITION + 8);
      var ok := writer.SeekP(HASH_POSITION);
      ghost var before := writer.buffer[..];
      assert before + Zeros(0) == before;
      writer.Write(LE(value as nat, 8));
    }
  }

  /** read_qdata_header */
  method ReadQdataHeader(reader: MemoryReader) returns (r: Result<Info>)
    requires reader.Valid()
    modifies reader
    ensures reader.Valid() && r == ParseHeader(HeaderBits(old(reader.Unread())))
    ensures reader.Unread() == if |old(reader.Unread())| >= 24 then old(reader.Unread())[24..] else []
  {
    var bits := new byte[24](_ => 0);
    ghost var input := reader.Unread();
    var data := reader.Read(24);
    CopyIn(bits, 0, data);
    assert bits[..] == HeaderBits(input);
    if bits[..4] != QDATA_MAGIC {
      if bits[..4] == QS2_MAGIC || bits[..4] == QS_LEGACY_MAGIC {
        return Err(ForeignFormat);
      }
      return Err(UnknownFormat);
    }
    if bits[4] > FORMAT_VERSION {
      return Err(NewerFormat);
    }
    if bits[5] != ZSTD_COMPRESSION {
      return Err(UnknownCompression);
    }
    if bits[6] != LITTLE_ENDIAN {
      return Err(EndianMismatch);
    }
    return Ok(Info(bits[7] != 0, FromLE(bits[16..24])));
  }

  /** read_qx_hash: the checksum of everything from here on, read in chunks; the position is put back. */
  method ReadQxHash<A>(reader: MemoryReader, k: Kernel<A>, secret: Secret) returns (hash: bv64)
    requires reader.Valid()
    modifies reader
    ensures reader.Valid() && reader.position == old(reader.position)
    ensures |reader.Unread()| < TWO_64 ==> hash == NonZero(Xxh3Spec.Xxh3(k, secret, reader.Unread()))
  {
    hide Represents, Xxh3Spec.Xxh3;
    var start := reader.position;
    var env := new State(k, secret);
    var chunk := reader.Read(MAX_ZBLOCKSIZE);
    while chunk != []
      invariant reader.Valid() && start <= reader.position
      invariant env.Valid() && fresh(env) && fresh(env.buffer) && env.k == k && env.secret == secret
      invariant env.absorbed + chunk == reader.buffer[start..reader.position]
      invariant chunk == [] ==> reader.position == |reader.buffer|
      decreases |reader.buffer| - reader.position, |chunk|
    {
      env.Update(chunk);
      ghost var at := reader.position;
      chunk := reader.Read(MAX_ZBLOCKSIZE);
      assert reader.buffer[start..at] + reader.buffer[at..reader.position] == reader.buffer[start..reader.position];
    }
    assert env.absorbed == reader.buffer[start..];
    reader.SeekG(start);
    hash := env.Digest();
    hash := NonZero(hash);
  }
}
