/** The object reader as the class of the source, proved to compute what ObjectReaderSpec says. */
module QdataDeserializer {
  import opened Bytes
  import opened BlockSpec
  import opened ReaderSpec
  import opened ObjectSpec
  import opened ObjectReaderSpec
  import opened BlockReaders
  import opened StringStorage

  class QdataDeserializer<!A> {
    const reader: BlockReader<A>
    const maxDepth: nat
    var currentDepth: nat
    // the sizes of the slots that wait for their payloads
    var stringSlots: seq<nat>
    var complexSlots: seq<nat>
    var realSlots: seq<nat>
    var integerSlots: seq<nat>
    var rawSlots: seq<nat>

    constructor (reader: BlockReader<A>, maxDepth: nat)
      ensures this.reader == reader && this.maxDepth == maxDepth
      ensures currentDepth == 0 && Queued() == NO_SLOTS
    {
      this.reader, this.maxDepth, currentDepth := reader, maxDepth, 0;
      stringSlots, complexSlots, realSlots, integerSlots, rawSlots := [], [], [], [], [];
    }

    ghost function Queued(): Slots
      reads this
    {
      var q := [stringSlots, complexSlots, realSlots, integerSlots, rawSlots];
      assert |q| == 5;
      q
    }

    /** What a parsing method did, against the function that says what it should do. */
    ghost predicate DidParse<T>(r: Result<T>, spec: Result<Parsed<T>>)
      reads this, reader.Repr()
    {
      match r
      case Ok(v) => reader.Valid() && spec == Ok(Parsed(v, Queued(), reader.Abs()))
      case Err(e) => reader.Failed(e, spec)
    }

    // ---------- headers ----------

    ghost predicate DidDecode(r: Result<(Tag, nat)>, spec: Result<Decoded>)
      reads reader.Repr()
    {
      match r
      case Ok(v) => reader.Valid() && spec == Ok(Decoded(v.0, v.1, reader.Abs()))
      case Err(e) => reader.Failed(e, spec)
    }

    method DecodeHeader(b: byte) returns (r: Result<(Tag, nat)>)
      requires reader.Valid()
      modifies reader.Repr()
      ensures DidDecode(r, ObjectReaderSpec.DecodeHeader(old(reader.Abs()), b as nat))
    {
      hide BlockReader<A>.Valid, BlockReader<A>.Abs, LongHeader, ShortHeader, ReaderSpec.GetPodContiguous;
      if b as nat / 32 == 0 {
        match LongHeader(b as nat)
        case None =>
          return Err(UnknownHeader);
        case Some(h) =>
          if h.0 == NIL {
            return Ok((NIL, 0));
          }
          var len :- reader.GetPodContiguous(h.1);
          return Ok((h.0, FromLE(len)));
      } else {
        match ShortHeader(b as nat)
        case None =>
          return Err(UnknownHeader);
        case Some(t) =>
          return Ok((t, b as nat % 32));
      }
    }

    ghost predicate DidHeader(r: Result<(Tag, nat, nat)>, spec: Result<Header>)
      reads reader.Repr()
    {
      match r
      case Ok(v) => reader.Valid() && spec == Ok(Header(v.0, v.1, v.2, reader.Abs()))
      case Err(e) => reader.Failed(e, spec)
    }

    method ReadHeader() returns (r: Result<(Tag, nat, nat)>)
      requires reader.Valid()
      modifies reader.Repr()
      ensures DidHeader(r, ObjectReaderSpec.ReadHeader(reader.Decoder(), old(reader.Abs())))
    {
      hide BlockReader<A>.Valid, BlockReader<A>.Abs, ReaderSpec.GetPod, ReaderSpec.GetPodContiguous,
           ObjectReaderSpec.DecodeHeader;
      var first :- reader.GetPod(1);
      OneByte(reader.Decoder(), old(reader.Abs()));
      var d :- DecodeHeader(first[0]);
      if d.0 != ATTRIBUTE {
        return Ok((d.0, d.1, 0));
      }
      OneByteContiguous(reader.Abs());
      var second :- reader.GetPodContiguous(1);
      var e :- DecodeHeader(second[0]);
      if e.0 == ATTRIBUTE {
        return Err(MalformedHeader);
      }
      return Ok((e.0, e.1, d.1));
    }

    method ReadStringHeader() returns (r: Result<nat>)
      requires reader.Valid()
      modifies reader.Repr()
      ensures reader.Did(r, ObjectReaderSpec.ReadStringHeader(reader.Decoder(), old(reader.Abs())))
    {
      hide BlockReader<A>.Valid, BlockReader<A>.Abs, ReaderSpec.GetPod, ReaderSpec.GetPodContiguous;
      var first :- reader.GetPod(1);
      OneByte(reader.Decoder(), old(reader.Abs()));
      if first[0] == 253 {
        var len :- reader.GetPodContiguous(2);
        return Ok(FromLE(len));
      } else if first[0] == 254 {
        var len :- reader.GetPodContiguous(4);
        return Ok(FromLE(len));
      } else if first[0] == 255 {
        return Ok(NA_STRING_LENGTH);
      } else {
        return Ok(first[0] as nat);
      }
    }

    // ---------- strings ----------

    /** `n` bytes into freshly allocated memory. */
    method FetchBytes(n: nat) returns (r: Result<bytes>)
      requires reader.Valid()
      modifies reader.Repr()
      ensures reader.Did(r, Fetch(reader.Decoder(), old(reader.Abs()), n))
    {
      hide BlockReader<A>.Valid, BlockReader<A>.Abs, GetDataInto;
      var out := new byte[n](_ => 0);
      assert out[0..0 + n] == seq(n, _ => 0);
      var got :- reader.GetData(out, 0, n);
      return Ok(out[0..n]);
    }

    method ReadName() returns (r: Result<bytes>)
      requires reader.Valid()
      modifies reader.Repr()
      ensures reader.Did(r, ObjectReaderSpec.ReadName(reader.Decoder(), old(reader.Abs())))
    {
      hide BlockReader<A>.Valid, BlockReader<A>.Abs, ObjectReaderSpec.ReadStringHeader, Fetch;
      var length :- ReadStringHeader();
      if length == NA_STRING_LENGTH {
        return Err(MissingAttributeName);
      }
      if length > MAX_STRING_LENGTH {
        return Err(LengthLimit);
      }
      if length > 0 {
        r := FetchBytes(length);
      } else {
        r := Ok([]);
      }
    }

    /** A string's characters into its place in a slab; the strings placed before keep theirs. */
    method GetString(slab: array<byte>, at: nat, len: nat, ghost refs: seq<StringRef>, ghost texts: seq<Option<bytes>>)
      returns (r: Result<()>)
      requires reader.Valid() && at + len <= slab.Length && len <= MAX_STRING_LENGTH
      requires slab !in reader.Repr() && SlabsOf(refs) !! reader.Repr()
      requires TextsAre(refs, texts) && Below(refs, slab, at)
      modifies reader.Repr(), slab
      ensures match r
        case Ok(_) => reader.Valid() && TextsAre(refs, texts)
          && Fetch(reader.Decoder(), old(reader.Abs()), len) == Ok((slab[at..at + len], reader.Abs()))
        case Err(e) => reader.Failed(e, Fetch(reader.Decoder(), old(reader.Abs()), len))
    {
      hide BlockReader<A>.Valid, BlockReader<A>.Abs, GetDataInto, Fetch;
      FetchAnywhere(reader.Decoder(), reader.Abs(), slab[at..at + len]);
      r := reader.GetData(slab, at, len);
      if r.Ok? {
        forall k | 0 <= k < |refs| ensures Text(refs[k]) == texts[k] {
          assert old(Text(refs[k])) == texts[k];
          if refs[k].Ref? {
            assert refs[k] in refs;
            if refs[k].slab == slab {
              SamePrefix(old(slab[..]), slab[..], at, refs[k].at, refs[k].len);
            }
          }
        }
      }
    }

    /** One string of a vector: read, and placed in the store. */
    method ReadStringInto(store: SlabStore) returns (r: Result<StringRef>)
      requires reader.Valid() && store.Valid()
      requires store.memory !! reader.Repr()
      modifies reader.Repr(), store, store.memory
      ensures match r
        case Ok(s) => reader.Valid() && store.Valid() && store.refs == old(store.refs) + [s]
          && |store.texts| == |old(store.texts)| + 1 && store.texts[..|old(store.texts)|] == old(store.texts)
          && ReadString(reader.Decoder(), old(reader.Abs())) == Ok((store.texts[|old(store.texts)|], reader.Abs()))
        case Err(e) => reader.Failed(e, ReadString(reader.Decoder(), old(reader.Abs())))
      ensures fresh(store.memory - old(store.memory))
    {
      hide BlockReader<A>.Valid, BlockReader<A>.Abs, ObjectReaderSpec.ReadStringHeader, Fetch, SlabStore.Valid,
           TextsAre, Placed, Below, WellFilled;
      store.Inside();
      var length :- ReadStringHeader();
      if length == NA_STRING_LENGTH {
        store.AddBare(Na);
        return Ok(Na);
      }
      if length == 0 {
        store.AddBare(Empty);
        return Ok(Empty);
      }
      if length > MAX_STRING_LENGTH {
        return Err(LengthLimit);
      }
      if length > SLAB_BYTES {
        r := PlaceLarge(store, length);
      } else {
        r := PlaceSmall(store, length);
      }
    }

    /** A string larger than a slab gets a slab of its own. */
    method PlaceLarge(store: SlabStore, length: nat) returns (r: Result<StringRef>)
      requires reader.Valid() && store.Valid() && SLAB_BYTES < length <= MAX_STRING_LENGTH
      requires store.memory !! reader.Repr()
      modifies reader.Repr(), store, store.memory
      ensures match r
        case Ok(s) => reader.Valid() && store.Valid() && store.refs == old(store.refs) + [s]
          && |store.texts| == |old(store.texts)| + 1 && store.texts[..|old(store.texts)|] == old(store.texts)
          && store.texts[|old(store.texts)|].Some?
          && Fetch(reader.Decoder(), old(reader.Abs()), length)
             == Ok((store.texts[|old(store.texts)|].value, reader.Abs()))
        case Err(e) => reader.Failed(e, Fetch(reader.Decoder(), old(reader.Abs()), length))
      ensures fresh(store.memory - old(store.memory))
    {
      hide BlockReader<A>.Valid, BlockReader<A>.Abs, BlockReader<A>.Raised, Fetch, Placed, WellFilled, Sum,
           Lengths, FilledMore, TextsAre, Below, SlabStore.Layout;
      store.Inside();
      store.FinishCurrent();
      var slab := new byte[length](_ => 0);
      NothingBelow(store.refs, slab);
      assert store.memory !! reader.Repr();
      var got :- GetString(slab, 0, length, store.refs, store.texts);
      var s := store.AddLarge(slab);
      r := Ok(s);
    }

    method PlaceSmall(store: SlabStore, length: nat) returns (r: Result<StringRef>)
      requires reader.Valid() && store.Valid() && 0 < length <= SLAB_BYTES
      requires store.memory !! reader.Repr()
      modifies reader.Repr(), store, store.memory
      ensures match r
        case Ok(s) => reader.Valid() && store.Valid() && store.refs == old(store.refs) + [s]
          && |store.texts| == |old(store.texts)| + 1 && store.texts[..|old(store.texts)|] == old(store.texts)
          && store.texts[|old(store.texts)|].Some?
          && Fetch(reader.Decoder(), old(reader.Abs()), length)
             == Ok((store.texts[|old(store.texts)|].value, reader.Abs()))
        case Err(e) => reader.Failed(e, Fetch(reader.Decoder(), old(reader.Abs()), length))
      ensures fresh(store.memory - old(store.memory))
    {
      hide BlockReader<A>.Valid, BlockReader<A>.Abs, Fetch, Placed, WellFilled, Sum, Lengths, FilledMore,
           TextsAre, Below, SlabStore.Valid, SlabStore.Layout, SlabsOf;
      store.Reserve(length);
      assert store.memory !! reader.Repr();
      store.Room(length);
      var got :- GetString(store.current, store.used, length, store.refs, store.texts);
      var s := store.Commit(length);
      r := Ok(s);
    }

    /** The finished slabs of a store. */
    method Freeze(store: SlabStore) returns (storage: seq<array<byte>>)
      requires store.Valid()
      modifies store
      ensures Placed(old(store.refs)) && old(store.texts) == Texts(old(store.refs))
      ensures SlabsOf(old(store.refs)) <= (set s | s in storage)
      ensures |storage| <= 2 * (Sum(Lengths(old(store.refs))) / 1048577) + 1
    {
      hide WellFilled, Sum, Lengths, Placed, TextsAre;
      store.Inside();
      store.Counted();
      store.FinishCurrent();
      storage := store.slabs;
    }

    /** All strings of a vector: what they say, where they lie, and how many slabs that takes. */
    method ReadStringPayloads(n: nat) returns (r: Result<seq<StringRef>>, storage: seq<array<byte>>)
      requires reader.Valid()
      modifies reader.Repr()
      ensures match r
        case Ok(refs) => reader.Valid() && Placed(refs)
          && ReadStrings(reader.Decoder(), old(reader.Abs()), n, []) == Ok((Texts(refs), reader.Abs()))
          && SlabsOf(refs) <= (set s | s in storage)
          && |storage| <= 2 * (Sum(Lengths(refs)) / 1048577) + 1
        case Err(e) => reader.Failed(e, ReadStrings(reader.Decoder(), old(reader.Abs()), n, []))
    {
      hide BlockReader<A>.Valid, BlockReader<A>.Abs, ReadString, SlabStore.Valid, SlabStore.Layout,
           WellFilled, TextsAre, Placed, SlabsOf, Sum, Lengths;
      ghost var spec := ReadStrings(reader.Decoder(), reader.Abs(), n, []);
      storage := [];
      var store := new SlabStore();
      var refs := [];
      var i := 0;
      while i < n
        invariant i <= n
        invariant reader.Valid() && store.Valid() && fresh(store)
        invariant store.refs == refs
        invariant fresh(store.memory)
        invariant ReadStrings(reader.Decoder(), reader.Abs(), n - i, store.texts) == spec
      {
        ghost var texts := store.texts;
        var s :- ReadStringInto(store);
        assert store.texts == texts + [store.texts[|texts|]];
        refs := refs + [s];
        i := i + 1;
      }
      storage := Freeze(store);
      r := Ok(refs);
    }

    // ---------- the structure pass ----------

    method PushSlot(k: Kind, n: nat)
      modifies this`stringSlots, this`complexSlots, this`realSlots, this`integerSlots, this`rawSlots
      ensures Queued() == ObjectReaderSpec.PushSlot(old(Queued()), k, n)
    {
      match k
      case Character => stringSlots := stringSlots + [n];
      case Complex => complexSlots := complexSlots + [n];
      case Real => realSlots := realSlots + [n];
      case Logical => integerSlots := integerSlots + [n];
      case Integer => integerSlots := integerSlots + [n];
      case Raw => rawSlots := rawSlots + [n];
    }

    /** The place the next payload of kind `k` will have in its queue. */
    function Waiting(k: Kind): (n: nat)
      reads this
      ensures n == |Queued()[QueueOf(k)]|
    {
      match k
      case Character => |stringSlots|
      case Complex => |complexSlots|
      case Real => |realSlots|
      case Logical => |integerSlots|
      case Integer => |integerSlots|
      case Raw => |rawSlots|
    }

    /** An object, its nesting guarded by the depth counter, which is back at its start on every path. */
    method ReadInto() returns (r: Result<Tree>)
      requires reader.Valid() && currentDepth <= maxDepth
      modifies this, reader.Repr()
      ensures DidParse(r, ObjectReaderSpec.ReadInto(
                          reader.Decoder(), old(reader.Abs()), old(Queued()), old(currentDepth), maxDepth))
      ensures currentDepth == old(currentDepth)
      decreases maxDepth - currentDepth, 1
    {
      hide BlockReader<A>.Valid, BlockReader<A>.Abs, ObjectReaderSpec.ReadHeader,
           ObjectReaderSpec.ReadVector, ObjectReaderSpec.ReadList;
      if currentDepth >= maxDepth {
        return Err(DepthExceeded);
      }
      currentDepth := currentDepth + 1;
      var h := ReadHeader();
      match h {
        case Err(e) => r := Err(e);
        case Ok(header) =>
          match header.0 {
            case NIL => r := Ok(TNil);
            case VECTOR(k) => r := ReadVector(k, header.1, header.2);
            case LIST => r := ReadList(header.1, header.2);
            case ATTRIBUTE => r := Err(UnknownHeader);
          }
      }
      currentDepth := currentDepth - 1;
    }

    method ReadVector(k: Kind, length: nat, attrLength: nat) returns (r: Result<Tree>)
      requires reader.Valid() && 1 <= currentDepth <= maxDepth
      modifies this, reader.Repr()
      ensures currentDepth == old(currentDepth)
      ensures DidParse(r, ObjectReaderSpec.ReadVector(
                          reader.Decoder(), old(reader.Abs()), old(Queued()), old(currentDepth), maxDepth,
                          k, length, attrLength))
      decreases maxDepth - currentDepth, 3
    {
      hide BlockReader<A>.Valid, BlockReader<A>.Abs, ObjectReaderSpec.ReadAttributes;
      if length > MAX_VECTOR_LENGTH || attrLength > MAX_ATTR_COUNT {
        return Err(LengthLimit);
      }
      var attrs :- ReadAttributes(attrLength);
      if length > 0 {
        var slot := Waiting(k);
        PushSlot(k, length);
        return Ok(TVector(k, length, slot, attrs));
      }
      return Ok(TVector(k, 0, 0, attrs));
    }

    method ReadList(length: nat, attrLength: nat) returns (r: Result<Tree>)
      requires reader.Valid() && 1 <= currentDepth <= maxDepth
      modifies this, reader.Repr()
      ensures currentDepth == old(currentDepth)
      ensures DidParse(r, ObjectReaderSpec.ReadList(
                          reader.Decoder(), old(reader.Abs()), old(Queued()), old(currentDepth), maxDepth,
                          length, attrLength))
      decreases maxDepth - currentDepth, 3
    {
      hide BlockReader<A>.Valid, BlockReader<A>.Abs, ObjectReaderSpec.ReadAttributes, ObjectReaderSpec.ReadItems;
      if attrLength > MAX_ATTR_COUNT {
        return Err(LengthLimit);
      }
      var attrs :- ReadAttributes(attrLength);
      if length > MAX_VECTOR_LENGTH {
        return Err(LengthLimit);
      }
      var items :- ReadItems(length);
      return Ok(TList(items, attrs));
    }

    method ReadAttributes(n: nat) returns (r: Result<seq<TAttribute>>)
      requires reader.Valid() && currentDepth <= maxDepth
      modifies this, reader.Repr()
      ensures currentDepth == old(currentDepth)
      ensures DidParse(r, ObjectReaderSpec.ReadAttributes(
                          reader.Decoder(), old(reader.Abs()), old(Queued()), old(currentDepth), maxDepth, n, []))
      decreases maxDepth - currentDepth, 2
    {
      hide BlockReader<A>.Valid, BlockReader<A>.Abs, ObjectReaderSpec.ReadName, ObjectReaderSpec.ReadInto;
      ghost var spec := ObjectReaderSpec.ReadAttributes(
        reader.Decoder(), reader.Abs(), Queued(), currentDepth, maxDepth, n, []);
      var attrs: seq<TAttribute> := [];
      var i := 0;
      while i < n
        invariant i <= n && currentDepth == old(currentDepth)
        invariant reader.Valid()
        invariant ObjectReaderSpec.ReadAttributes(
                    reader.Decoder(), reader.Abs(), Queued(), currentDepth, maxDepth, n - i, attrs) == spec
      {
        var name :- ReadName();
        var value :- ReadInto();
        attrs := attrs + [TAttribute(name, value)];
        i := i + 1;
      }
      r := Ok(attrs);
    }

    method ReadItems(n: nat) returns (r: Result<seq<Tree>>)
      requires reader.Valid() && currentDepth <= maxDepth
      modifies this, reader.Repr()
      ensures currentDepth == old(currentDepth)
      ensures DidParse(r, ObjectReaderSpec.ReadItems(
                          reader.Decoder(), old(reader.Abs()), old(Queued()), old(currentDepth), maxDepth, n, []))
      decreases maxDepth - currentDepth, 2
    {
      hide BlockReader<A>.Valid, BlockReader<A>.Abs, ObjectReaderSpec.ReadInto;
      ghost var spec := ObjectReaderSpec.ReadItems(
        reader.Decoder(), reader.Abs(), Queued(), currentDepth, maxDepth, n, []);
      var items: seq<Tree> := [];
      var i := 0;
      while i < n
        invariant i <= n && currentDepth == old(currentDepth)
        invariant reader.Valid()
        invariant ObjectReaderSpec.ReadItems(
                    reader.Decoder(), reader.Abs(), Queued(), currentDepth, maxDepth, n - i, items) == spec
      {
        var value :- ReadInto();
        items := items + [value];
        i := i + 1;
      }
      r := Ok(items);
    }

    // ---------- the payload pass ----------

    /** Fills one slot of queue `k`. */
    method ReadSlot(k: nat, n: nat) returns (r: Result<Payload>)
      requires reader.Valid() && k < 5
      modifies reader.Repr()
      ensures reader.Did(r, ObjectReaderSpec.ReadSlot(reader.Decoder(), old(reader.Abs()), k, n))
    {
      hide BlockReader<A>.Valid, BlockReader<A>.Abs, ReadStrings, Fetch, SplitCells, Placed, TextsAre;
      if k == 0 {
        var refs, storage := ReadStringPayloads(n);
        match refs
        case Err(e) => return Err(e);
        case Ok(strings) => return Ok(Strings(Texts(strings)));
      } else {
        var data :- FetchBytes(n * QueueWidth(k));
        return Ok(Cells(SplitCells(data, QueueWidth(k))));
      }
    }

    method ReadGroup(k: nat, sizes: seq<nat>) returns (r: Result<seq<Payload>>)
      requires reader.Valid() && k < 5
      modifies reader.Repr()
      ensures reader.Did(r, ObjectReaderSpec.ReadGroup(reader.Decoder(), old(reader.Abs()), k, sizes, []))
    {
      hide BlockReader<A>.Valid, BlockReader<A>.Abs, ObjectReaderSpec.ReadSlot;
      ghost var spec := ObjectReaderSpec.ReadGroup(reader.Decoder(), reader.Abs(), k, sizes, []);
      var done: seq<Payload> := [];
      var i := 0;
      while i < |sizes|
        invariant i <= |sizes|
        invariant reader.Valid()
        invariant ObjectReaderSpec.ReadGroup(reader.Decoder(), reader.Abs(), k, sizes[i..], done) == spec
      {
        assert sizes[i..][0] == sizes[i] && sizes[i..][1..] == sizes[i + 1..];
        var p :- ReadSlot(k, sizes[i]);
        done := done + [p];
        i := i + 1;
      }
      r := Ok(done);
    }

    method ReadObjectData() returns (r: Result<Contents>)
      requires reader.Valid()
      modifies reader.Repr()
      ensures reader.Did(r, ReadPayloads(reader.Decoder(), old(reader.Abs()), Queued()))
    {
      hide BlockReader<A>.Valid, BlockReader<A>.Abs, ObjectReaderSpec.ReadGroup;
      var g0 :- ReadGroup(0, stringSlots);
      var g1 :- ReadGroup(1, complexSlots);
      var g2 :- ReadGroup(2, realSlots);
      var g3 :- ReadGroup(3, integerSlots);
      var g4 :- ReadGroup(4, rawSlots);
      r := Ok([g0, g1, g2, g3, g4]);
    }

    /** Structure, payloads, and the tree with its slots filled. */
    method ReadObject() returns (r: Result<Object>)
      requires reader.Valid() && currentDepth == 0 && Queued() == NO_SLOTS && reader.Abs().cur == []
      modifies this, reader.Repr()
      ensures var spec := ObjectReaderSpec.ReadObject(reader.Decoder(), old(reader.Abs()).input, maxDepth);
        match r
        case Ok(x) => spec == Ok(x)
        case Err(e) => reader.Failed(e, spec)
    {
      hide BlockReader<A>.Valid, BlockReader<A>.Abs, ObjectReaderSpec.ReadInto, ReadPayloads, Resolve;
      ghost var start := reader.Abs();
      var tree := ReadInto();
      if tree.Err? {
        return Err(tree.error);
      }
      var contents := ReadObjectData();
      if contents.Err? {
        return Err(contents.error);
      }
      return Ok(Resolve(contents.value, tree.value));
    }
  }

  lemma SamePrefix(a: bytes, b: bytes, n: nat, at: nat, len: nat)
    requires n <= |a| && n <= |b| && a[..n] == b[..n] && at + len <= n
    ensures a[at..at + len] == b[at..at + len]
  {
    assert a[at..at + len] == a[..n][at..at + len];
    assert b[at..at + len] == b[..n][at..at + len];
  }

  /** What the destination held before does not matter. */
  lemma FetchAnywhere(c: Codec, r: Reader, out: bytes)
    requires |out| < TWO_32
    ensures GetDataInto(c, r, out) == Fetch(c, r, |out|)
  {
    PeakFits(|r.cur|, |out|);
    GetDataExact(c, r, out);
    GetDataExact(c, r, seq(|out|, _ => 0));
  }

  lemma OneByte(c: Codec, r: Reader)
    ensures ReaderSpec.GetPod(c, r, 1).Ok? ==> |ReaderSpec.GetPod(c, r, 1).value.0| == 1
  {
  }

  lemma OneByteContiguous(r: Reader)
    ensures ReaderSpec.GetPodContiguous(r, 1).Ok? ==> |ReaderSpec.GetPodContiguous(r, 1).value.0| == 1
  {
  }
}
