/** What the two-phase object reader computes: a tree with empty slots first, then the slots' contents. */
module ObjectReaderSpec {
  import opened Bytes
  import opened BlockSpec
  import opened ReaderSpec
  import opened ObjectSpec

  /** A vector of the tree names its payload by its place in the queue of its kind. */
  datatype Tree =
    | TNil
    | TVector(kind: Kind, size: nat, slot: nat, attrs: seq<TAttribute>)
    | TList(items: seq<Tree>, attrs: seq<TAttribute>)

  datatype TAttribute = TAttribute(name: bytes, value: Tree)

  /** The sizes of the queued slots. */
  type Slots = q: seq<seq<nat>> | |q| == 5 witness [[], [], [], [], []]

  const NO_SLOTS: Slots := [[], [], [], [], []]

  function PushSlot(q: Slots, k: Kind, n: nat): Slots {
    q[QueueOf(k) := q[QueueOf(k)] + [n]]
  }

  // ---------- headers ----------

  /** Type and number of length bytes announced by a header byte below 0x20. */
  function LongHeader(b: nat): Option<(Tag, nat)> {
    if b == 0x00 then Some((NIL, 0))
    else if b == 0x0D then Some((VECTOR(Logical), 1))
    else if b == 0x0E then Some((VECTOR(Logical), 2))
    else if b == 0x0F then Some((VECTOR(Logical), 4))
    else if b == 0x10 then Some((VECTOR(Logical), 8))
    else if b == 0x09 then Some((VECTOR(Integer), 1))
    else if b == 0x0A then Some((VECTOR(Integer), 2))
    else if b == 0x0B then Some((VECTOR(Integer), 4))
    else if b == 0x0C then Some((VECTOR(Integer), 8))
    else if b == 0x05 then Some((VECTOR(Real), 1))
    else if b == 0x06 then Some((VECTOR(Real), 2))
    else if b == 0x07 then Some((VECTOR(Real), 4))
    else if b == 0x08 then Some((VECTOR(Real), 8))
    else if b == 0x15 then Some((VECTOR(Complex), 4))
    else if b == 0x16 then Some((VECTOR(Complex), 8))
    else if b == 0x11 then Some((VECTOR(Character), 1))
    else if b == 0x12 then Some((VECTOR(Character), 2))
    else if b == 0x13 then Some((VECTOR(Character), 4))
    else if b == 0x14 then Some((VECTOR(Character), 8))
    else if b == 0x01 then Some((LIST, 1))
    else if b == 0x02 then Some((LIST, 2))
    else if b == 0x03 then Some((LIST, 4))
    else if b == 0x04 then Some((LIST, 8))
    else if b == 0x17 then Some((VECTOR(Raw), 4))
    else if b == 0x18 then Some((VECTOR(Raw), 8))
    else if b == 0x1E then Some((ATTRIBUTE, 1))
    else if b == 0x1F then Some((ATTRIBUTE, 4))
    else None
  }

  /** Type announced by the upper three bits of a header byte. */
  function ShortHeader(b: nat): Option<Tag> {
    var top := b / 32;
    if top == 4 then Some(VECTOR(Logical))
    else if top == 3 then Some(VECTOR(Integer))
    else if top == 2 then Some(VECTOR(Real))
    else if top == 5 then Some(VECTOR(Character))
    else if top == 1 then Some(LIST)
    else if top == 7 then Some(ATTRIBUTE)
    else None
  }

  datatype Decoded = Decoded(tag: Tag, len: nat, rest: Reader)

  function DecodeHeader(r: Reader, b: nat): Result<Decoded> {
    if b / 32 == 0 then
      match LongHeader(b)
      case None => Err(UnknownHeader)
      case Some(h) =>
        if h.0 == NIL then Ok(Decoded(NIL, 0, r))
        else
          var len :- GetPodContiguous(r, h.1);
          Ok(Decoded(h.0, FromLE(len.0), len.1))
    else
      match ShortHeader(b)
      case None => Err(UnknownHeader)
      case Some(t) => Ok(Decoded(t, b % 32, r))
  }

  datatype Header = Header(tag: Tag, len: nat, attrs: nat, rest: Reader)

  function ReadHeader(c: Codec, r: Reader): Result<Header> {
    var first :- GetPod(c, r, 1);
    var d :- DecodeHeader(first.1, first.0[0] as nat);
    if d.tag == ATTRIBUTE then
      var second :- GetPodContiguous(d.rest, 1);
      var e :- DecodeHeader(second.1, second.0[0] as nat);
      if e.tag == ATTRIBUTE then Err(MalformedHeader)
      else Ok(Header(e.tag, e.len, d.len, e.rest))
    else Ok(Header(d.tag, d.len, 0, d.rest))
  }

  function ReadStringHeader(c: Codec, r: Reader): Result<(nat, Reader)> {
    var first :- GetPod(c, r, 1);
    var b := first.0[0] as nat;
    if b == 253 then
      var len :- GetPodContiguous(first.1, 2);
      Ok((FromLE(len.0), len.1))
    else if b == 254 then
      var len :- GetPodContiguous(first.1, 4);
      Ok((FromLE(len.0), len.1))
    else if b == 255 then Ok((NA_STRING_LENGTH, first.1))
    else Ok((b, first.1))
  }

  // ---------- the structure pass ----------

  /** `n` bytes into a freshly resized destination. */
  function Fetch(c: Codec, r: Reader, n: nat): Result<(bytes, Reader)> {
    GetDataInto(c, r, seq(n, _ => 0))
  }

  function ReadName(c: Codec, r: Reader): Result<(bytes, Reader)> {
    var h :- ReadStringHeader(c, r);
    if h.0 == NA_STRING_LENGTH then Err(MissingAttributeName)
    else if h.0 > MAX_STRING_LENGTH then Err(LengthLimit)
    else if h.0 > 0 then Fetch(c, h.1, h.0)
    else Ok(([], h.1))
  }

  datatype Parsed<T> = Parsed(value: T, slots: Slots, rest: Reader)

  function ReadInto(c: Codec, r: Reader, q: Slots, depth: nat, max: nat): Result<Parsed<Tree>>
    requires depth <= max
    decreases max - depth, 0
  {
    if depth >= max then Err(DepthExceeded)
    else
      var h :- ReadHeader(c, r);
      match h.tag
      case NIL => Ok(Parsed(TNil, q, h.rest))
      case VECTOR(k) => ReadVector(c, h.rest, q, depth + 1, max, k, h.len, h.attrs)
      case LIST => ReadList(c, h.rest, q, depth + 1, max, h.len, h.attrs)
      case ATTRIBUTE => Err(UnknownHeader)
  }

  /** A vector of `len` elements with `n` attributes, behind its header. */
  function ReadVector(c: Codec, r: Reader, q: Slots, depth: nat, max: nat, k: Kind, len: nat, n: nat)
    : Result<Parsed<Tree>>
    requires depth <= max
    decreases max - depth, n + 2
  {
    if len > MAX_VECTOR_LENGTH then Err(LengthLimit)
    else if n > MAX_ATTR_COUNT then Err(LengthLimit)
    else
      var a :- ReadAttributes(c, r, q, depth, max, n, []);
      var i := |a.slots[QueueOf(k)]|;
      if len > 0 then Ok(Parsed(TVector(k, len, i, a.value), PushSlot(a.slots, k, len), a.rest))
      else Ok(Parsed(TVector(k, 0, 0, a.value), a.slots, a.rest))
  }

  function ReadList(c: Codec, r: Reader, q: Slots, depth: nat, max: nat, len: nat, n: nat): Result<Parsed<Tree>>
    requires depth <= max
    decreases max - depth, n + len + 2
  {
    if n > MAX_ATTR_COUNT then Err(LengthLimit)
    else
      var a :- ReadAttributes(c, r, q, depth, max, n, []);
      if len > MAX_VECTOR_LENGTH then Err(LengthLimit)
      else
        var l :- ReadItems(c, a.rest, a.slots, depth, max, len, []);
        Ok(Parsed(TList(l.value, a.value), l.slots, l.rest))
  }

  /** `n` more attributes after `done`. */
  function ReadAttributes(c: Codec, r: Reader, q: Slots, depth: nat, max: nat, n: nat, done: seq<TAttribute>)
    : Result<Parsed<seq<TAttribute>>>
    requires depth <= max
    decreases max - depth, n + 1
  {
    if n == 0 then Ok(Parsed(done, q, r))
    else
      var name :- ReadName(c, r);
      var v :- ReadInto(c, name.1, q, depth, max);
      ReadAttributes(c, v.rest, v.slots, depth, max, n - 1, done + [TAttribute(name.0, v.value)])
  }

  /** `n` more list elements after `done`. */
  function ReadItems(c: Codec, r: Reader, q: Slots, depth: nat, max: nat, n: nat, done: seq<Tree>)
    : Result<Parsed<seq<Tree>>>
    requires depth <= max
    decreases max - depth, n + 1
  {
    if n == 0 then Ok(Parsed(done, q, r))
    else
      var v :- ReadInto(c, r, q, depth, max);
      ReadItems(c, v.rest, v.slots, depth, max, n - 1, done + [v.value])
  }

  // ---------- the payload pass ----------

  function SplitCells(data: bytes, w: nat): seq<bytes>
    requires w > 0
    decreases |data|
  {
    if |data| < w then [] else [data[..w]] + SplitCells(data[w..], w)
  }

  function ReadString(c: Codec, r: Reader): Result<(Option<bytes>, Reader)> {
    var h :- ReadStringHeader(c, r);
    if h.0 == NA_STRING_LENGTH then Ok((None, h.1))
    else if h.0 == 0 then Ok((Some([]), h.1))
    else if h.0 > MAX_STRING_LENGTH then Err(LengthLimit)
    else
      var s :- Fetch(c, h.1, h.0);
      Ok((Some(s.0), s.1))
  }

  function ReadStrings(c: Codec, r: Reader, n: nat, done: seq<Option<bytes>>)
    : Result<(seq<Option<bytes>>, Reader)>
    decreases n
  {
    if n == 0 then Ok((done, r))
    else
      var s :- ReadString(c, r);
      ReadStrings(c, s.1, n - 1, done + [s.0])
  }

  /** Element width of the queue's vectors; 0 for strings. */
  function QueueWidth(k: nat): nat {
    if k == 1 then 16 else if k == 2 then 8 else if k == 3 then 4 else if k == 4 then 1 else 0
  }

  function ReadSlot(c: Codec, r: Reader, k: nat, n: nat): Result<(Payload, Reader)>
    requires k < 5
  {
    if k == 0 then
      var s :- ReadStrings(c, r, n, []);
      Ok((Strings(s.0), s.1))
    else
      var d :- Fetch(c, r, n * QueueWidth(k));
      Ok((Cells(SplitCells(d.0, QueueWidth(k))), d.1))
  }

  function ReadGroup(c: Codec, r: Reader, k: nat, sizes: seq<nat>, done: seq<Payload>)
    : Result<(seq<Payload>, Reader)>
    requires k < 5
    decreases |sizes|
  {
    if sizes == [] then Ok((done, r))
    else
      var p :- ReadSlot(c, r, k, sizes[0]);
      ReadGroup(c, p.1, k, sizes[1..], done + [p.0])
  }

  type Contents = f: seq<seq<Payload>> | |f| == 5 witness [[], [], [], [], []]

  function ReadPayloads(c: Codec, r: Reader, q: Slots): Result<(Contents, Reader)> {
    var g0 :- ReadGroup(c, r, 0, q[0], []);
    var g1 :- ReadGroup(c, g0.1, 1, q[1], []);
    var g2 :- ReadGroup(c, g1.1, 2, q[2], []);
    var g3 :- ReadGroup(c, g2.1, 3, q[3], []);
    var g4 :- ReadGroup(c, g3.1, 4, q[4], []);
    Ok(([g0.0, g1.0, g2.0, g3.0, g4.0], g4.1))
  }

  /** The tree with its slots filled. */
  function Resolve(f: Contents, t: Tree): Object {
    match t
    case TNil => Nil
    case TVector(k, n, i, attrs) =>
      var p := if n > 0 && i < |f[QueueOf(k)]| then f[QueueOf(k)][i]
               else if k == Character then Strings([]) else Cells([]);
      Vector(k, p, ResolveAttrs(f, attrs))
    case TList(items, attrs) => List(ResolveItems(f, items), ResolveAttrs(f, attrs))
  }

  function ResolveAttrs(f: Contents, attrs: seq<TAttribute>): seq<Attribute> {
    if attrs == [] then []
    else [Attribute(attrs[0].name, Resolve(f, attrs[0].value))] + ResolveAttrs(f, attrs[1..])
  }

  function ResolveItems(f: Contents, items: seq<Tree>): seq<Object> {
    if items == [] then [] else [Resolve(f, items[0])] + ResolveItems(f, items[1..])
  }

  /** The whole read: structure, payloads, filled tree. */
  function ReadObject(c: Codec, input: bytes, max: nat): Result<Object> {
    var t :- ReadInto(c, Reader([], input), NO_SLOTS, 0, max);
    var f :- ReadPayloads(c, t.rest, t.slots);
    Ok(Resolve(f.0, t.value))
  }
}
