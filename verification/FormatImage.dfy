/** The uncompressed contents of a file, as one byte string read off the object, and the proof that the scripts of
    the serializer write just that. */
module FormatImage {
  import opened Bytes
  import opened BlockSpec
  import opened ObjectSpec
  import opened FormatBytes

  // ---------- the image ----------

  function Sized(short: nat, long: nat, n: nat): bytes
    requires short + 31 < 256 && long + 3 < 256
  {
    if n < 32 then [(short + n) as byte]
    else if n < 0x100 then [long as byte, n as byte]
    else if n < 0x1_0000 then [(long + 1) as byte] + Word16(n)
    else if n < 0x1_0000_0000 then [(long + 2) as byte] + Word32(n)
    else [(long + 3) as byte] + Word64(n)
  }

  function WideSized(code: nat, n: nat): bytes
    requires code + 1 < 256
  {
    if n < 0x1_0000_0000 then [code as byte] + Word32(n) else [(code + 1) as byte] + Word64(n)
  }

  function VectorHead(k: Kind, n: nat): bytes {
    match k
    case Real => Sized(0x40, 0x05, n)
    case Integer => Sized(0x60, 0x09, n)
    case Logical => Sized(0x80, 0x0D, n)
    case Character => Sized(0xA0, 0x11, n)
    case Complex => WideSized(0x15, n)
    case Raw => WideSized(0x17, n)
  }

  function AttributeHead(n: nat): bytes {
    if n == 0 then [] else if n < 32 then [(0xE0 + n) as byte] else if n < 256 then [0x1E, n as byte]
    else [0x1F] + Word32(n)
  }

  function StringImage(s: Option<bytes>): bytes {
    match s
    case None => [255]
    case Some(v) =>
      (if |v| < 253 then [|v| as byte] else if |v| < 65536 then [253] + Word16(|v|) else [254] + Word32(|v|)) + v
  }

  /** Headers, attribute names and nesting, in pre-order; an object's attributes come before its elements. */
  function Layout(x: Object): bytes {
    match x
    case Nil => [0x00]
    case Vector(k, p, attrs) => AttributeHead(|attrs|) + VectorHead(k, Size(p)) + AttrsLayout(attrs)
    case List(items, attrs) =>
      AttributeHead(|attrs|) + Sized(0x20, 0x01, |items|) + (AttrsLayout(attrs) + ItemsLayout(items))
  }

  function AttrsLayout(attrs: seq<Attribute>): bytes {
    if attrs == [] then []
    else StringImage(Some(attrs[0].name)) + (Layout(attrs[0].value) + AttrsLayout(attrs[1..]))
  }

  function ItemsLayout(items: seq<Object>): bytes {
    if items == [] then [] else Layout(items[0]) + ItemsLayout(items[1..])
  }

  /** The payloads of all non-empty vectors; those of an object's attributes come before its own. */
  function Leaves(x: Object): seq<Deferred> {
    match x
    case Nil => []
    case Vector(k, p, attrs) => AttrsLeaves(attrs) + (if Size(p) > 0 then [Deferred(k, p)] else [])
    case List(items, attrs) => AttrsLeaves(attrs) + ItemsLeaves(items)
  }

  function AttrsLeaves(attrs: seq<Attribute>): seq<Deferred> {
    if attrs == [] then [] else Leaves(attrs[0].value) + AttrsLeaves(attrs[1..])
  }

  function ItemsLeaves(items: seq<Object>): seq<Deferred> {
    if items == [] then [] else Leaves(items[0]) + ItemsLeaves(items[1..])
  }

  /** Those of the given kinds, in their order. */
  function Only(ds: seq<Deferred>, kinds: set<Kind>): seq<Deferred> {
    if ds == [] then []
    else (if ds[0].kind in kinds then [ds[0]] else []) + Only(ds[1..], kinds)
  }

  function StringsImage(ss: seq<Option<bytes>>): bytes {
    if ss == [] then [] else StringImage(ss[0]) + StringsImage(ss[1..])
  }

  function PayloadImage(d: Deferred): bytes {
    match d.payload
    case Strings(ss) => StringsImage(ss)
    case Cells(cells) => Concat(cells)
  }

  function PayloadsImage(ds: seq<Deferred>): bytes {
    if ds == [] then [] else PayloadImage(ds[0]) + PayloadsImage(ds[1..])
  }

  /** All payloads: strings, complex, real, integer and logical together, raw. */
  function PassImage(ds: seq<Deferred>): bytes {
    PayloadsImage(Only(ds, {Character})) + (PayloadsImage(Only(ds, {Complex})) + (PayloadsImage(Only(ds, {Real}))
      + (PayloadsImage(Only(ds, {Integer, Logical})) + PayloadsImage(Only(ds, {Raw})))))
  }

  function Image(x: Object): bytes {
    Layout(x) + PassImage(Leaves(x))
  }

  // ---------- the queues ----------

  lemma {:induction false} OnlyAppend(a: seq<Deferred>, b: seq<Deferred>, kinds: set<Kind>)
    ensures Only(a + b, kinds) == Only(a, kinds) + Only(b, kinds)
  {
    if a == [] {
      assert a + b == b;
    } else {
      assert (a + b)[1..] == a[1..] + b;
      OnlyAppend(a[1..], b, kinds);
    }
  }

  /** The kinds that queue `i` collects. */
  function Kinds(i: nat): set<Kind> {
    if i == 0 then {Character} else if i == 1 then {Complex} else if i == 2 then {Real}
    else if i == 3 then {Integer, Logical} else {Raw}
  }

  lemma QueueKinds(k: Kind, i: nat)
    requires i < 5
    ensures k in Kinds(i) <==> QueueOf(k) == i
  {
  }

  lemma Pushed(q: Queues, d: Deferred, i: nat)
    requires i < 5
    ensures Push(q, d)[i] == q[i] + Only([d], Kinds(i))
  {
    hide Kinds;
    QueueKinds(d.kind, i);
    assert Only([d], Kinds(i)) == (if d.kind in Kinds(i) then [d] else []) + Only([], Kinds(i));
  }

  /** Each queue holds the payloads of its kinds, in the order of the object. */
  lemma {:induction false} QueuesHold(q: Queues, x: Object, i: nat)
    requires i < 5
    ensures Defer(q, x)[i] == q[i] + Only(Leaves(x), Kinds(i))
    decreases x
  {
    hide Kinds, Only, Push;
    assert Only([], Kinds(i)) == [] by { OnlyNone(Kinds(i)); }
    match x
    case Nil =>
    case Vector(k, p, attrs) =>
      AttrsQueuesHold(q, attrs, i);
      if Size(p) > 0 {
        Pushed(DeferAttrs(q, attrs), Deferred(k, p), i);
        OnlyAppend(AttrsLeaves(attrs), [Deferred(k, p)], Kinds(i));
      } else {
        assert AttrsLeaves(attrs) + [] == AttrsLeaves(attrs);
      }
    case List(items, attrs) =>
      AttrsQueuesHold(q, attrs, i);
      ItemsQueuesHold(DeferAttrs(q, attrs), items, i);
      OnlyAppend(AttrsLeaves(attrs), ItemsLeaves(items), Kinds(i));
  }

  lemma OnlyNone(kinds: set<Kind>)
    ensures Only([], kinds) == []
  {
  }

  lemma {:induction false} AttrsQueuesHold(q: Queues, attrs: seq<Attribute>, i: nat)
    requires i < 5
    ensures DeferAttrs(q, attrs)[i] == q[i] + Only(AttrsLeaves(attrs), Kinds(i))
    decreases attrs
  {
    hide Kinds, Only;
    if attrs == [] {
      OnlyNone(Kinds(i));
    } else {
      QueuesHold(q, attrs[0].value, i);
      AttrsQueuesHold(Defer(q, attrs[0].value), attrs[1..], i);
      OnlyAppend(Leaves(attrs[0].value), AttrsLeaves(attrs[1..]), Kinds(i));
    }
  }

  lemma {:induction false} ItemsQueuesHold(q: Queues, items: seq<Object>, i: nat)
    requires i < 5
    ensures DeferItems(q, items)[i] == q[i] + Only(ItemsLeaves(items), Kinds(i))
    decreases items
  {
    hide Kinds, Only;
    if items == [] {
      OnlyNone(Kinds(i));
    } else {
      QueuesHold(q, items[0], i);
      ItemsQueuesHold(Defer(q, items[0]), items[1..], i);
      OnlyAppend(Leaves(items[0]), ItemsLeaves(items[1..]), Kinds(i));
    }
  }

  // ---------- what is written ----------

  lemma {:induction false} PayloadsAppend(a: seq<Item>, b: seq<Item>)
    ensures Payloads(a + b) == Payloads(a) + Payloads(b)
  {
    if a == [] {
      assert a + b == b;
    } else {
      assert (a + b)[1..] == a[1..] + b;
      PayloadsAppend(a[1..], b);
    }
  }

  lemma PayloadsOne(it: Item)
    ensures Payloads([it]) == BlockSpec.Payload(it)
  {
    assert [it][1..] == [];
    assert BlockSpec.Payload(it) + [] == BlockSpec.Payload(it);
  }

  lemma HeadWritten(k: Kind, n: nat, attrs: nat)
    requires n < TWO_64 && attrs < TWO_32
    ensures Concat(HeaderPods(VECTOR(k), n, attrs)) == AttributeHead(attrs) + VectorHead(k, n)
    ensures Concat(HeaderPods(LIST, n, attrs)) == AttributeHead(attrs) + Sized(0x20, 0x01, n)
  {
    hide HeaderPods, Concat, AttributeHead, VectorHead, Sized;
    PlainHead(k, n);
    if attrs > 0 {
      AttributesFirst(VECTOR(k), n, attrs);
      AttributesFirst(LIST, n, attrs);
    } else {
      assert AttributeHead(0) == [] by { NoAttributes(); }
    }
  }

  lemma NoAttributes()
    ensures AttributeHead(0) == []
  {
  }

  lemma AttributesFirst(t: Tag, n: nat, attrs: nat)
    requires t != NIL && t != ATTRIBUTE && 0 < attrs < TWO_32
    ensures Concat(HeaderPods(t, n, attrs)) == AttributeHead(attrs) + Concat(HeaderPods(t, n, 0))
  {
    hide HeaderPods, Concat, Word32;
    AttributeBytes(t, n, attrs);
  }

  lemma PlainHead(k: Kind, n: nat)
    requires n < TWO_64
    ensures Concat(HeaderPods(VECTOR(k), n, 0)) == VectorHead(k, n)
    ensures Concat(HeaderPods(LIST, n, 0)) == Sized(0x20, 0x01, n)
  {
    hide HeaderPods, Concat, Word16, Word32, Word64;
    HeaderBytes(n);
    WideHeaderBytes(n);
  }

  lemma StringWritten(s: Option<bytes>)
    requires s.Some? ==> |s.value| < TWO_32
    ensures Payloads(StringItems(s)) == StringImage(s)
  {
    hide StringPods, Concat, Word16, Word32;
    match s
    case None => StringBytes(0);
    case Some(v) =>
      StringBytes(|v|);
      var run := Run(StringPods(|v|));
      if v == [] {
        PayloadsOne(run);
        assert NameItems(v) == [run];
      } else {
        PayloadsOne(run);
        PayloadsOne(Data(v));
        PayloadsAppend([run], [Data(v)]);
      }
  }

  lemma {:induction false} LayoutWritten(x: Object)
    requires StructureFits(x)
    ensures Payloads(Structure(x)) == Layout(x)
    decreases x
  {
    hide HeaderPods, Concat, VectorHead, AttributeHead, Sized, Payloads;
    match x
    case Nil => StringBytes(0);
    case Vector(k, p, attrs) =>
      HeadWritten(k, Size(p), |attrs|);
      AttrsWritten(attrs);
      PayloadsAppend([Run(HeaderPods(VECTOR(k), Size(p), |attrs|))], AttrItems(attrs));
      PayloadsOne(Run(HeaderPods(VECTOR(k), Size(p), |attrs|)));
    case List(items, attrs) =>
      HeadWritten(Raw, |items|, |attrs|);
      AttrsWritten(attrs);
      ItemsWritten(items);
      PayloadsAppend([Run(HeaderPods(LIST, |items|, |attrs|))], AttrItems(attrs) + ListItems(items));
      PayloadsAppend(AttrItems(attrs), ListItems(items));
      PayloadsOne(Run(HeaderPods(LIST, |items|, |attrs|)));
  }

  lemma {:induction false} AttrsWritten(attrs: seq<Attribute>)
    requires AttrsFit(attrs)
    ensures Payloads(AttrItems(attrs)) == AttrsLayout(attrs)
    decreases attrs
  {
    hide Payloads, StringImage, NameItems;
    if attrs == [] {
      NothingWritten();
    } else {
      var name, value := attrs[0].name, attrs[0].value;
      StringWritten(Some(name));
      LayoutWritten(value);
      AttrsWritten(attrs[1..]);
      PayloadsAppend(NameItems(name), Structure(value) + AttrItems(attrs[1..]));
      PayloadsAppend(Structure(value), AttrItems(attrs[1..]));
    }
  }

  lemma NothingWritten()
    ensures Payloads([]) == []
  {
  }

  lemma {:induction false} ItemsWritten(items: seq<Object>)
    requires ItemsFit(items)
    ensures Payloads(ListItems(items)) == ItemsLayout(items)
    decreases items
  {
    hide Payloads;
    if items == [] {
      NothingWritten();
    } else {
      LayoutWritten(items[0]);
      ItemsWritten(items[1..]);
      PayloadsAppend(Structure(items[0]), ListItems(items[1..]));
    }
  }

  lemma {:induction false} StringsWritten(ss: seq<Option<bytes>>)
    requires forall i :: 0 <= i < |ss| ==> ss[i].Some? ==> |ss[i].value| <= MAX_STRING_LENGTH
    ensures Payloads(StringsItems(ss)) == StringsImage(ss)
    decreases |ss|
  {
    hide Payloads, StringImage, StringItems;
    if ss == [] {
      NothingWritten();
    } else {
      StringWritten(ss[0]);
      StringsWritten(ss[1..]);
      PayloadsAppend(StringItems(ss[0]), StringsItems(ss[1..]));
    }
  }

  lemma {:induction false} CellsWritten(cells: seq<bytes>)
    ensures Payloads(CellItems(cells)) == Concat(cells)
    decreases |cells|
  {
    hide Payloads;
    if cells == [] {
      NothingWritten();
    } else {
      PayloadsOne(Data(cells[0]));
      CellsWritten(cells[1..]);
      PayloadsAppend([Data(cells[0])], CellItems(cells[1..]));
    }
  }

  lemma PayloadWritten(direct: bool, d: Deferred)
    requires StringsFit(d)
    ensures Payloads(PayloadItems(direct, d)) == PayloadImage(d)
  {
    hide Payloads;
    match d.payload
    case Strings(ss) => StringsWritten(ss);
    case Cells(cells) =>
      CellsWritten(cells);
      PayloadsOne(Data(Concat(cells)));
  }

  lemma {:induction false} GroupWritten(mode: Mode, ds: seq<Deferred>)
    requires forall i :: 0 <= i < |ds| ==> StringsFit(ds[i])
    ensures Payloads(GroupItems(mode, ds)) == PayloadsImage(ds)
    decreases |ds|
  {
    hide Payloads, PayloadItems, PayloadImage, StringsFit;
    if ds == [] {
      NothingWritten();
    } else {
      PayloadWritten(mode(|ds|), ds[0]);
      GroupWritten(mode, ds[1..]);
      PayloadsAppend(PayloadItems(mode(|ds|), ds[0]), GroupItems(mode, ds[1..]));
    }
  }

  /** What is written for an object, whatever the emission modes, is its image. */
  lemma ScriptImage(direct: Modes, x: Object)
    requires StructureFits(x) && QueuesFit(Defer(NO_PAYLOADS, x))
    ensures Payloads(Script(direct, x)) == Image(x)
  {
    hide Payloads, GroupItems, PayloadsImage, Only, StringsFit, Structure, Layout, Leaves;
    var q, ds := Defer(NO_PAYLOADS, x), Leaves(x);
    forall i | 0 <= i < 5 ensures Payloads(GroupItems(direct(i), q[i])) == PayloadsImage(Only(ds, Kinds(i))) {
      QueuesHold(NO_PAYLOADS, x, i);
      assert NO_PAYLOADS[i] == [];
      assert [] + Only(ds, Kinds(i)) == Only(ds, Kinds(i));
      GroupWritten(direct(i), q[i]);
    }
    PassWritten(direct, q);
    LayoutWritten(x);
    PayloadsAppend(Structure(x), PayloadPass(direct, q));
  }

  lemma PassWritten(direct: Modes, q: Queues)
    ensures Payloads(PayloadPass(direct, q)) == Payloads(GroupItems(direct(0), q[0]))
      + (Payloads(GroupItems(direct(1), q[1])) + (Payloads(GroupItems(direct(2), q[2]))
      + (Payloads(GroupItems(direct(3), q[3])) + Payloads(GroupItems(direct(4), q[4])))))
  {
    hide Payloads, GroupItems;
    var g3 := GroupItems(direct(3), q[3]) + GroupItems(direct(4), q[4]);
    var g2 := GroupItems(direct(2), q[2]) + g3;
    var g1 := GroupItems(direct(1), q[1]) + g2;
    PayloadsAppend(GroupItems(direct(0), q[0]), g1);
    PayloadsAppend(GroupItems(direct(1), q[1]), g2);
    PayloadsAppend(GroupItems(direct(2), q[2]), g3);
    PayloadsAppend(GroupItems(direct(3), q[3]), GroupItems(direct(4), q[4]));
  }

  /** The blocks of an object are its image in pieces, and a short image is one block. */
  lemma BlocksAreImage(direct: Modes, x: Object)
    requires StructureFits(x) && QueuesFit(Defer(NO_PAYLOADS, x))
    ensures ItemsOk(Script(direct, x)) && Concat(Blocks(Script(direct, x))) == Image(x)
    ensures 1 <= |Image(x)| <= 1048512 ==> Blocks(Script(direct, x)) == [Image(x)]
  {
    hide Image, Script, Blocks;
    ScriptOk(direct, x);
    BlockSizes(Script(direct, x));
    ScriptImage(direct, x);
    OneBlock(Blocks(Script(direct, x)));
  }

  lemma OneBlock(bs: seq<bytes>)
    requires forall i :: 0 <= i < |bs| ==> 1 <= |bs[i]| <= MAX_BLOCKSIZE
    requires forall i :: 0 <= i < |bs| - 1 ==> MIN_BLOCKSIZE < |bs[i]|
    ensures 1 <= |Concat(bs)| <= 1048512 ==> bs == [Concat(bs)]
  {
    if bs != [] {
      assert Concat(bs) == bs[0] + Concat(bs[1..]);
      if |bs| == 1 {
        assert bs[1..] == [];
        assert bs == [bs[0]] && bs[0] + [] == bs[0];
      }
    }
  }

  // ---------- a file written out ----------

  /** A list of a real vector, a complex vector with a logical attribute "a", and strings NA, "" and "hi". */
  function Example(r: bytes, z: bytes, l: bytes): Object {
    List([Vector(Real, Cells([r]), []),
          Vector(Complex, Cells([z]), [Attribute([97], Vector(Logical, Cells([l]), []))]),
          Vector(Character, Strings([None, Some([]), Some([104, 105])]), [])], [])
  }

  /** Its bytes: the structure, then the strings, the complex number, the real number and the logical value. */
  lemma ExampleImage(r: bytes, z: bytes, l: bytes)
    ensures Image(Example(r, z, l))
         == [0x23, 0x41, 0xE1, 0x15, 1, 0, 0, 0, 1, 97, 0x81, 0xA3] + ([255, 0, 2, 104, 105] + (z + (r + l)))
  {
    hide PassImage, Leaves, Layout;
    ExampleLayout(r, z, l);
    ExampleLeaves(r, z, l);
    ExamplePass(r, z, l);
  }

  lemma ExampleLayout(r: bytes, z: bytes, l: bytes)
    ensures Layout(Example(r, z, l)) == [0x23, 0x41, 0xE1, 0x15, 1, 0, 0, 0, 1, 97, 0x81, 0xA3]
  {
    hide Layout, ItemsLayout, VectorHead, Word32;
    var item := Vector(Logical, Cells([l]), []);
    var a, b := Vector(Real, Cells([r]), []), Vector(Complex, Cells([z]), [Attribute([97], item)]);
    var c := Vector(Character, Strings([None, Some([]), Some([104, 105])]), []);
    Bare(Real, Cells([r]));
    Bare(Logical, Cells([l]));
    Bare(Character, c.payload);
    Heads();
    OneAttribute(Complex, Cells([z]), 97, item);
    ThreeItems(a, b, c);
  }

  lemma Heads()
    ensures VectorHead(Real, 1) == [0x41] && VectorHead(Logical, 1) == [0x81] && VectorHead(Character, 3) == [0xA3]
    ensures VectorHead(Complex, 1) == [0x15, 1, 0, 0, 0]
  {
  }

  lemma Bare(k: Kind, p: Payload)
    ensures Layout(Vector(k, p, [])) == VectorHead(k, Size(p))
  {
    hide VectorHead;
    assert [] + VectorHead(k, Size(p)) + [] == VectorHead(k, Size(p));
  }

  lemma OneAttribute(k: Kind, p: Payload, name: byte, value: Object)
    ensures Layout(Vector(k, p, [Attribute([name], value)]))
         == [0xE1] + VectorHead(k, Size(p)) + ([1, name] + Layout(value))
  {
    hide VectorHead;
    var attrs := [Attribute([name], value)];
    assert attrs[1..] == [] && AttrsLayout([]) == [];
    assert StringImage(Some([name])) == [1, name];
    assert Layout(value) + [] == Layout(value);
    assert AttrsLayout(attrs) == StringImage(Some([name])) + (Layout(value) + AttrsLayout([]));
  }

  lemma ThreeItems(a: Object, b: Object, c: Object)
    ensures Layout(List([a, b, c], [])) == [0x23] + (Layout(a) + (Layout(b) + Layout(c)))
  {
    hide Layout;
    var items := [a, b, c];
    assert items[1..] == [b, c] && [b, c][1..] == [c];
    PlainList(items);
    LastItem(c);
    assert ItemsLayout([b, c]) == Layout(b) + ItemsLayout([c]);
    assert ItemsLayout(items) == Layout(a) + ItemsLayout([b, c]);
  }

  lemma LastItem(c: Object)
    ensures ItemsLayout([c]) == Layout(c)
  {
    hide Layout;
    assert [c][1..] == [] && ItemsLayout([]) == [];
    assert Layout(c) + [] == Layout(c);
  }

  lemma PlainList(items: seq<Object>)
    requires |items| < 32
    ensures Layout(List(items, [])) == [(0x20 + |items|) as byte] + ItemsLayout(items)
  {
    hide ItemsLayout;
    assert [] + ItemsLayout(items) == ItemsLayout(items);
    assert [] + Sized(0x20, 0x01, |items|) == Sized(0x20, 0x01, |items|);
  }

  function ExampleDeferred(r: bytes, z: bytes, l: bytes): seq<Deferred> {
    [Deferred(Real, Cells([r])), Deferred(Logical, Cells([l])), Deferred(Complex, Cells([z])),
     Deferred(Character, Strings([None, Some([]), Some([104, 105])]))]
  }

  lemma ExampleLeaves(r: bytes, z: bytes, l: bytes)
    ensures Leaves(Example(r, z, l)) == ExampleDeferred(r, z, l)
  {
    var item := Vector(Logical, Cells([l]), []);
    var attrs := [Attribute([97], item)];
    var a, b := Vector(Real, Cells([r]), []), Vector(Complex, Cells([z]), attrs);
    var c := Vector(Character, Strings([None, Some([]), Some([104, 105])]), []);
    assert Leaves(a) == [Deferred(Real, a.payload)] && Leaves(item) == [Deferred(Logical, item.payload)];
    assert attrs[1..] == [];
    assert AttrsLeaves(attrs) == [Deferred(Logical, item.payload)];
    assert Leaves(b) == [Deferred(Logical, item.payload), Deferred(Complex, b.payload)];
    assert Leaves(c) == [Deferred(Character, c.payload)];
    var items := [a, b, c];
    assert items[1..] == [b, c] && [b, c][1..] == [c] && [c][1..] == [];
    assert ItemsLeaves([c]) == [Deferred(Character, c.payload)];
    assert ItemsLeaves([b, c]) == Leaves(b) + ItemsLeaves([c]);
    assert ItemsLeaves(items) == Leaves(a) + ItemsLeaves([b, c]);
  }

  /** The one of four that is of these kinds. */
  lemma OnlyOf(a: Deferred, b: Deferred, c: Deferred, d: Deferred, kinds: set<Kind>)
    ensures Only([a, b, c, d], kinds) == (if a.kind in kinds then [a] else []) + ((if b.kind in kinds then [b] else [])
      + ((if c.kind in kinds then [c] else []) + (if d.kind in kinds then [d] else [])))
  {
    assert [a, b, c, d][1..] == [b, c, d] && [b, c, d][1..] == [c, d] && [c, d][1..] == [d] && [d][1..] == [];
    assert Only([d], kinds) == (if d.kind in kinds then [d] else []) + Only([], kinds);
    assert Only([c, d], kinds) == (if c.kind in kinds then [c] else []) + Only([d], kinds);
    assert Only([b, c, d], kinds) == (if b.kind in kinds then [b] else []) + Only([c, d], kinds);
  }

  lemma ExamplePass(r: bytes, z: bytes, l: bytes)
    ensures PassImage(ExampleDeferred(r, z, l)) == [255, 0, 2, 104, 105] + (z + (r + l))
  {
    hide Only;
    var ds := ExampleDeferred(r, z, l);
    OnlyOf(ds[0], ds[1], ds[2], ds[3], {Character});
    OnlyOf(ds[0], ds[1], ds[2], ds[3], {Complex});
    OnlyOf(ds[0], ds[1], ds[2], ds[3], {Real});
    OnlyOf(ds[0], ds[1], ds[2], ds[3], {Integer, Logical});
    OnlyOf(ds[0], ds[1], ds[2], ds[3], {Raw});
    OneCell(ds[0], r);
    OneCell(ds[1], l);
    OneCell(ds[2], z);
    ExampleStrings(ds[3]);
    NoPayload();
    hide PayloadsImage;
    assert [] + ([] + ([] + [ds[3]])) == [ds[3]] && [ds[0]] + ([] + ([] + [])) == [ds[0]];
    assert [] + ([ds[1]] + ([] + [])) == [ds[1]] && [] + ([] + ([ds[2]] + [])) == [ds[2]];
    assert l + [] == l;
  }

  lemma NoPayload()
    ensures PayloadsImage([]) == []
  {
  }

  lemma ExampleStrings(d: Deferred)
    requires d.payload == Strings([None, Some([]), Some([104, 105])])
    ensures PayloadsImage([d]) == [255, 0, 2, 104, 105]
  {
    var ss: seq<Option<bytes>> := d.payload.strings;
    var hi: seq<Option<bytes>> := [Some([104, 105])];
    assert ss[1..][1..] == hi && hi[1..] == [];
    assert StringsImage(hi) == [2, 104, 105];
    assert StringsImage(ss[1..]) == [0, 2, 104, 105];
    assert PayloadImage(d) == [255, 0, 2, 104, 105];
    assert [d][1..] == [];
    assert PayloadsImage([d]) == PayloadImage(d) + PayloadsImage([]);
  }

  lemma OneCell(d: Deferred, cell: bytes)
    requires d.payload == Cells([cell])
    ensures PayloadsImage([d]) == cell
  {
    assert [d][1..] == [] && [cell][1..] == [] && PayloadsImage([]) == [];
    assert Concat([cell]) == cell + Concat<byte>([]);
    assert cell + [] == cell;
    assert PayloadsImage([d]) == PayloadImage(d) + PayloadsImage([]);
  }
}
