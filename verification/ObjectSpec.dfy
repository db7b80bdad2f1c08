/** The object tree and its two-phase serialised form: structure in pre-order first, payloads afterwards
    in five groups. */
module ObjectSpec {
  import opened Bytes
  import opened BlockSpec

  datatype Kind = Logical | Integer | Real | Complex | Character | Raw

  /** The elements of a vector: fixed-width cells, or strings of which some may be NA. */
  datatype Payload = Cells(cells: seq<bytes>) | Strings(strings: seq<Option<bytes>>)

  datatype Object =
    | Nil
    | Vector(kind: Kind, payload: Payload, attrs: seq<Attribute>)
    | List(items: seq<Object>, attrs: seq<Attribute>)

  datatype Attribute = Attribute(name: bytes, value: Object)

  const MAX_VECTOR_LENGTH: nat := 4503599627370496
  const MAX_ATTR_COUNT: nat := 2147483647
  const MAX_STRING_LENGTH: nat := 2147483647
  const NA_STRING_LENGTH: nat := 4294967295

  function Width(k: Kind): nat {
    match k
    case Logical => 4
    case Integer => 4
    case Real => 8
    case Complex => 16
    case Character => 0
    case Raw => 1
  }

  function Size(p: Payload): nat {
    match p
    case Cells(cells) => |cells|
    case Strings(strings) => |strings|
  }

  /** What the C++ types guarantee of a payload. */
  predicate PayloadTyped(k: Kind, p: Payload) {
    match p
    case Cells(cells) => k != Character && forall i :: 0 <= i < |cells| ==> |cells[i]| == Width(k)
    case Strings(strings) => k == Character
  }

  predicate Typed(x: Object) {
    match x
    case Nil => true
    case Vector(k, p, attrs) => PayloadTyped(k, p) && AttrsTyped(attrs)
    case List(items, attrs) => AttrsTyped(attrs) && AllTyped(items)
  }

  predicate AttrsTyped(attrs: seq<Attribute>) {
    attrs != [] ==> Typed(attrs[0].value) && AttrsTyped(attrs[1..])
  }

  predicate AllTyped(items: seq<Object>) {
    items != [] ==> Typed(items[0]) && AllTyped(items[1..])
  }

  /** Nesting depth: list elements and attribute values both count. */
  function Depth(x: Object): (d: nat)
    ensures d >= 1
  {
    match x
    case Nil => 1
    case Vector(_, _, attrs) => 1 + AttrsDepth(attrs)
    case List(items, attrs) => 1 + Max(AttrsDepth(attrs), ItemsDepth(items))
  }

  function AttrsDepth(attrs: seq<Attribute>): nat {
    if attrs == [] then 0 else Max(Depth(attrs[0].value), AttrsDepth(attrs[1..]))
  }

  function ItemsDepth(items: seq<Object>): nat {
    if items == [] then 0 else Max(Depth(items[0]), ItemsDepth(items[1..]))
  }

  function Max(a: nat, b: nat): nat {
    if a < b then b else a
  }

  /** The size limits that are checked while the structure is written. */
  predicate StructureFits(x: Object) {
    match x
    case Nil => true
    case Vector(_, p, attrs) => Size(p) <= MAX_VECTOR_LENGTH && |attrs| <= MAX_ATTR_COUNT && AttrsFit(attrs)
    case List(items, attrs) =>
      |items| <= MAX_VECTOR_LENGTH && |attrs| <= MAX_ATTR_COUNT && AttrsFit(attrs) && ItemsFit(items)
  }

  predicate AttrsFit(attrs: seq<Attribute>) {
    attrs != [] ==>
      |attrs[0].name| <= MAX_STRING_LENGTH && StructureFits(attrs[0].value) && AttrsFit(attrs[1..])
  }

  predicate ItemsFit(items: seq<Object>) {
    items != [] ==> StructureFits(items[0]) && ItemsFit(items[1..])
  }

  // ---------- headers ----------

  datatype Tag = NIL | VECTOR(kind: Kind) | LIST | ATTRIBUTE

  /** Type bits of the header whose low five bits are the length, for the types that have one. */
  function ShortCode(t: Tag): nat {
    match t
    case LIST => 0x20
    case VECTOR(Real) => 0x40
    case VECTOR(Integer) => 0x60
    case VECTOR(Logical) => 0x80
    case VECTOR(Character) => 0xA0
    case ATTRIBUTE => 0xE0
    case _ => 0
  }

  /** Header byte announcing a length of `w` bytes. */
  function LongCode(t: Tag, w: nat): nat {
    var step := if w == 1 then 0 else if w == 2 then 1 else if w == 4 then 2 else 3;
    match t
    case LIST => 0x01 + step
    case VECTOR(Real) => 0x05 + step
    case VECTOR(Integer) => 0x09 + step
    case VECTOR(Logical) => 0x0D + step
    case VECTOR(Character) => 0x11 + step
    case VECTOR(Complex) => if w == 4 then 0x15 else 0x16
    case VECTOR(Raw) => if w == 4 then 0x17 else 0x18
    case ATTRIBUTE => if w == 1 then 0x1E else 0x1F
    case NIL => 0x00
  }

  /** Bytes needed for length `n` in the header of type `t`; 0 when it shares the header byte. */
  function LengthWidth(t: Tag, n: nat): nat {
    if t == ATTRIBUTE then (if n < 32 then 0 else if n < 256 then 1 else 4)
    else if t == VECTOR(Complex) || t == VECTOR(Raw) then (if n < TWO_32 then 4 else 8)
    else if n < 32 then 0 else if n < 256 then 1 else if n < 65536 then 2
    else if n < TWO_32 then 4 else 8
  }

  function LengthPods(t: Tag, n: nat): (pods: seq<bytes>)
    requires t != NIL
  {
    var w := LengthWidth(t, n);
    if w == 0 then [[(ShortCode(t) + n) as byte]]
    else [[LongCode(t, w) as byte], LE(n, w)]
  }

  /** The contiguous run of pods that announces an object. */
  function HeaderPods(t: Tag, n: nat, attrs: nat): seq<bytes>
    requires t != NIL
  {
    if attrs == 0 then LengthPods(t, n) else LengthPods(ATTRIBUTE, attrs) + LengthPods(t, n)
  }

  function StringPods(n: nat): seq<bytes> {
    if n < 253 then [[n as byte]]
    else if n < 65536 then [[253], LE(n, 2)]
    else [[254], LE(n, 4)]
  }

  lemma RunLengths(t: Tag, n: nat, attrs: nat)
    requires t != NIL
    ensures HeaderPods(t, n, attrs) != []
    ensures |HeaderPods(t, n, attrs)[0]| == 1
    ensures 1 <= |Concat(HeaderPods(t, n, attrs))| <= 14
    ensures StringPods(n) != [] && |StringPods(n)[0]| == 1
    ensures 1 <= |Concat(StringPods(n))| <= 5
  {
    LengthRun(t, n);
    LengthRun(ATTRIBUTE, attrs);
    if attrs != 0 {
      ConcatAppend(LengthPods(ATTRIBUTE, attrs), LengthPods(t, n));
    }
    if n >= 253 {
      var w := if n < 65536 then 2 else 4;
      TwoPods(StringPods(n)[0], LE(n, w));
    } else {
      OnePod(StringPods(n)[0]);
    }
  }

  lemma OnePod(a: bytes)
    ensures Concat([a]) == a
  {
    assert [a][1..] == [];
    assert a + [] == a;
  }

  lemma TwoPods(a: bytes, b: bytes)
    ensures Concat([a, b]) == a + b
  {
    assert [a, b][1..] == [b];
    OnePod(b);
  }

  lemma LengthRun(t: Tag, n: nat)
    requires t != NIL
    ensures Concat(LengthPods(t, n)) ==
      if LengthWidth(t, n) == 0 then [(ShortCode(t) + n) as byte]
      else [LongCode(t, LengthWidth(t, n)) as byte] + LE(n, LengthWidth(t, n))
    ensures LengthWidth(t, n) == 0 ==> ShortCode(t) != 0 && n < 32
    ensures t == ATTRIBUTE ==> LengthWidth(t, n) <= 4
    ensures |LengthPods(t, n)[0]| == 1
  {
    var w := LengthWidth(t, n);
    if w == 0 {
      OnePod([(ShortCode(t) + n) as byte]);
    } else {
      TwoPods([LongCode(t, w) as byte], LE(n, w));
    }
  }

  // ---------- the structure pass ----------

  function NameItems(name: bytes): seq<Item> {
    [Run(StringPods(|name|))] + if name == [] then [] else [Data(name)]
  }

  function Structure(x: Object): seq<Item> {
    match x
    case Nil => [Run([[0]])]
    case Vector(k, p, attrs) => [Run(HeaderPods(VECTOR(k), Size(p), |attrs|))] + AttrItems(attrs)
    case List(items, attrs) =>
      [Run(HeaderPods(LIST, |items|, |attrs|))] + (AttrItems(attrs) + ListItems(items))
  }

  function AttrItems(attrs: seq<Attribute>): seq<Item> {
    if attrs == [] then []
    else NameItems(attrs[0].name) + (Structure(attrs[0].value) + AttrItems(attrs[1..]))
  }

  function ListItems(items: seq<Object>): seq<Item> {
    if items == [] then [] else Structure(items[0]) + ListItems(items[1..])
  }

  // ---------- the deferred payloads ----------

  /** A queued payload with the kind that selects how it is emitted. */
  datatype Deferred = Deferred(kind: Kind, payload: Payload)

  /** The five queues, in the order in which they are emitted. */
  type Queues = q: seq<seq<Deferred>> | |q| == 5 witness [[], [], [], [], []]

  const NO_PAYLOADS: Queues := [[], [], [], [], []]

  /** Logical and integer payloads share a queue. */
  function QueueOf(k: Kind): (i: nat)
    ensures i < 5
  {
    match k
    case Character => 0
    case Complex => 1
    case Real => 2
    case Logical => 3
    case Integer => 3
    case Raw => 4
  }

  function Push(q: Queues, d: Deferred): Queues {
    var i := QueueOf(d.kind);
    q[i := q[i] + [d]]
  }

  /** The queues after `x` has been visited: attributes before their owner, empty vectors not at all. */
  function Defer(q: Queues, x: Object): Queues
    decreases x
  {
    match x
    case Nil => q
    case Vector(k, p, attrs) =>
      if Size(p) > 0 then Push(DeferAttrs(q, attrs), Deferred(k, p)) else DeferAttrs(q, attrs)
    case List(items, attrs) => DeferItems(DeferAttrs(q, attrs), items)
  }

  function DeferAttrs(q: Queues, attrs: seq<Attribute>): Queues
    decreases attrs
  {
    if attrs == [] then q else DeferAttrs(Defer(q, attrs[0].value), attrs[1..])
  }

  function DeferItems(q: Queues, items: seq<Object>): Queues
    decreases items
  {
    if items == [] then q else DeferItems(Defer(q, items[0]), items[1..])
  }

  // ---------- the payload pass ----------

  function StringItems(s: Option<bytes>): seq<Item> {
    match s
    case None => [Run([[255]])]
    case Some(t) => NameItems(t)
  }

  function StringsItems(ss: seq<Option<bytes>>): seq<Item> {
    if ss == [] then [] else StringItems(ss[0]) + StringsItems(ss[1..])
  }

  function CellItems(cells: seq<bytes>): seq<Item> {
    if cells == [] then [] else [Data(cells[0])] + CellItems(cells[1..])
  }

  /** Which payloads of a queue are pushed as one piece of memory, by their place counted from the end of the queue.
      It depends on the C++ type of each vector, so vectors of one kind may differ. */
  type Mode = nat -> bool

  /** The same for all five queues. */
  type Modes = nat -> Mode

  /** One payload, as one push of its memory (`direct`) or element by element. */
  function PayloadItems(direct: bool, d: Deferred): seq<Item> {
    match d.payload
    case Strings(ss) => StringsItems(ss)
    case Cells(cells) => if direct then [Data(Concat(cells))] else CellItems(cells)
  }

  function GroupItems(mode: Mode, ds: seq<Deferred>): seq<Item> {
    if ds == [] then [] else PayloadItems(mode(|ds|), ds[0]) + GroupItems(mode, ds[1..])
  }

  function PayloadPass(direct: Modes, q: Queues): seq<Item> {
    GroupItems(direct(0), q[0]) + (GroupItems(direct(1), q[1]) + (GroupItems(direct(2), q[2])
      + (GroupItems(direct(3), q[3]) + GroupItems(direct(4), q[4]))))
  }

  predicate StringsFit(d: Deferred) {
    d.payload.Strings? ==>
      forall i :: 0 <= i < |d.payload.strings| ==>
        d.payload.strings[i].Some? ==> |d.payload.strings[i].value| <= MAX_STRING_LENGTH
  }

  predicate QueuesFit(q: Queues) {
    forall k, i :: 0 <= k < 5 && 0 <= i < |q[k]| ==> StringsFit(q[k][i])
  }

  /** Everything that is written for an object. */
  function Script(direct: Modes, x: Object): seq<Item> {
    Structure(x) + PayloadPass(direct, Defer(NO_PAYLOADS, x))
  }

  // ---------- every script is well formed ----------

  lemma NameItemsOk(name: bytes)
    ensures ItemsOk(NameItems(name))
  {
    RunLengths(LIST, |name|, 0);
  }

  lemma ItemsOkAppend(a: seq<Item>, b: seq<Item>)
    requires ItemsOk(a) && ItemsOk(b)
    ensures ItemsOk(a + b)
  {
  }

  lemma {:induction false} StructureOk(x: Object)
    ensures ItemsOk(Structure(x))
  {
    match x
    case Nil =>
      OnePod([0]);
    case Vector(k, p, attrs) =>
      RunLengths(VECTOR(k), Size(p), |attrs|);
      AttrItemsOk(attrs);
    case List(items, attrs) =>
      RunLengths(LIST, |items|, |attrs|);
      AttrItemsOk(attrs);
      ListItemsOk(items);
  }

  lemma {:induction false} AttrItemsOk(attrs: seq<Attribute>)
    ensures ItemsOk(AttrItems(attrs))
  {
    if attrs == [] {
    } else {
      NameItemsOk(attrs[0].name);
      StructureOk(attrs[0].value);
      AttrItemsOk(attrs[1..]);
    }
  }

  lemma {:induction false} ListItemsOk(items: seq<Object>)
    ensures ItemsOk(ListItems(items))
  {
    if items == [] {
    } else {
      StructureOk(items[0]);
      ListItemsOk(items[1..]);
    }
  }

  lemma {:induction false} StringsItemsOk(ss: seq<Option<bytes>>)
    ensures ItemsOk(StringsItems(ss))
  {
    if ss == [] {
    } else {
      match ss[0] {
        case None => OnePod([255]);
        case Some(t) => NameItemsOk(t);
      }
      StringsItemsOk(ss[1..]);
    }
  }

  lemma {:induction false} CellItemsOk(cells: seq<bytes>)
    ensures ItemsOk(CellItems(cells))
  {
    if cells == [] {
    } else {
      CellItemsOk(cells[1..]);
    }
  }

  lemma PayloadItemsOk(direct: bool, d: Deferred)
    ensures ItemsOk(PayloadItems(direct, d))
  {
    match d.payload
    case Strings(ss) => StringsItemsOk(ss);
    case Cells(cells) => CellItemsOk(cells);
  }

  lemma {:induction false} GroupItemsOk(mode: Mode, ds: seq<Deferred>)
    ensures ItemsOk(GroupItems(mode, ds))
  {
    if ds == [] {
    } else {
      PayloadItemsOk(mode(|ds|), ds[0]);
      GroupItemsOk(mode, ds[1..]);
    }
  }

  lemma PayloadPassOk(direct: Modes, q: Queues)
    ensures ItemsOk(PayloadPass(direct, q))
  {
    forall k | 0 <= k < 5 ensures ItemsOk(GroupItems(direct(k), q[k])) {
      GroupItemsOk(direct(k), q[k]);
    }
  }

  lemma ScriptOk(direct: Modes, x: Object)
    ensures ItemsOk(Script(direct, x))
  {
    StructureOk(x);
    PayloadPassOk(direct, Defer(NO_PAYLOADS, x));
  }

  // ---------- direct and element-by-element emission ----------

  lemma {:induction false} TokensAppend(a: seq<Item>, b: seq<Item>)
    ensures Tokens(a + b) == Tokens(a) + Tokens(b)
  {
    if a == [] {
      assert a + b == b;
    } else {
      assert (a + b)[1..] == a[1..] + b;
      TokensAppend(a[1..], b);
      var head := match a[0] case Run(pods) => [TRun(pods)] case Data(d) => Singles(d);
      Assoc(head, Tokens(a[1..]), Tokens(b));
    }
  }

  lemma {:induction false} CellTokens(cells: seq<bytes>)
    ensures Tokens(CellItems(cells)) == Singles(Concat(cells))
  {
    if cells == [] {
    } else {
      CellTokens(cells[1..]);
      assert Tokens([Data(cells[0])] + CellItems(cells[1..])) == Singles(cells[0]) + Tokens(CellItems(cells[1..]));
      assert Singles(cells[0]) + Singles(Concat(cells[1..])) == Singles(cells[0] + Concat(cells[1..]));
    }
  }

  lemma PayloadTokens(d1: bool, d2: bool, d: Deferred)
    ensures Tokens(PayloadItems(d1, d)) == Tokens(PayloadItems(d2, d))
  {
    match d.payload
    case Strings(ss) =>
    case Cells(cells) =>
      CellTokens(cells);
      var all := Concat(cells);
      assert [Data(all)][1..] == [];
      assert Singles(all) + [] == Singles(all);
      assert Tokens([Data(all)]) == Singles(all);
  }

  lemma {:induction false} GroupTokens(m1: Mode, m2: Mode, ds: seq<Deferred>)
    ensures Tokens(GroupItems(m1, ds)) == Tokens(GroupItems(m2, ds))
  {
    if ds == [] {
    } else {
      PayloadTokens(m1(|ds|), m2(|ds|), ds[0]);
      GroupTokens(m1, m2, ds[1..]);
      TokensAppend(PayloadItems(m1(|ds|), ds[0]), GroupItems(m1, ds[1..]));
      TokensAppend(PayloadItems(m2(|ds|), ds[0]), GroupItems(m2, ds[1..]));
    }
  }

  lemma PassTokens(direct: Modes, q: Queues)
    ensures Tokens(PayloadPass(direct, q)) == Tokens(GroupItems(direct(0), q[0]))
      + (Tokens(GroupItems(direct(1), q[1])) + (Tokens(GroupItems(direct(2), q[2]))
      + (Tokens(GroupItems(direct(3), q[3])) + Tokens(GroupItems(direct(4), q[4])))))
  {
    var g3 := GroupItems(direct(3), q[3]) + GroupItems(direct(4), q[4]);
    var g2 := GroupItems(direct(2), q[2]) + g3;
    var g1 := GroupItems(direct(1), q[1]) + g2;
    TokensAppend(GroupItems(direct(0), q[0]), g1);
    TokensAppend(GroupItems(direct(1), q[1]), g2);
    TokensAppend(GroupItems(direct(2), q[2]), g3);
    TokensAppend(GroupItems(direct(3), q[3]), GroupItems(direct(4), q[4]));
  }

  /** Whether a type exposes its memory or only its elements does not show in the blocks. */
  lemma EmissionModeDoesNotMatter(d1: Modes, d2: Modes, x: Object)
    ensures ItemsOk(Script(d1, x)) && ItemsOk(Script(d2, x))
    ensures Blocks(Script(d1, x)) == Blocks(Script(d2, x))
  {
    ScriptOk(d1, x);
    ScriptOk(d2, x);
    var q := Defer(NO_PAYLOADS, x);
    forall k | 0 <= k < 5 ensures Tokens(GroupItems(d1(k), q[k])) == Tokens(GroupItems(d2(k), q[k])) {
      GroupTokens(d1(k), d2(k), q[k]);
    }
    PassTokens(d1, q);
    PassTokens(d2, q);
    TokensAppend(Structure(x), PayloadPass(d1, q));
    TokensAppend(Structure(x), PayloadPass(d2, q));
    CutsDoNotMatter(Script(d1, x), Script(d2, x));
  }
}
