/** Reading an object back from what was written for it. */
module StructureRoundTrip {
  import opened Bytes
  import opened BlockSpec
  import opened ReaderSpec
  import opened ObjectSpec
  import opened ObjectReaderSpec

  // ---------- headers ----------

  lemma LengthBack(r: Reader, t: Tag, n: nat)
    requires t != NIL && n < (if t == ATTRIBUTE then TWO_32 else TWO_64)
    requires Concat(LengthPods(t, n)) <= r.cur
    ensures r.cur != []
    ensures DecodeHeader(Reader(r.cur[1..], r.input), r.cur[0] as nat)
         == Ok(Decoded(t, n, Reader(r.cur[|Concat(LengthPods(t, n))|..], r.input)))
  {
    LengthRun(t, n);
    var w := LengthWidth(t, n);
    if w == 0 {
      ShortBack(t, n);
      assert r.cur[..1] == [(ShortCode(t) + n) as byte];
    } else {
      LongBack(t, w);
      LongFront(r, LongCode(t, w) as byte, LE(n, w));
      LengthWidthFits(t, n);
      FromLEOfLE(n, w);
    }
  }

  lemma LengthWidthFits(t: Tag, n: nat)
    requires n < (if t == ATTRIBUTE then TWO_32 else TWO_64) && LengthWidth(t, n) != 0
    ensures n < Pow256(LengthWidth(t, n))
  {
    PowValues();
  }

  /** A marker byte and the little-endian length behind it, at the front of the current block. */
  lemma LongFront(r: Reader, mark: byte, len: bytes)
    requires [mark] + len <= r.cur
    ensures r.cur[..1] == [mark]
    ensures r.cur[1..][..|len|] == len
    ensures r.cur[1..][|len|..] == r.cur[|[mark] + len|..]
  {
    assert r.cur[..1 + |len|] == [mark] + len;
    assert r.cur[..1] == ([mark] + len)[..1];
    assert r.cur[1..][..|len|] == ([mark] + len)[1..];
  }

  lemma ShortBack(t: Tag, n: nat)
    requires ShortCode(t) != 0 && n < 32
    ensures var b := ShortCode(t) + n; b / 32 != 0 && ShortHeader(b) == Some(t) && b % 32 == n
  {
  }

  lemma LongBack(t: Tag, w: nat)
    requires t != NIL
    requires exists n: nat {:trigger LengthWidth(t, n)} :: w == LengthWidth(t, n) && w != 0
    ensures var b := LongCode(t, w); b / 32 == 0 && LongHeader(b) == Some((t, w))
  {
  }

  lemma HeaderFront(r: Reader, t: Tag, n: nat, attrs: nat)
    requires t != NIL && t != ATTRIBUTE && n < TWO_64 && attrs < TWO_32
    requires Concat(HeaderPods(t, n, attrs)) <= r.cur
    ensures r.cur != []
    ensures var d := DecodeHeader(Reader(r.cur[1..], r.input), r.cur[0] as nat);
      var end := Reader(r.cur[|Concat(HeaderPods(t, n, attrs))|..], r.input);
      if attrs == 0 then d == Ok(Decoded(t, n, end))
      else
        && d.Ok? && d.value.tag == ATTRIBUTE && d.value.len == attrs && d.value.rest.cur != []
        && var r2 := d.value.rest;
           DecodeHeader(Reader(r2.cur[1..], r2.input), r2.cur[0] as nat) == Ok(Decoded(t, n, end))
  {
    hide DecodeHeader, Concat, LengthPods;
    if attrs == 0 {
      LengthBack(r, t, n);
    } else {
      var a, b := Concat(LengthPods(ATTRIBUTE, attrs)), Concat(LengthPods(t, n));
      ConcatAppend(LengthPods(ATTRIBUTE, attrs), LengthPods(t, n));
      assert (a + b)[..|a|] == a && (a + b)[|a|..] == b;
      assert r.cur[..|a|] == a;
      LengthBack(r, ATTRIBUTE, attrs);
      var r2 := Reader(r.cur[|a|..], r.input);
      assert r2.cur[..|b|] == b;
      LengthBack(r2, t, n);
      assert r2.cur[|b|..] == r.cur[|a + b|..];
    }
  }

  lemma HeaderBack(c: Codec, r: Reader, p: bytes, t: Tag, n: nat, attrs: nat, ts: seq<Item>)
    requires t != NIL && t != ATTRIBUTE && n < TWO_64 && attrs < TWO_32
    requires Sound(c) && Synced(c, r, p, [Run(HeaderPods(t, n, attrs))] + ts)
    ensures ItemOk(Run(HeaderPods(t, n, attrs))) && ItemsOk(ts)
    ensures var h := ReadHeader(c, r);
      && h.Ok? && h.value.tag == t && h.value.len == n && h.value.attrs == attrs
      && Synced(c, h.value.rest, Next(p, Run(HeaderPods(t, n, attrs))), ts)
  {
    var r1 := LoadRun(c, r, p, HeaderPods(t, n, attrs), ts);
    HeaderFront(r1, t, n, attrs);
    assert r1.cur[..1][0] == r1.cur[0];
  }

  lemma NilBack(c: Codec, r: Reader, p: bytes, ts: seq<Item>)
    requires Sound(c) && Synced(c, r, p, [Run([[0]])] + ts)
    ensures ItemOk(Run([[0]])) && ItemsOk(ts)
    ensures var h := ReadHeader(c, r);
      h.Ok? && h.value.tag == NIL && Synced(c, h.value.rest, Next(p, Run([[0]])), ts)
  {
    var r1 := LoadRun(c, r, p, [[0]], ts);
    OnePod([0]);
    assert r1.cur[..1] == [0];
  }

  lemma StringHeaderBack(c: Codec, r: Reader, p: bytes, n: nat, ts: seq<Item>)
    requires n < NA_STRING_LENGTH
    requires Sound(c) && Synced(c, r, p, [Run(StringPods(n))] + ts)
    ensures ItemOk(Run(StringPods(n))) && ItemsOk(ts)
    ensures var h := ReadStringHeader(c, r);
      h.Ok? && h.value.0 == n && Synced(c, h.value.1, Next(p, Run(StringPods(n))), ts)
  {
    hide Sound, Synced, Next, Concat, LE, FromLE;
    var r1 := LoadRun(c, r, p, StringPods(n), ts);
    if n < 253 {
      OnePod([n as byte]);
      assert r1.cur[..1] == [n as byte];
    } else {
      var w, mark: byte := if n < 65536 then 2 else 4, if n < 65536 then 253 else 254;
      PowValues();
      FromLEOfLE(n, w);
      TwoPods([mark], LE(n, w));
      LongFront(r1, mark, LE(n, w));
    }
  }

  lemma NaBack(c: Codec, r: Reader, p: bytes, ts: seq<Item>)
    requires Sound(c) && Synced(c, r, p, [Run([[255]])] + ts)
    ensures ItemOk(Run([[255]])) && ItemsOk(ts)
    ensures var h := ReadStringHeader(c, r);
      h.Ok? && h.value.0 == NA_STRING_LENGTH && Synced(c, h.value.1, Next(p, Run([[255]])), ts)
  {
    var r1 := LoadRun(c, r, p, [[255]], ts);
    OnePod([255]);
    assert r1.cur[..1] == [255];
  }

  // ---------- bulk bytes ----------

  /** Whether `n` bytes written after `p` can be read back with a 32-bit counter. */
  predicate Countable(p: bytes, n: nat) {
    n < TWO_32 || PeakCount(if p == [] || |p| > MAX_BLOCKSIZE then 0 else MAX_BLOCKSIZE - |p|, n) < TWO_32
  }

  lemma RoomLeft(c: Codec, r: Reader, p: bytes, d: bytes, ts: seq<Item>)
    requires Synced(c, r, p, [Data(d)] + ts) && p != [] && |p| + |d| >= MAX_BLOCKSIZE
    ensures |r.cur| == MAX_BLOCKSIZE - |p|
  {
    assert ([Data(d)] + ts)[1..] == ts;
    OutStep(p, Data(d), ts);
    CutFilling(p, d);
    var k := MAX_BLOCKSIZE - |p|;
    assert ([] + Cut(p + d).0)[0] == p + d[..k];
    assert Out(p, [Data(d)] + ts)[0] == p + d[..k];
    assert |p + r.cur| == |p + d[..k]|;
  }

  lemma CountableMeans(c: Codec, r: Reader, p: bytes, d: bytes, ts: seq<Item>)
    requires Synced(c, r, p, [Data(d)] + ts)
    ensures Countable(p, |d|) <==> PeakCount(|r.cur|, |d|) < TWO_32
  {
    if |d| < TWO_32 {
      PeakFits(|r.cur|, |d|);
    } else if p != [] {
      RoomLeft(c, r, p, d, ts);
    }
  }

  lemma FetchBack(c: Codec, r: Reader, p: bytes, d: bytes, ts: seq<Item>)
    requires Sound(c) && Synced(c, r, p, [Data(d)] + ts)
    ensures ItemsOk(ts)
    ensures Countable(p, |d|) ==>
      var got := Fetch(c, r, |d|);
      got.Ok? && got.value.0 == d && Synced(c, got.value.1, Next(p, Data(d)), ts)
    ensures !Countable(p, |d|) ==> Fetch(c, r, |d|).Err?
  {
    var out: bytes := seq(|d|, _ => 0);
    CountableMeans(c, r, p, d, ts);
    GetDataExact(c, r, out);
    ReadData(c, r, p, d, ts);
  }

  lemma NextAllAppend(p: bytes, a: seq<Item>, b: seq<Item>)
    requires ItemsOk(a) && ItemsOk(b)
    ensures ItemsOk(a + b)
    ensures NextAll(p, a + b) == NextAll(NextAll(p, a), b)
  {
    WriteAllAppend(Writer([], p), a, b);
    WriteAllFrame(WriteAll(Writer([], p), a).blocks, NextAll(p, a), b);
  }

  lemma NextAllNone(p: bytes)
    ensures NextAll(p, []) == p
  {
  }

  lemma NextAllOne(p: bytes, it: Item)
    requires ItemOk(it)
    ensures ItemsOk([it]) && NextAll(p, [it]) == Next(p, it)
  {
    var w := Write(Writer([], p), it);
    assert [it][1..] == [];
    assert WriteAll(w, [it][1..]) == w;
  }

  /** A string header and the characters, as attribute names and string elements have them. */
  lemma NameFront(c: Codec, r: Reader, p: bytes, name: bytes, ts: seq<Item>)
    requires |name| <= MAX_STRING_LENGTH
    requires Sound(c) && Synced(c, r, p, NameItems(name) + ts)
    ensures ItemsOk(NameItems(name)) && ItemsOk(ts)
    ensures var h := ReadStringHeader(c, r);
      && h.Ok? && h.value.0 == |name|
      && (name == [] ==> Synced(c, h.value.1, NextAll(p, NameItems(name)), ts))
      && (name != [] ==>
           var got := Fetch(c, h.value.1, |name|);
           got.Ok? && got.value.0 == name && Synced(c, got.value.1, NextAll(p, NameItems(name)), ts))
  {
    hide StringPods, Synced, Sound, ReadStringHeader, Fetch, Next, NextAll;
    NameItemsOk(name);
    var run := Run(StringPods(|name|));
    assert (NameItems(name) + ts)[0] == run;
    if name == [] {
      assert NameItems(name) + ts == [run] + ts;
      StringHeaderBack(c, r, p, |name|, ts);
      assert NameItems(name) == [run];
      NextAllOne(p, run);
    } else {
      assert NameItems(name) + ts == [run] + ([Data(name)] + ts);
      StringHeaderBack(c, r, p, |name|, [Data(name)] + ts);
      var h := ReadStringHeader(c, r);
      FetchBack(c, h.value.1, Next(p, run), name, ts);
      NextAllOne(p, run);
      NextAllOne(Next(p, run), Data(name));
      NextAllAppend(p, [run], [Data(name)]);
    }
  }

  // ---------- the structure pass ----------

  function Sizes(w: Queues): (q: Slots) {
    [SizesOf(w[0]), SizesOf(w[1]), SizesOf(w[2]), SizesOf(w[3]), SizesOf(w[4])]
  }

  function SizesOf(ds: seq<Deferred>): seq<nat> {
    seq(|ds|, i requires 0 <= i < |ds| => Size(ds[i].payload))
  }

  lemma SizesPush(w: Queues, d: Deferred)
    ensures Sizes(Push(w, d)) == PushSlot(Sizes(w), d.kind, Size(d.payload))
    ensures forall k :: 0 <= k < 5 ==> |Sizes(w)[k]| == |w[k]|
  {
    var i := QueueOf(d.kind);
    assert SizesOf(w[i] + [d]) == SizesOf(w[i]) + [Size(d.payload)];
  }

  /** The tree the reader builds for `x` when the writer's queues were `w` before it. */
  function Skeleton(x: Object, w: Queues): Tree
    decreases x
  {
    match x
    case Nil => TNil
    case Vector(k, p, attrs) =>
      if Size(p) > 0 then
        TVector(k, Size(p), |DeferAttrs(w, attrs)[QueueOf(k)]|, SkeletonAttrs(attrs, w))
      else TVector(k, 0, 0, SkeletonAttrs(attrs, w))
    case List(items, attrs) =>
      TList(SkeletonItems(items, DeferAttrs(w, attrs)), SkeletonAttrs(attrs, w))
  }

  function SkeletonAttrs(attrs: seq<Attribute>, w: Queues): seq<TAttribute>
    decreases attrs
  {
    if attrs == [] then []
    else
      [TAttribute(attrs[0].name, Skeleton(attrs[0].value, w))]
      + SkeletonAttrs(attrs[1..], Defer(w, attrs[0].value))
  }

  function SkeletonItems(items: seq<Object>, w: Queues): seq<Tree>
    decreases items
  {
    if items == [] then []
    else [Skeleton(items[0], w)] + SkeletonItems(items[1..], Defer(w, items[0]))
  }

  ghost predicate TreeRead(c: Codec, got: Result<Parsed<Tree>>, x: Object, w: Queues, p: bytes, ts: seq<Item>)
    requires ItemsOk(Structure(x))
  {
    && got.Ok?
    && got.value.value == Skeleton(x, w)
    && got.value.slots == Sizes(Defer(w, x))
    && Synced(c, got.value.rest, NextAll(p, Structure(x)), ts)
  }

  ghost predicate AttrsRead(c: Codec, got: Result<Parsed<seq<TAttribute>>>, done: seq<TAttribute>,
                            attrs: seq<Attribute>, w: Queues, p: bytes, ts: seq<Item>)
    requires ItemsOk(AttrItems(attrs))
  {
    && got.Ok?
    && got.value.value == done + SkeletonAttrs(attrs, w)
    && got.value.slots == Sizes(DeferAttrs(w, attrs))
    && Synced(c, got.value.rest, NextAll(p, AttrItems(attrs)), ts)
  }

  ghost predicate ItemsRead(c: Codec, got: Result<Parsed<seq<Tree>>>, done: seq<Tree>,
                            items: seq<Object>, w: Queues, p: bytes, ts: seq<Item>)
    requires ItemsOk(ListItems(items))
  {
    && got.Ok?
    && got.value.value == done + SkeletonItems(items, w)
    && got.value.slots == Sizes(DeferItems(w, items))
    && Synced(c, got.value.rest, NextAll(p, ListItems(items)), ts)
  }

  lemma {:induction false} ReadIntoBack(c: Codec, r: Reader, p: bytes, x: Object, ts: seq<Item>,
                                        w: Queues, depth: nat, max: nat)
    requires Sound(c) && Typed(x) && StructureFits(x) && depth <= max
    requires Synced(c, r, p, Structure(x) + ts)
    ensures ItemsOk(Structure(x)) && ItemsOk(ts)
    ensures depth + Depth(x) <= max ==> TreeRead(c, ReadInto(c, r, Sizes(w), depth, max), x, w, p, ts)
    ensures depth + Depth(x) > max ==> ReadInto(c, r, Sizes(w), depth, max) == Err(DepthExceeded)
    decreases x, 3
  {
    StructureOk(x);
    assert ItemsOk(ts) by {
      assert forall i :: 0 <= i < |ts| ==> ts[i] == (Structure(x) + ts)[|Structure(x)| + i];
    }
    if depth < max {
      match x
      case Nil =>
        NilBack(c, r, p, ts);
        NextAllOne(p, Run([[0]]));
      case Vector(k, pl, attrs) =>
        ReadVectorBack(c, r, p, x, ts, w, depth, max);
      case List(items, attrs) =>
        ReadListBack(c, r, p, x, ts, w, depth, max);
    }
  }

  lemma {:induction false} ReadVectorBack(c: Codec, r: Reader, p: bytes, x: Object, ts: seq<Item>,
                                          w: Queues, depth: nat, max: nat)
    requires Sound(c) && Typed(x) && StructureFits(x) && depth < max && x.Vector?
    requires Synced(c, r, p, Structure(x) + ts) && ItemsOk(ts) && ItemsOk(Structure(x))
    ensures depth + Depth(x) <= max ==> TreeRead(c, ReadInto(c, r, Sizes(w), depth, max), x, w, p, ts)
    ensures depth + Depth(x) > max ==> ReadInto(c, r, Sizes(w), depth, max) == Err(DepthExceeded)
    decreases x, 0
  {
    hide Sound, Synced, NextAll, ReadAttributes, ReadHeader, Sizes, SkeletonAttrs, HeaderPods;
    var n, run := Size(x.payload), Run(HeaderPods(VECTOR(x.kind), Size(x.payload), |x.attrs|));
    AttrItemsOk(x.attrs);
    Assoc([run], AttrItems(x.attrs), ts);
    HeaderBack(c, r, p, VECTOR(x.kind), n, |x.attrs|, AttrItems(x.attrs) + ts);
    var h := ReadHeader(c, r).value;
    var p1 := Next(p, run);
    ReadAttrsBack(c, h.rest, p1, x.attrs, ts, w, depth + 1, max, []);
    NextAllOne(p, run);
    NextAllAppend(p, [run], AttrItems(x.attrs));
    if depth + Depth(x) <= max {
      var w1 := DeferAttrs(w, x.attrs);
      SizesPush(w1, Deferred(x.kind, x.payload));
      assert [] + SkeletonAttrs(x.attrs, w) == SkeletonAttrs(x.attrs, w);
    }
  }

  lemma ReadIntoList(c: Codec, r: Reader, q: Slots, depth: nat, max: nat, h: Header,
                     a: Parsed<seq<TAttribute>>, l: Parsed<seq<Tree>>)
    requires depth < max && ReadHeader(c, r) == Ok(h) && h.tag == LIST
    requires h.attrs <= MAX_ATTR_COUNT && h.len <= MAX_VECTOR_LENGTH
    requires ReadAttributes(c, h.rest, q, depth + 1, max, h.attrs, []) == Ok(a)
    requires ReadItems(c, a.rest, a.slots, depth + 1, max, h.len, []) == Ok(l)
    ensures ReadInto(c, r, q, depth, max) == Ok(Parsed(TList(l.value, a.value), l.slots, l.rest))
  {
  }

  lemma ReadIntoListFails(c: Codec, r: Reader, q: Slots, depth: nat, max: nat, h: Header)
    requires depth < max && ReadHeader(c, r) == Ok(h) && h.tag == LIST
    requires h.attrs <= MAX_ATTR_COUNT && h.len <= MAX_VECTOR_LENGTH
    requires var a := ReadAttributes(c, h.rest, q, depth + 1, max, h.attrs, []);
      a == Err(DepthExceeded) ||
      (a.Ok? && ReadItems(c, a.value.rest, a.value.slots, depth + 1, max, h.len, []) == Err(DepthExceeded))
    ensures ReadInto(c, r, q, depth, max) == Err(DepthExceeded)
  {
  }

  ghost predicate ListRead(c: Codec, got: Result<Parsed<Tree>>, x: Object, w: Queues, p1: bytes, ts: seq<Item>)
    requires x.List? && ItemsOk(ListItems(x.items))
  {
    var w1 := DeferAttrs(w, x.attrs);
    && got.Ok?
    && got.value.value == TList(SkeletonItems(x.items, w1), SkeletonAttrs(x.attrs, w))
    && got.value.slots == Sizes(DeferItems(w1, x.items))
    && Synced(c, got.value.rest, NextAll(p1, ListItems(x.items)), ts)
  }

  /** The elements of a list whose attributes were read. */
  lemma {:induction false} ReadListItems(c: Codec, r: Reader, h: Header, a: Parsed<seq<TAttribute>>, p1: bytes,
                                         x: Object, ts: seq<Item>, w: Queues, depth: nat, max: nat)
    requires Sound(c) && depth < max && x.List? && AllTyped(x.items) && ItemsFit(x.items)
    requires ReadHeader(c, r) == Ok(h) && h.tag == LIST && h.len == |x.items|
    requires h.attrs <= MAX_ATTR_COUNT && h.len <= MAX_VECTOR_LENGTH
    requires ReadAttributes(c, h.rest, Sizes(w), depth + 1, max, h.attrs, []) == Ok(a)
    requires a.value == SkeletonAttrs(x.attrs, w) && a.slots == Sizes(DeferAttrs(w, x.attrs))
    requires ItemsOk(ListItems(x.items)) && ItemsOk(ts)
    requires Synced(c, a.rest, p1, ListItems(x.items) + ts)
    ensures depth + 1 + ItemsDepth(x.items) > max ==>
      ReadInto(c, r, Sizes(w), depth, max) == Err(DepthExceeded)
    ensures depth + 1 + ItemsDepth(x.items) <= max ==>
      ListRead(c, ReadInto(c, r, Sizes(w), depth, max), x, w, p1, ts)
    decreases x, 0
  {
    hide Sound, Synced, NextAll, ReadInto, ReadItems, ReadAttributes, ReadHeader, ItemsDepth, ListItems, ItemsOk;
    hide Sizes, DeferItems, DeferAttrs, SkeletonItems, SkeletonAttrs;
    var w1 := DeferAttrs(w, x.attrs);
    ReadItemsBack(c, a.rest, p1, x.items, ts, w1, depth + 1, max, []);
    if depth + 1 + ItemsDepth(x.items) > max {
      ReadIntoListFails(c, r, Sizes(w), depth, max, h);
    } else {
      var l := ReadItems(c, a.rest, a.slots, depth + 1, max, |x.items|, []).value;
      ConsNone(SkeletonItems(x.items, w1));
      ReadIntoList(c, r, Sizes(w), depth, max, h, a, l);
    }
  }

  /** What is read after a list's header: its attributes, then its elements. */
  lemma {:induction false} ReadListBody(c: Codec, r: Reader, h: Header, p: bytes, x: Object, ts: seq<Item>,
                                        w: Queues, depth: nat, max: nat)
    requires Sound(c) && depth < max && x.List?
    requires AttrsTyped(x.attrs) && AttrsFit(x.attrs) && AllTyped(x.items) && ItemsFit(x.items)
    requires ReadHeader(c, r) == Ok(h) && h.tag == LIST && h.len == |x.items| && h.attrs == |x.attrs|
    requires h.attrs <= MAX_ATTR_COUNT && h.len <= MAX_VECTOR_LENGTH
    requires ItemsOk(AttrItems(x.attrs)) && ItemsOk(ListItems(x.items)) && ItemsOk(ListItems(x.items) + ts)
    requires ItemsOk(ts)
    requires Synced(c, h.rest, p, AttrItems(x.attrs) + (ListItems(x.items) + ts))
    ensures depth + 1 + Max(AttrsDepth(x.attrs), ItemsDepth(x.items)) > max ==>
      ReadInto(c, r, Sizes(w), depth, max) == Err(DepthExceeded)
    ensures depth + 1 + Max(AttrsDepth(x.attrs), ItemsDepth(x.items)) <= max ==>
      ListRead(c, ReadInto(c, r, Sizes(w), depth, max), x, w, NextAll(p, AttrItems(x.attrs)), ts)
    decreases x, 1
  {
    hide Sound, Synced, NextAll, ReadInto, ReadItems, ReadAttributes, ReadHeader, ListItems, ItemsOk, Sizes;
    hide DeferItems, DeferAttrs, SkeletonItems, SkeletonAttrs;
    ReadAttrsBack(c, h.rest, p, x.attrs, ListItems(x.items) + ts, w, depth + 1, max, []);
    if depth + 1 + AttrsDepth(x.attrs) > max {
      ReadIntoListFails(c, r, Sizes(w), depth, max, h);
    } else {
      var a := ReadAttributes(c, h.rest, Sizes(w), depth + 1, max, |x.attrs|, []).value;
      ConsNone(SkeletonAttrs(x.attrs, w));
      ReadListItems(c, r, h, a, NextAll(p, AttrItems(x.attrs)), x, ts, w, depth, max);
    }
  }

  lemma ListEnd(p: bytes, run: Item, a: seq<Item>, b: seq<Item>)
    requires ItemOk(run) && ItemsOk(a) && ItemsOk(b)
    ensures ItemsOk([run] + (a + b))
    ensures NextAll(p, [run] + (a + b)) == NextAll(NextAll(Next(p, run), a), b)
  {
    NextAllOne(p, run);
    NextAllAppend(p, [run], a + b);
    NextAllAppend(Next(p, run), a, b);
  }

  lemma ListShape(x: Object, ts: seq<Item>)
    requires x.List?
    ensures Structure(x) + ts == [Run(HeaderPods(LIST, |x.items|, |x.attrs|))]
                               + (AttrItems(x.attrs) + (ListItems(x.items) + ts))
  {
    var run, ai, li := Run(HeaderPods(LIST, |x.items|, |x.attrs|)), AttrItems(x.attrs), ListItems(x.items);
    Assoc([run], ai + li, ts);
    Assoc(ai, li, ts);
  }

  lemma {:induction false} ReadListBack(c: Codec, r: Reader, p: bytes, x: Object, ts: seq<Item>,
                                        w: Queues, depth: nat, max: nat)
    requires Sound(c) && Typed(x) && StructureFits(x) && depth < max && x.List?
    requires Synced(c, r, p, Structure(x) + ts) && ItemsOk(ts) && ItemsOk(Structure(x))
    ensures depth + Depth(x) <= max ==> TreeRead(c, ReadInto(c, r, Sizes(w), depth, max), x, w, p, ts)
    ensures depth + Depth(x) > max ==> ReadInto(c, r, Sizes(w), depth, max) == Err(DepthExceeded)
    decreases x, 2
  {
    hide Sound, Synced, NextAll, ReadInto, ReadItems, ReadAttributes, ReadHeader, Sizes;
    var run := Run(HeaderPods(LIST, |x.items|, |x.attrs|));
    var ai, li := AttrItems(x.attrs), ListItems(x.items);
    AttrItemsOk(x.attrs);
    ListItemsOk(x.items);
    ItemsOkAppend(li, ts);
    ListShape(x, ts);
    HeaderBack(c, r, p, LIST, |x.items|, |x.attrs|, ai + (li + ts));
    var h := ReadHeader(c, r).value;
    ReadListBody(c, r, h, Next(p, run), x, ts, w, depth, max);
    ListEnd(p, run, ai, li);
  }

  lemma ConsNone<T>(s: seq<T>)
    ensures [] + s == s
  {
  }

  lemma NameBack(c: Codec, r: Reader, p: bytes, name: bytes, ts: seq<Item>)
    requires |name| <= MAX_STRING_LENGTH
    requires Sound(c) && Synced(c, r, p, NameItems(name) + ts)
    ensures ItemsOk(NameItems(name)) && ItemsOk(ts)
    ensures var got := ReadName(c, r);
      got.Ok? && got.value.0 == name && Synced(c, got.value.1, NextAll(p, NameItems(name)), ts)
  {
    NameFront(c, r, p, name, ts);
  }

  lemma {:induction false} ReadAttrsBack(c: Codec, r: Reader, p: bytes, attrs: seq<Attribute>, ts: seq<Item>,
                                         w: Queues, depth: nat, max: nat, done: seq<TAttribute>)
    requires Sound(c) && AttrsTyped(attrs) && AttrsFit(attrs) && depth <= max
    requires ItemsOk(AttrItems(attrs)) && ItemsOk(ts)
    requires Synced(c, r, p, AttrItems(attrs) + ts)
    ensures depth + AttrsDepth(attrs) <= max ==>
      AttrsRead(c, ReadAttributes(c, r, Sizes(w), depth, max, |attrs|, done), done, attrs, w, p, ts)
    ensures depth + AttrsDepth(attrs) > max ==>
      ReadAttributes(c, r, Sizes(w), depth, max, |attrs|, done) == Err(DepthExceeded)
    decreases attrs
  {
    hide Sound, Synced, NextAll, ReadInto, ReadName, Sizes, NameItems, Structure, Skeleton, Defer;
    if attrs == [] {
      assert AttrItems(attrs) + ts == ts;
      NextAllNone(p);
      assert done + [] == done;
    } else {
      var a := attrs[0];
      var ni, si, ai := NameItems(a.name), Structure(a.value), AttrItems(attrs[1..]);
      NameItemsOk(a.name);
      StructureOk(a.value);
      AttrItemsOk(attrs[1..]);
      assert ItemsOk(ai + ts) && ItemsOk(si + (ai + ts)) && ItemsOk(si + ai);
      assert AttrItems(attrs) + ts == ni + (si + (ai + ts)) by {
        Assoc(ni, si + ai, ts);
        Assoc(si, ai, ts);
      }
      NameBack(c, r, p, a.name, si + (ai + ts));
      var name := ReadName(c, r).value;
      var p1 := NextAll(p, ni);
      ReadIntoBack(c, name.1, p1, a.value, ai + ts, w, depth, max);
      if depth + Depth(a.value) <= max {
        var v := ReadInto(c, name.1, Sizes(w), depth, max).value;
        var w1, p2 := Defer(w, a.value), NextAll(p1, si);
        var done' := done + [TAttribute(a.name, v.value)];
        ReadAttrsBack(c, v.rest, p2, attrs[1..], ts, w1, depth, max, done');
        Assoc(done, [TAttribute(a.name, v.value)], SkeletonAttrs(attrs[1..], w1));
        NextAllAppend(p, ni, si + ai);
        NextAllAppend(p1, si, ai);
      }
    }
  }

  lemma {:induction false} ReadItemsBack(c: Codec, r: Reader, p: bytes, items: seq<Object>, ts: seq<Item>,
                                         w: Queues, depth: nat, max: nat, done: seq<Tree>)
    requires Sound(c) && AllTyped(items) && ItemsFit(items) && depth <= max
    requires ItemsOk(ListItems(items)) && ItemsOk(ts)
    requires Synced(c, r, p, ListItems(items) + ts)
    ensures depth + ItemsDepth(items) <= max ==>
      ItemsRead(c, ReadItems(c, r, Sizes(w), depth, max, |items|, done), done, items, w, p, ts)
    ensures depth + ItemsDepth(items) > max ==>
      ReadItems(c, r, Sizes(w), depth, max, |items|, done) == Err(DepthExceeded)
    decreases items
  {
    hide Sound, Synced, NextAll, ReadInto, Sizes, Structure, Skeleton, Defer;
    if items == [] {
      assert ListItems(items) + ts == ts;
      NextAllNone(p);
      assert done + [] == done;
    } else {
      var x := items[0];
      var si, li := Structure(x), ListItems(items[1..]);
      StructureOk(x);
      ListItemsOk(items[1..]);
      assert ItemsOk(li + ts);
      Assoc(si, li, ts);
      ReadIntoBack(c, r, p, x, li + ts, w, depth, max);
      if depth + Depth(x) <= max {
        var v := ReadInto(c, r, Sizes(w), depth, max).value;
        var w1, p1 := Defer(w, x), NextAll(p, si);
        ReadItemsBack(c, v.rest, p1, items[1..], ts, w1, depth, max, done + [v.value]);
        Assoc(done, [v.value], SkeletonItems(items[1..], w1));
        NextAllAppend(p, si, li);
      }
    }
  }
}
