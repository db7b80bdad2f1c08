/** The payload pass read back, the slots resolved, and the round trip of whole objects. */
module PayloadRoundTrip {
  import opened Bytes
  import opened BlockSpec
  import opened ReaderSpec
  import opened ObjectSpec
  import opened ObjectReaderSpec
  import opened StructureRoundTrip

  /** A payload as it may appear in queue `k`. */
  ghost predicate Queued(k: nat, d: Deferred) {
    && QueueOf(d.kind) == k
    && PayloadTyped(d.kind, d.payload)
    && Size(d.payload) > 0
    && StringsFit(d)
  }

  const AT_ONCE: Mode := _ => true

  const DIRECT: Modes := _ => AT_ONCE

  // ---------- strings ----------

  lemma StringBack(c: Codec, r: Reader, p: bytes, s: Option<bytes>, ts: seq<Item>)
    requires s.Some? ==> |s.value| <= MAX_STRING_LENGTH
    requires Sound(c) && Synced(c, r, p, StringItems(s) + ts)
    ensures ItemsOk(StringItems(s)) && ItemsOk(ts)
    ensures var got := ReadString(c, r);
      got.Ok? && got.value.0 == s && Synced(c, got.value.1, NextAll(p, StringItems(s)), ts)
  {
    match s
    case None =>
      NaBack(c, r, p, ts);
      NextAllOne(p, Run([[255]]));
    case Some(t) =>
      NameFront(c, r, p, t, ts);
  }

  lemma {:induction false} StringsBack(c: Codec, r: Reader, p: bytes, ss: seq<Option<bytes>>, ts: seq<Item>,
                                       done: seq<Option<bytes>>)
    requires forall i :: 0 <= i < |ss| ==> ss[i].Some? ==> |ss[i].value| <= MAX_STRING_LENGTH
    requires ItemsOk(StringsItems(ss)) && ItemsOk(ts)
    requires Sound(c) && Synced(c, r, p, StringsItems(ss) + ts)
    ensures var got := ReadStrings(c, r, |ss|, done);
      got.Ok? && got.value.0 == done + ss && Synced(c, got.value.1, NextAll(p, StringsItems(ss)), ts)
    decreases |ss|
  {
    hide Sound, Synced, NextAll, ReadString, StringItems;
    if ss == [] {
      assert StringsItems(ss) + ts == ts;
      assert done + ss == done;
      NextAllNone(p);
    } else {
      var si, rest := StringItems(ss[0]), StringsItems(ss[1..]);
      StringsItemsOk(ss[1..]);
      ItemsOkAppend(rest, ts);
      Assoc(si, rest, ts);
      StringBack(c, r, p, ss[0], rest + ts);
      var s := ReadString(c, r).value;
      StringsBack(c, s.1, NextAll(p, si), ss[1..], ts, done + [s.0]);
      assert (done + [ss[0]]) + ss[1..] == done + ss;
      NextAllAppend(p, si, rest);
    }
  }

  // ---------- cells ----------

  lemma {:induction false} CellsLength(cells: seq<bytes>, w: nat)
    requires forall i :: 0 <= i < |cells| ==> |cells[i]| == w
    ensures |Concat(cells)| == |cells| * w
  {
    if cells == [] {
    } else {
      CellsLength(cells[1..], w);
      assert |cells| * w == w + (|cells| - 1) * w;
    }
  }

  lemma {:induction false} SplitBack(cells: seq<bytes>, w: nat)
    requires w > 0 && forall i :: 0 <= i < |cells| ==> |cells[i]| == w
    ensures SplitCells(Concat(cells), w) == cells
  {
    if cells == [] {
    } else {
      SplitBack(cells[1..], w);
      var all := Concat(cells);
      assert all[..w] == cells[0] && all[w..] == Concat(cells[1..]);
    }
  }

  /** Whether the payload can be fetched when it was written after `p`. */
  predicate Fetchable(p: bytes, d: Deferred) {
    d.payload.Cells? ==> Countable(p, |Concat(d.payload.cells)|)
  }

  lemma SlotBack(c: Codec, r: Reader, p: bytes, k: nat, d: Deferred, ts: seq<Item>)
    requires k < 5 && Queued(k, d)
    requires Sound(c) && Synced(c, r, p, PayloadItems(true, d) + ts)
    requires ItemsOk(ts)
    ensures ItemsOk(PayloadItems(true, d))
    ensures Fetchable(p, d) ==>
      var got := ReadSlot(c, r, k, Size(d.payload));
      && got.Ok? && got.value.0 == d.payload
      && Synced(c, got.value.1, NextAll(p, PayloadItems(true, d)), ts)
    ensures !Fetchable(p, d) ==> ReadSlot(c, r, k, Size(d.payload)).Err?
  {
    hide Sound, Synced, NextAll, ReadStrings, Fetch, Next, StringsItems, Countable;
    PayloadItemsOk(true, d);
    match d.payload
    case Strings(ss) =>
      StringsBack(c, r, p, ss, ts, []);
      ConsNone(ss);
    case Cells(cells) =>
      var w := QueueWidth(k);
      CellsLength(cells, w);
      SplitBack(cells, w);
      FetchBack(c, r, p, Concat(cells), ts);
      NextAllOne(p, Data(Concat(cells)));
  }

  function PayloadsOf(ds: seq<Deferred>): seq<Payload> {
    seq(|ds|, i requires 0 <= i < |ds| => ds[i].payload)
  }

  /** Whether every payload of the group can be fetched. */
  predicate GroupFetchable(p: bytes, ds: seq<Deferred>)
    decreases |ds|
  {
    ds != [] ==>
      && Fetchable(p, ds[0])
      && (PayloadItemsOk(true, ds[0]); GroupFetchable(NextAll(p, PayloadItems(true, ds[0])), ds[1..]))
  }

  lemma {:induction false} GroupBack(c: Codec, r: Reader, p: bytes, k: nat, ds: seq<Deferred>, ts: seq<Item>,
                                     done: seq<Payload>)
    requires k < 5 && forall i :: 0 <= i < |ds| ==> Queued(k, ds[i])
    requires ItemsOk(GroupItems(AT_ONCE, ds)) && ItemsOk(ts)
    requires Sound(c) && Synced(c, r, p, GroupItems(AT_ONCE, ds) + ts)
    ensures GroupFetchable(p, ds) ==>
      var got := ReadGroup(c, r, k, SizesOf(ds), done);
      && got.Ok? && got.value.0 == done + PayloadsOf(ds)
      && Synced(c, got.value.1, NextAll(p, GroupItems(AT_ONCE, ds)), ts)
    ensures !GroupFetchable(p, ds) ==> ReadGroup(c, r, k, SizesOf(ds), done).Err?
    decreases |ds|
  {
    hide Sound, Synced, NextAll, ReadSlot, PayloadItems, Fetchable, Queued;
    if ds == [] {
      assert GroupItems(AT_ONCE, ds) + ts == ts;
      assert done + PayloadsOf(ds) == done;
      NextAllNone(p);
    } else {
      var pi, rest := PayloadItems(true, ds[0]), GroupItems(AT_ONCE, ds[1..]);
      GroupItemsOk(AT_ONCE, ds[1..]);
      PayloadItemsOk(true, ds[0]);
      ItemsOkAppend(rest, ts);
      Assoc(pi, rest, ts);
      SlotBack(c, r, p, k, ds[0], rest + ts);
      assert SizesOf(ds)[0] == Size(ds[0].payload) && SizesOf(ds)[1..] == SizesOf(ds[1..]);
      if Fetchable(p, ds[0]) {
        var s := ReadSlot(c, r, k, Size(ds[0].payload)).value;
        GroupBack(c, s.1, NextAll(p, pi), k, ds[1..], ts, done + [s.0]);
        assert (done + [s.0]) + PayloadsOf(ds[1..]) == done + PayloadsOf(ds);
        NextAllAppend(p, pi, rest);
      }
    }
  }

  // ---------- the five groups ----------

  /** What is written of the groups from number `k` on. */
  function GroupsFrom(q: Queues, k: nat): seq<Item>
    requires k <= 5
    decreases 5 - k
  {
    if k == 5 then [] else GroupItems(AT_ONCE, q[k]) + GroupsFrom(q, k + 1)
  }

  lemma GroupsFromOk(q: Queues, k: nat)
    requires k <= 5
    ensures ItemsOk(GroupsFrom(q, k))
    decreases 5 - k
  {
    if k < 5 {
      GroupItemsOk(AT_ONCE, q[k]);
      GroupsFromOk(q, k + 1);
    }
  }

  predicate GroupsFetchable(p: bytes, q: Queues, k: nat)
    requires k <= 5
    decreases 5 - k
  {
    k < 5 ==>
      && GroupFetchable(p, q[k])
      && (GroupItemsOk(AT_ONCE, q[k]); GroupsFetchable(NextAll(p, GroupItems(AT_ONCE, q[k])), q, k + 1))
  }

  function ReadGroupsFrom(c: Codec, r: Reader, q: Slots, k: nat): Result<(seq<seq<Payload>>, Reader)>
    requires k <= 5
    decreases 5 - k
  {
    if k == 5 then Ok(([], r))
    else
      var g :- ReadGroup(c, r, k, q[k], []);
      var more :- ReadGroupsFrom(c, g.1, q, k + 1);
      Ok(([g.0] + more.0, more.1))
  }

  function Contained(q: Queues, k: nat): seq<seq<Payload>>
    requires k <= 5
    decreases 5 - k
  {
    if k == 5 then [] else [PayloadsOf(q[k])] + Contained(q, k + 1)
  }

  ghost predicate AllQueued(q: Queues) {
    forall k, i :: 0 <= k < 5 && 0 <= i < |q[k]| ==> Queued(k, q[k][i])
  }

  lemma {:induction false} GroupsBack(c: Codec, r: Reader, p: bytes, q: Queues, k: nat)
    requires k <= 5 && AllQueued(q)
    requires Sound(c) && Synced(c, r, p, GroupsFrom(q, k))
    ensures GroupsFetchable(p, q, k) ==>
      ReadGroupsFrom(c, r, Sizes(q), k) == Ok((Contained(q, k), Reader([], [])))
    ensures !GroupsFetchable(p, q, k) ==> ReadGroupsFrom(c, r, Sizes(q), k).Err?
    decreases 5 - k
  {
    hide Sound, Synced, NextAll, ReadGroup, GroupItems, GroupFetchable, Queued, ItemsOk;
    if k == 5 {
      SyncedAtEnd(c, r, p);
    } else {
      var gi, rest := GroupItems(AT_ONCE, q[k]), GroupsFrom(q, k + 1);
      GroupItemsOk(AT_ONCE, q[k]);
      GroupsFromOk(q, k + 1);
      GroupBack(c, r, p, k, q[k], rest, []);
      assert Sizes(q)[k] == SizesOf(q[k]);
      if GroupFetchable(p, q[k]) {
        ConsNone(PayloadsOf(q[k]));
        var g := ReadGroup(c, r, k, SizesOf(q[k]), []).value;
        GroupsBack(c, g.1, NextAll(p, gi), q, k + 1);
      }
    }
  }

  lemma GroupsStep(c: Codec, r: Reader, q: Slots, k: nat, g: (seq<Payload>, Reader),
                   more: (seq<seq<Payload>>, Reader))
    requires k < 5 && ReadGroup(c, r, k, q[k], []) == Ok(g)
    ensures ReadGroupsFrom(c, g.1, q, k + 1) == Ok(more) ==>
      ReadGroupsFrom(c, r, q, k) == Ok(([g.0] + more.0, more.1))
    ensures ReadGroupsFrom(c, g.1, q, k + 1).Err? ==> ReadGroupsFrom(c, r, q, k).Err?
  {
  }

  lemma ReadPayloadsInOrder(c: Codec, r: Reader, q: Slots)
    ensures ReadPayloads(c, r, q).Err? <==> ReadGroupsFrom(c, r, q, 0).Err?
    ensures ReadPayloads(c, r, q).Ok? ==> ReadPayloads(c, r, q).value == ReadGroupsFrom(c, r, q, 0).value
  {
    hide ReadGroup;
    var g := ReadPayloads(c, r, q);
    var none: seq<seq<Payload>> := [];
    if g.Ok? {
      var g0 := ReadGroup(c, r, 0, q[0], []).value;
      var g1 := ReadGroup(c, g0.1, 1, q[1], []).value;
      var g2 := ReadGroup(c, g1.1, 2, q[2], []).value;
      var g3 := ReadGroup(c, g2.1, 3, q[3], []).value;
      var g4 := ReadGroup(c, g3.1, 4, q[4], []).value;
      GroupsStep(c, g3.1, q, 4, g4, (none, g4.1));
      GroupsStep(c, g2.1, q, 3, g3, ([g4.0], g4.1));
      GroupsStep(c, g1.1, q, 2, g2, ([g3.0, g4.0], g4.1));
      GroupsStep(c, g0.1, q, 1, g1, ([g2.0, g3.0, g4.0], g4.1));
      GroupsStep(c, r, q, 0, g0, ([g1.0, g2.0, g3.0, g4.0], g4.1));
      assert [g4.0] + none == [g4.0];
      assert [g3.0] + [g4.0] == [g3.0, g4.0];
      assert [g2.0] + [g3.0, g4.0] == [g2.0, g3.0, g4.0];
      assert [g1.0] + [g2.0, g3.0, g4.0] == [g1.0, g2.0, g3.0, g4.0];
      assert [g0.0] + [g1.0, g2.0, g3.0, g4.0] == [g0.0, g1.0, g2.0, g3.0, g4.0];
    } else {
      var g0 := ReadGroup(c, r, 0, q[0], []);
      if g0.Ok? {
        var g1 := ReadGroup(c, g0.value.1, 1, q[1], []);
        if g1.Ok? {
          var g2 := ReadGroup(c, g1.value.1, 2, q[2], []);
          if g2.Ok? {
            var g3 := ReadGroup(c, g2.value.1, 3, q[3], []);
            if g3.Ok? {
              GroupsStep(c, g2.value.1, q, 3, g3.value, (none, r));
            }
            GroupsStep(c, g1.value.1, q, 2, g2.value, (none, r));
          }
          GroupsStep(c, g0.value.1, q, 1, g1.value, (none, r));
        }
        GroupsStep(c, r, q, 0, g0.value, (none, r));
      }
    }
  }

  // ---------- filling the slots ----------

  ghost predicate Extends(q: Queues, all: Queues) {
    forall k :: 0 <= k < 5 ==> q[k] <= all[k]
  }

  lemma {:induction false} DeferExtends(q: Queues, x: Object)
    ensures Extends(q, Defer(q, x))
    decreases x
  {
    match x
    case Nil =>
    case Vector(k, p, attrs) => DeferAttrsExtends(q, attrs);
    case List(items, attrs) =>
      DeferAttrsExtends(q, attrs);
      DeferItemsExtends(DeferAttrs(q, attrs), items);
  }

  lemma {:induction false} DeferAttrsExtends(q: Queues, attrs: seq<Attribute>)
    ensures Extends(q, DeferAttrs(q, attrs))
    decreases attrs
  {
    if attrs == [] {
    } else {
      DeferExtends(q, attrs[0].value);
      DeferAttrsExtends(Defer(q, attrs[0].value), attrs[1..]);
    }
  }

  lemma {:induction false} DeferItemsExtends(q: Queues, items: seq<Object>)
    ensures Extends(q, DeferItems(q, items))
    decreases items
  {
    if items == [] {
    } else {
      DeferExtends(q, items[0]);
      DeferItemsExtends(Defer(q, items[0]), items[1..]);
    }
  }

  function Fill(all: Queues): (f: Contents) {
    [PayloadsOf(all[0]), PayloadsOf(all[1]), PayloadsOf(all[2]), PayloadsOf(all[3]), PayloadsOf(all[4])]
  }

  lemma SlotOf(all: Queues, k: nat, i: nat)
    requires k < 5 && i < |all[k]|
    ensures |Fill(all)[k]| == |all[k]| && Fill(all)[k][i] == all[k][i].payload
  {
  }

  /** Every vector finds its own payload: writer's and reader's queues list the same leaves in the same
      order. */
  lemma {:induction false} ResolveBack(x: Object, w: Queues, all: Queues)
    requires Typed(x) && Extends(Defer(w, x), all)
    ensures Resolve(Fill(all), Skeleton(x, w)) == x
    decreases x
  {
    hide Fill;
    match x
    case Nil =>
    case Vector(k, p, attrs) =>
      var w1 := DeferAttrs(w, attrs);
      ResolveVector(x, w, all);
      ResolveAttrsBack(attrs, w, all);
    case List(items, attrs) =>
      DeferItemsExtends(DeferAttrs(w, attrs), items);
      ResolveAttrsBack(attrs, w, all);
      ResolveItemsBack(items, DeferAttrs(w, attrs), all);
  }

  lemma ResolveVector(x: Object, w: Queues, all: Queues)
    requires x.Vector? && PayloadTyped(x.kind, x.payload) && Extends(Defer(w, x), all)
    ensures Extends(DeferAttrs(w, x.attrs), all)
    ensures var t := Skeleton(x, w);
      Resolve(Fill(all), t) == Vector(x.kind, x.payload, ResolveAttrs(Fill(all), t.attrs))
  {
    hide Fill, ResolveAttrs, DeferAttrs;
    var w1, i := DeferAttrs(w, x.attrs), QueueOf(x.kind);
    if Size(x.payload) > 0 {
      assert Defer(w, x)[i] <= all[i];
      assert Defer(w, x)[i] == w1[i] + [Deferred(x.kind, x.payload)];
      assert all[i][|w1[i]|] == Defer(w, x)[i][|w1[i]|];
      SlotOf(all, i, |w1[i]|);
      forall k | 0 <= k < 5 ensures w1[k] <= all[k] {
        assert Defer(w, x)[k] <= all[k];
      }
    }
  }

  lemma {:induction false} ResolveAttrsBack(attrs: seq<Attribute>, w: Queues, all: Queues)
    requires AttrsTyped(attrs) && Extends(DeferAttrs(w, attrs), all)
    ensures ResolveAttrs(Fill(all), SkeletonAttrs(attrs, w)) == attrs
    decreases attrs
  {
    hide Fill;
    if attrs == [] {
    } else {
      var x, w1 := attrs[0].value, Defer(w, attrs[0].value);
      DeferAttrsExtends(w1, attrs[1..]);
      assert Extends(w1, all);
      ResolveBack(x, w, all);
      ResolveAttrsBack(attrs[1..], w1, all);
      var t := TAttribute(attrs[0].name, Skeleton(x, w));
      assert ([t] + SkeletonAttrs(attrs[1..], w1))[1..] == SkeletonAttrs(attrs[1..], w1);
      assert [attrs[0]] + attrs[1..] == attrs;
    }
  }

  lemma {:induction false} ResolveItemsBack(items: seq<Object>, w: Queues, all: Queues)
    requires AllTyped(items) && Extends(DeferItems(w, items), all)
    ensures ResolveItems(Fill(all), SkeletonItems(items, w)) == items
    decreases items
  {
    hide Fill;
    if items == [] {
    } else {
      var x, w1 := items[0], Defer(w, items[0]);
      DeferItemsExtends(w1, items[1..]);
      assert Extends(w1, all);
      ResolveBack(x, w, all);
      ResolveItemsBack(items[1..], w1, all);
      assert ([Skeleton(x, w)] + SkeletonItems(items[1..], w1))[1..] == SkeletonItems(items[1..], w1);
      assert [items[0]] + items[1..] == items;
    }
  }

  // ---------- what the queues hold ----------

  ghost predicate WellQueued(q: Queues) {
    forall k, i :: 0 <= k < 5 && 0 <= i < |q[k]| ==>
      QueueOf(q[k][i].kind) == k && PayloadTyped(q[k][i].kind, q[k][i].payload) && Size(q[k][i].payload) > 0
  }

  lemma {:induction false} DeferWellQueued(q: Queues, x: Object)
    requires WellQueued(q) && Typed(x)
    ensures WellQueued(Defer(q, x))
    decreases x
  {
    match x
    case Nil =>
    case Vector(k, p, attrs) => DeferAttrsWellQueued(q, attrs);
    case List(items, attrs) =>
      DeferAttrsWellQueued(q, attrs);
      DeferItemsWellQueued(DeferAttrs(q, attrs), items);
  }

  lemma {:induction false} DeferAttrsWellQueued(q: Queues, attrs: seq<Attribute>)
    requires WellQueued(q) && AttrsTyped(attrs)
    ensures WellQueued(DeferAttrs(q, attrs))
    decreases attrs
  {
    if attrs == [] {
    } else {
      DeferWellQueued(q, attrs[0].value);
      DeferAttrsWellQueued(Defer(q, attrs[0].value), attrs[1..]);
    }
  }

  lemma {:induction false} DeferItemsWellQueued(q: Queues, items: seq<Object>)
    requires WellQueued(q) && AllTyped(items)
    ensures WellQueued(DeferItems(q, items))
    decreases items
  {
    if items == [] {
    } else {
      DeferWellQueued(q, items[0]);
      DeferItemsWellQueued(Defer(q, items[0]), items[1..]);
    }
  }

  // ---------- whole objects ----------

  /** Everything the writer checks, except the nesting depth. */
  ghost predicate WithinLimits(x: Object) {
    StructureFits(x) && QueuesFit(Defer(NO_PAYLOADS, x))
  }

  /** Whether every payload lands where the reader's 32-bit byte counter can follow. */
  predicate AllFetchable(x: Object) {
    StructureOk(x);
    GroupsFetchable(NextAll([], Structure(x)), Defer(NO_PAYLOADS, x), 0)
  }

  lemma PayloadPassIsGroups(q: Queues)
    ensures PayloadPass(DIRECT, q) == GroupsFrom(q, 0)
  {
    assert GroupsFrom(q, 5) == [];
    assert GroupsFrom(q, 4) == GroupItems(AT_ONCE, q[4]);
    assert GroupsFrom(q, 3) == GroupItems(AT_ONCE, q[3]) + GroupsFrom(q, 4);
    assert GroupsFrom(q, 2) == GroupItems(AT_ONCE, q[2]) + GroupsFrom(q, 3);
    assert GroupsFrom(q, 1) == GroupItems(AT_ONCE, q[1]) + GroupsFrom(q, 2);
  }

  lemma ContainedIsFill(q: Queues)
    ensures Contained(q, 0) == Fill(q)
  {
    assert Contained(q, 5) == [];
    assert Contained(q, 4) == [PayloadsOf(q[4])];
    assert Contained(q, 3) == [PayloadsOf(q[3]), PayloadsOf(q[4])];
    assert Contained(q, 2) == [PayloadsOf(q[2]), PayloadsOf(q[3]), PayloadsOf(q[4])];
    assert Contained(q, 1) == [PayloadsOf(q[1]), PayloadsOf(q[2]), PayloadsOf(q[3]), PayloadsOf(q[4])];
  }

  lemma AllQueuedIn(x: Object)
    requires Typed(x) && WithinLimits(x)
    ensures AllQueued(Defer(NO_PAYLOADS, x))
  {
    DeferWellQueued(NO_PAYLOADS, x);
  }

  /** The payload pass of a whole object, after its structure. */
  lemma PayloadsBack(c: Codec, r: Reader, x: Object)
    requires Typed(x) && WithinLimits(x) && Sound(c)
    requires ItemsOk(Structure(x))
    requires Synced(c, r, NextAll([], Structure(x)), GroupsFrom(Defer(NO_PAYLOADS, x), 0))
    ensures var q := Defer(NO_PAYLOADS, x);
      var got := ReadPayloads(c, r, Sizes(q));
      (got.Ok? <==> AllFetchable(x)) && (got.Ok? ==> got.value.0 == Fill(q))
  {
    hide Sound, Synced, NextAll, ReadPayloads, ReadGroupsFrom, Contained, Fill, GroupsFetchable;
    var q := Defer(NO_PAYLOADS, x);
    AllQueuedIn(x);
    GroupsBack(c, r, NextAll([], Structure(x)), q, 0);
    ReadPayloadsInOrder(c, r, Sizes(q));
    ContainedIsFill(q);
  }

  /** The round trip, with everything it depends on: for every object the C++ types admit and the writer's
      size limits allow, reading gives the object back exactly when the nesting depth is within the
      reader's limit and no payload defeats the 32-bit counter of bulk reading. */
  lemma ObjectRoundTrip(c: Codec, direct: Modes, x: Object, max: nat)
    requires Sound(c) && Typed(x) && WithinLimits(x)
    ensures ItemsOk(Script(direct, x))
    ensures var got := ReadObject(c, Stream(c, Blocks(Script(direct, x))), max);
      if Depth(x) <= max && AllFetchable(x) then got == Ok(x) else got.Err?
    ensures Depth(x) > max ==>
      ReadObject(c, Stream(c, Blocks(Script(direct, x))), max) == Err(DepthExceeded)
  {
    hide Sound, ReadInto, ReadPayloads, Resolve, Fill, NextAll, Stream, WithinLimits, AllFetchable;
    EmissionModeDoesNotMatter(direct, DIRECT, x);
    var q := Defer(NO_PAYLOADS, x);
    var ts := GroupsFrom(q, 0);
    PayloadPassIsGroups(q);
    var r := Reader([], Stream(c, Blocks(Script(DIRECT, x))));
    assert Synced(c, r, [], Structure(x) + ts);
    assert StructureFits(x) by { WithinParts(x); }
    ReadIntoBack(c, r, [], x, ts, NO_PAYLOADS, 0, max);
    assert Sizes(NO_PAYLOADS) == NO_SLOTS;
    if Depth(x) <= max {
      var t := ReadInto(c, r, NO_SLOTS, 0, max).value;
      PayloadsBack(c, t.rest, x);
      ResolveBack(x, NO_PAYLOADS, q);
    }
  }

  lemma WithinParts(x: Object)
    requires WithinLimits(x)
    ensures StructureFits(x)
  {
  }
}
