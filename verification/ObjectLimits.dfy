/** What the 32-bit counter of bulk reading means for whole objects: a bound that is always safe, and the
    exact length at which a raw vector stops being readable. */
module ObjectLimits {
  import opened Bytes
  import opened BlockSpec
  import opened ReaderSpec
  import opened ObjectSpec
  import opened ObjectReaderSpec
  import opened StructureRoundTrip
  import opened PayloadRoundTrip

  function PayloadBytes(d: Deferred): nat {
    match d.payload
    case Cells(cells) => |Concat(cells)|
    case Strings(_) => 0
  }

  predicate Below4GiB(ds: seq<Deferred>) {
    forall i :: 0 <= i < |ds| ==> PayloadBytes(ds[i]) < TWO_32
  }

  lemma {:induction false} SmallGroup(p: bytes, ds: seq<Deferred>)
    requires Below4GiB(ds)
    ensures GroupFetchable(p, ds)
    decreases |ds|
  {
    hide NextAll, PayloadItems;
    if ds == [] {
    } else {
      assert PayloadBytes(ds[0]) < TWO_32;
      PayloadItemsOk(true, ds[0]);
      SmallGroup(NextAll(p, PayloadItems(true, ds[0])), ds[1..]);
    }
  }

  lemma {:induction false} SmallGroups(p: bytes, q: Queues, k: nat)
    requires k <= 5 && forall j :: 0 <= j < 5 ==> Below4GiB(q[j])
    ensures GroupsFetchable(p, q, k)
    decreases 5 - k
  {
    hide NextAll, GroupItems, GroupFetchable;
    if k == 5 {
    } else {
      SmallGroup(p, q[k]);
      GroupItemsOk(AT_ONCE, q[k]);
      SmallGroups(NextAll(p, GroupItems(AT_ONCE, q[k])), q, k + 1);
    }
  }

  /** With every single payload below 4 GiB the round trip depends on the nesting depth alone. */
  lemma SmallObjectRoundTrip(c: Codec, direct: Modes, x: Object, max: nat)
    requires Sound(c) && Typed(x) && WithinLimits(x)
    requires forall k :: 0 <= k < 5 ==> Below4GiB(Defer(NO_PAYLOADS, x)[k])
    ensures ItemsOk(Script(direct, x))
    ensures ReadObject(c, Stream(c, Blocks(Script(direct, x))), max)
         == if Depth(x) <= max then Ok(x) else Err(DepthExceeded)
  {
    hide Sound, Stream, ReadObject, NextAll;
    StructureOk(x);
    SmallGroups(NextAll([], Structure(x)), Defer(NO_PAYLOADS, x), 0);
    ObjectRoundTrip(c, direct, x, max);
  }

  lemma EmptyGroup(p: bytes)
    ensures GroupFetchable(p, []) && GroupItems(AT_ONCE, []) == [] && ItemsOk([]) && NextAll(p, []) == p
  {
  }

  lemma OnlyLastGroup(p: bytes, q: Queues)
    requires q[0] == [] && q[1] == [] && q[2] == [] && q[3] == []
    ensures GroupsFetchable(p, q, 0) <==> GroupFetchable(p, q[4])
  {
    hide NextAll, GroupFetchable, GroupItems;
    EmptyGroup(p);
    GroupItemsOk(AT_ONCE, q[4]);
    assert GroupsFetchable(p, q, 4) <==> GroupFetchable(p, q[4]);
    assert GroupsFetchable(p, q, 3) <==> GroupsFetchable(p, q, 4);
    assert GroupsFetchable(p, q, 2) <==> GroupsFetchable(p, q, 3);
    assert GroupsFetchable(p, q, 1) <==> GroupsFetchable(p, q, 2);
  }

  lemma OneInGroup(p: bytes, d: Deferred)
    ensures GroupFetchable(p, [d]) <==> Fetchable(p, d)
  {
    hide NextAll, Fetchable, PayloadItems;
    PayloadItemsOk(true, d);
    assert [d][1..] == [];
    assert GroupFetchable(NextAll(p, PayloadItems(true, d)), []);
  }

  lemma AfterHeader(n: nat)
    requires TWO_32 <= n
    ensures |Concat(HeaderPods(VECTOR(Raw), n, 0))| == 9
  {
    LengthRun(VECTOR(Raw), n);
  }

  lemma AfterRun(pods: seq<bytes>)
    requires ItemOk(Run(pods))
    ensures Next([], Run(pods)) == Concat(pods)
  {
    RunEffect(Writer([], []), pods);
    assert [] + Concat(pods) == Concat(pods);
  }

  lemma CountableAfterNine(p: bytes, n: nat)
    requires n >= TWO_32 ==> |p| == 9
    ensures Countable(p, n) <==> n < 4296015863
  {
    if n >= TWO_32 {
      WholeBlocksValue(n - 1048567);
    }
  }

  /** Only a raw vector without attributes is in the queues. */
  lemma RawQueues(cells: seq<bytes>)
    requires cells != []
    ensures var q := Defer(NO_PAYLOADS, Vector(Raw, Cells(cells), []));
      q[0] == [] && q[1] == [] && q[2] == [] && q[3] == [] && q[4] == [Deferred(Raw, Cells(cells))]
  {
  }

  lemma RawFetchable(cells: seq<bytes>)
    requires cells != [] && forall i :: 0 <= i < |cells| ==> |cells[i]| == 1
    ensures AllFetchable(Vector(Raw, Cells(cells), [])) <==> |cells| < 4296015863
  {
    hide Countable, GroupsFetchable, GroupFetchable, NextAll, Defer, HeaderPods;
    var x, run := Vector(Raw, Cells(cells), []), Run(HeaderPods(VECTOR(Raw), |cells|, 0));
    StructureOk(x);
    RunLengths(VECTOR(Raw), |cells|, 0);
    assert Structure(x) == [run];
    NextAllOne([], run);
    AfterRun(run.pods);
    var p := NextAll([], Structure(x));
    if |cells| >= TWO_32 {
      AfterHeader(|cells|);
    }
    RawQueues(cells);
    OnlyLastGroup(p, Defer(NO_PAYLOADS, x));
    OneInGroup(p, Deferred(Raw, Cells(cells)));
    CellsLength(cells, 1);
    CountableAfterNine(p, |cells|);
  }

  /** A raw vector is written whatever its length, but it can be read back exactly when it has fewer than
      2^32 + 2^20 - 9 bytes: one byte more and the counter of bulk reading wraps. */
  lemma RawVectorRoundTrip(c: Codec, direct: Modes, cells: seq<bytes>, max: nat)
    requires Sound(c) && max >= 1
    requires |cells| <= MAX_VECTOR_LENGTH && forall i :: 0 <= i < |cells| ==> |cells[i]| == 1
    ensures var x := Vector(Raw, Cells(cells), []);
      ItemsOk(Script(direct, x)) &&
      var got := ReadObject(c, Stream(c, Blocks(Script(direct, x))), max);
      if |cells| < 4296015863 then got == Ok(x) else got.Err?
  {
    hide Sound, Stream, ReadObject, AllFetchable, Defer, Script;
    var x := Vector(Raw, Cells(cells), []);
    RawWithinLimits(cells);
    RawTyped(cells);
    ObjectRoundTrip(c, direct, x, max);
    if cells == [] {
      EmptyFetchable(x);
    } else {
      RawFetchable(cells);
    }
  }

  lemma RawTyped(cells: seq<bytes>)
    requires forall i :: 0 <= i < |cells| ==> |cells[i]| == 1
    ensures var x := Vector(Raw, Cells(cells), []); Typed(x) && Depth(x) == 1
  {
    assert PayloadTyped(Raw, Cells(cells));
  }

  lemma RawWithinLimits(cells: seq<bytes>)
    requires |cells| <= MAX_VECTOR_LENGTH
    ensures WithinLimits(Vector(Raw, Cells(cells), []))
  {
    var x := Vector(Raw, Cells(cells), []);
    var q := Defer(NO_PAYLOADS, x);
    forall k, i | 0 <= k < 5 && 0 <= i < |q[k]| ensures StringsFit(q[k][i]) {
      if cells != [] {
        RawQueues(cells);
      }
    }
    assert StructureFits(x);
  }

  lemma EmptyFetchable(x: Object)
    requires x == Vector(Raw, Cells([]), [])
    ensures AllFetchable(x)
  {
    StructureOk(x);
    assert Defer(NO_PAYLOADS, x) == NO_PAYLOADS;
    SmallGroups(NextAll([], Structure(x)), NO_PAYLOADS, 0);
  }
}
