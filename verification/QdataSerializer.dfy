/** The object writer as the class of the source: structure first, payloads in five queues. */
module QdataSerializer {
  import opened Bytes
  import opened BlockSpec
  import opened ObjectSpec
  import opened BlockModule

  // ---------- what the writer checks ----------

  /** The first error of a structure pass that starts at nesting depth `depth`. */
  function CheckObject(x: Object, depth: nat, max: nat): Result<()>
    decreases x
  {
    if depth >= max then Err(DepthExceeded)
    else
      match x
      case Nil => Ok(())
      case Vector(_, p, attrs) =>
        if Size(p) > MAX_VECTOR_LENGTH || |attrs| > MAX_ATTR_COUNT then Err(LengthLimit)
        else CheckAttrs(attrs, depth + 1, max)
      case List(items, attrs) =>
        if |items| > MAX_VECTOR_LENGTH || |attrs| > MAX_ATTR_COUNT then Err(LengthLimit)
        else
          var a := CheckAttrs(attrs, depth + 1, max);
          if a.Err? then a else CheckItems(items, depth + 1, max)
  }

  function CheckAttrs(attrs: seq<Attribute>, depth: nat, max: nat): Result<()>
    decreases attrs
  {
    if attrs == [] then Ok(())
    else if |attrs[0].name| > MAX_STRING_LENGTH then Err(LengthLimit)
    else
      var v := CheckObject(attrs[0].value, depth, max);
      if v.Err? then v else CheckAttrs(attrs[1..], depth, max)
  }

  function CheckItems(items: seq<Object>, depth: nat, max: nat): Result<()>
    decreases items
  {
    if items == [] then Ok(())
    else
      var v := CheckObject(items[0], depth, max);
      if v.Err? then v else CheckItems(items[1..], depth, max)
  }

  /** The structure pass succeeds exactly when the sizes fit and the nesting depth is within the limit. */
  lemma {:induction false} CheckObjectMeans(x: Object, depth: nat, max: nat)
    requires depth <= max
    ensures CheckObject(x, depth, max).Ok? <==> StructureFits(x) && depth + Depth(x) <= max
    decreases x
  {
    if depth < max {
      match x
      case Nil =>
      case Vector(_, _, attrs) => CheckAttrsMeans(attrs, depth + 1, max);
      case List(items, attrs) =>
        CheckAttrsMeans(attrs, depth + 1, max);
        CheckItemsMeans(items, depth + 1, max);
    }
  }

  lemma {:induction false} CheckAttrsMeans(attrs: seq<Attribute>, depth: nat, max: nat)
    requires depth <= max
    ensures CheckAttrs(attrs, depth, max).Ok? <==> AttrsFit(attrs) && depth + AttrsDepth(attrs) <= max
    decreases attrs
  {
    if attrs == [] {
    } else {
      CheckObjectMeans(attrs[0].value, depth, max);
      CheckAttrsMeans(attrs[1..], depth, max);
    }
  }

  lemma {:induction false} CheckItemsMeans(items: seq<Object>, depth: nat, max: nat)
    requires depth <= max
    ensures CheckItems(items, depth, max).Ok? <==> ItemsFit(items) && depth + ItemsDepth(items) <= max
    decreases items
  {
    if items == [] {
    } else {
      CheckObjectMeans(items[0], depth, max);
      CheckItemsMeans(items[1..], depth, max);
    }
  }

  // ---------- what was written ----------

  ghost predicate Wrote(w0: Writer, w1: Writer, items: seq<Item>) {
    ItemsOk(items) && w1 == WriteAll(w0, items)
  }

  lemma WroteNothing(w0: Writer, w1: Writer)
    ensures Wrote(w0, w1, []) <==> w0 == w1
  {
  }

  lemma WroteOne(w0: Writer, w1: Writer, it: Item)
    requires ItemOk(it) && w1 == Write(w0, it)
    ensures Wrote(w0, w1, [it])
  {
    assert [it][1..] == [];
    assert WriteAll(w1, [it][1..]) == w1;
  }

  lemma WroteThen(w0: Writer, w1: Writer, w2: Writer, a: seq<Item>, b: seq<Item>)
    requires Wrote(w0, w1, a) && Wrote(w1, w2, b)
    ensures Wrote(w0, w2, a + b)
  {
    WriteAllAppend(w0, a, b);
  }

  /** `a` is done, `b` remains. */
  lemma WroteFirst(w0: Writer, w1: Writer, end: Writer, a: seq<Item>, b: seq<Item>)
    requires Wrote(w0, end, a + b) && Wrote(w0, w1, a) && ItemsOk(b)
    ensures Wrote(w1, end, b)
  {
    WriteAllAppend(w0, a, b);
  }

  lemma RunSnoc(w: Writer, run: seq<bytes>, pod: bytes)
    requires ItemOk(Run(run)) && |Concat(run)| + |pod| <= BLOCK_RESERVE
    ensures ItemOk(Run(run + [pod]))
    ensures |Write(w, Run(run)).pending| + |pod| <= MAX_BLOCKSIZE
    ensures Write(w, Run(run + [pod])) == BlockSpec.PushPodContiguous(Write(w, Run(run)), pod)
  {
    ConcatSnoc(run, pod);
    RunEffect(w, run);
    RunEffect(w, run + [pod]);
    Assoc(w.pending, Concat(run), pod);
  }

  class QdataStreamWriter<!A> {
    const writer: BlockCompressWriter<A>
    const maxDepth: nat
    // whether a type's vectors are contiguous memory, by kind
    const direct: Modes
    var currentDepth: nat
    var stringPayloads: seq<Deferred>
    var complexPayloads: seq<Deferred>
    var realPayloads: seq<Deferred>
    var integerPayloads: seq<Deferred>
    var rawPayloads: seq<Deferred>
    var flushing: bool

    constructor (writer: BlockCompressWriter<A>, maxDepth: nat, direct: Modes)
      ensures this.writer == writer && this.maxDepth == maxDepth && this.direct == direct
      ensures currentDepth == 0 && Queued() == NO_PAYLOADS && !flushing
    {
      this.writer, this.maxDepth, this.direct := writer, maxDepth, direct;
      currentDepth, flushing := 0, false;
      stringPayloads, complexPayloads, realPayloads, integerPayloads, rawPayloads := [], [], [], [], [];
    }

    ghost function Queued(): Queues
      reads this
    {
      var q := [stringPayloads, complexPayloads, realPayloads, integerPayloads, rawPayloads];
      assert |q| == 5;
      q
    }

    // ---------- headers ----------

    /** The first pod of a run. */
    method Begin(pod: bytes)
      requires writer.Valid() && 1 <= |pod| <= BLOCK_RESERVE
      modifies writer.Repr()
      ensures writer.Valid() && fresh(writer.Repr() - old(writer.Repr()))
      ensures ItemOk(Run([pod])) && writer.Abs() == Write(old(writer.Abs()), Run([pod]))
    {
      hide BlockCompressWriter<A>.Valid, BlockSpec.PushPod;
      OnePod(pod);
      writer.PushPod(pod);
    }

    /** One more pod of the run that began at `w`. */
    method Extend(ghost w: Writer, ghost run: seq<bytes>, pod: bytes)
      requires writer.Valid() && ItemOk(Run(run)) && |Concat(run)| + |pod| <= BLOCK_RESERVE
      requires writer.Abs() == Write(w, Run(run))
      modifies writer.Repr()
      ensures writer.Valid() && fresh(writer.Repr() - old(writer.Repr()))
      ensures ItemOk(Run(run + [pod])) && writer.Abs() == Write(w, Run(run + [pod]))
    {
      RunSnoc(w, run, pod);
      writer.PushPodContiguous(pod);
    }

    /** The header of an attribute list, or of an object without one, starts a run. */
    method WriteLength(t: Tag, n: nat)
      requires writer.Valid() && t != NIL
      modifies writer.Repr()
      ensures writer.Valid() && fresh(writer.Repr() - old(writer.Repr()))
      ensures ItemOk(Run(LengthPods(t, n)))
      ensures writer.Abs() == Write(old(writer.Abs()), Run(LengthPods(t, n)))
    {
      hide BlockCompressWriter<A>.Valid, Write, Concat;
      ghost var w := writer.Abs();
      LengthShape(t, n);
      var pods := LengthPods(t, n);
      Begin(pods[0]);
      if |pods| > 1 {
        Extend(w, [pods[0]], pods[1]);
        assert [pods[0]] + [pods[1]] == pods;
      } else {
        assert [pods[0]] == pods;
      }
    }

    /** The header of an object behind its attribute header, in the same run. */
    method WriteLengthContiguous(ghost w: Writer, ghost run: seq<bytes>, t: Tag, n: nat)
      requires writer.Valid() && t != NIL && ItemOk(Run(run)) && |Concat(run)| <= 9
      requires writer.Abs() == Write(w, Run(run))
      modifies writer.Repr()
      ensures writer.Valid() && fresh(writer.Repr() - old(writer.Repr()))
      ensures ItemOk(Run(run + LengthPods(t, n)))
      ensures writer.Abs() == Write(w, Run(run + LengthPods(t, n)))
    {
      hide BlockCompressWriter<A>.Valid, Write, Concat;
      LengthShape(t, n);
      var pods := LengthPods(t, n);
      ConcatSnoc(run, pods[0]);
      Extend(w, run, pods[0]);
      if |pods| > 1 {
        Extend(w, run + [pods[0]], pods[1]);
        assert (run + [pods[0]]) + [pods[1]] == run + pods;
      } else {
        assert run + [pods[0]] == run + pods;
      }
    }

    method WriteHeader(t: Tag, n: nat, attrs: nat)
      requires writer.Valid() && t != NIL
      modifies writer.Repr()
      ensures writer.Valid() && fresh(writer.Repr() - old(writer.Repr()))
      ensures Wrote(old(writer.Abs()), writer.Abs(), [Run(HeaderPods(t, n, attrs))])
    {
      hide BlockCompressWriter<A>.Valid, Write, Concat, Wrote, LengthPods;
      ghost var w := writer.Abs();
      if attrs > 0 {
        LengthShape(ATTRIBUTE, attrs);
        WriteLength(ATTRIBUTE, attrs);
        WriteLengthContiguous(w, LengthPods(ATTRIBUTE, attrs), t, n);
      } else {
        WriteLength(t, n);
      }
      WroteOne(w, writer.Abs(), Run(HeaderPods(t, n, attrs)));
    }

    method WriteNil()
      requires writer.Valid()
      modifies writer.Repr()
      ensures writer.Valid() && fresh(writer.Repr() - old(writer.Repr()))
      ensures Wrote(old(writer.Abs()), writer.Abs(), Structure(Nil))
    {
      hide BlockCompressWriter<A>.Valid, Write;
      Begin([0]);
      WroteOne(old(writer.Abs()), writer.Abs(), Run([[0]]));
    }

    /** A string's length and characters. */
    method WriteName(name: bytes)
      requires writer.Valid()
      modifies writer.Repr()
      ensures writer.Valid() && fresh(writer.Repr() - old(writer.Repr()))
      ensures Wrote(old(writer.Abs()), writer.Abs(), NameItems(name))
    {
      hide BlockCompressWriter<A>.Valid, Write, Concat, Wrote;
      ghost var w := writer.Abs();
      StringShape(|name|);
      var pods := StringPods(|name|);
      Begin(pods[0]);
      if |pods| > 1 {
        Extend(w, [pods[0]], pods[1]);
        assert [pods[0]] + [pods[1]] == pods;
      } else {
        assert [pods[0]] == pods;
      }
      WroteOne(w, writer.Abs(), Run(pods));
      ghost var w1 := writer.Abs();
      if name != [] {
        writer.PushData(name);
        assert writer.Abs() == Write(w1, Data(name)) by { DataMeans(w1, name); }
        WroteOne(w1, writer.Abs(), Data(name));
        WroteThen(w, w1, writer.Abs(), [Run(pods)], [Data(name)]);
      } else {
        assert [Run(pods)] + [] == [Run(pods)];
      }
    }

    // ---------- the structure pass ----------

    method WriteObject(x: Object) returns (r: Result<()>)
      requires writer.Valid() && currentDepth <= maxDepth
      modifies this, writer.Repr()
      ensures writer.Valid() && fresh(writer.Repr() - old(writer.Repr()))
      ensures currentDepth == old(currentDepth) && flushing == old(flushing)
      ensures r == CheckObject(x, currentDepth, maxDepth)
      ensures r.Ok? ==> Wrote(old(writer.Abs()), writer.Abs(), Structure(x)) && Queued() == Defer(old(Queued()), x)
      decreases x, 1
    {
      hide BlockCompressWriter<A>.Valid, Wrote, Structure, CheckAttrs, CheckItems;
      if currentDepth >= maxDepth {
        return Err(DepthExceeded);
      }
      currentDepth := currentDepth + 1;
      match x {
        case Nil =>
          WriteNil();
          r := Ok(());
        case Vector(_, _, _) => r := WriteVector(x);
        case List(_, _) => r := WriteList(x);
      }
      currentDepth := currentDepth - 1;
    }

    method WriteVector(x: Object) returns (r: Result<()>)
      requires writer.Valid() && 1 <= currentDepth <= maxDepth && x.Vector?
      modifies this, writer.Repr()
      ensures writer.Valid() && fresh(writer.Repr() - old(writer.Repr()))
      ensures currentDepth == old(currentDepth) && flushing == old(flushing)
      ensures r == CheckObject(x, currentDepth - 1, maxDepth)
      ensures r.Ok? ==> Wrote(old(writer.Abs()), writer.Abs(), Structure(x)) && Queued() == Defer(old(Queued()), x)
      decreases x, 0
    {
      hide BlockCompressWriter<A>.Valid, Wrote, HeaderPods, AttrItems, DeferAttrs, CheckAttrs;
      ghost var w := writer.Abs();
      if Size(x.payload) > MAX_VECTOR_LENGTH || |x.attrs| > MAX_ATTR_COUNT {
        return Err(LengthLimit);
      }
      WriteHeader(VECTOR(x.kind), Size(x.payload), |x.attrs|);
      ghost var w1 := writer.Abs();
      r := WriteAttributes(x.attrs);
      if r.Ok? {
        WroteThen(w, w1, writer.Abs(), [Run(HeaderPods(VECTOR(x.kind), Size(x.payload), |x.attrs|))],
                  AttrItems(x.attrs));
        if Size(x.payload) > 0 {
          DeferPayload(x.kind, x.payload);
        }
      }
    }

    method WriteList(x: Object) returns (r: Result<()>)
      requires writer.Valid() && 1 <= currentDepth <= maxDepth && x.List?
      modifies this, writer.Repr()
      ensures writer.Valid() && fresh(writer.Repr() - old(writer.Repr()))
      ensures currentDepth == old(currentDepth) && flushing == old(flushing)
      ensures r == CheckObject(x, currentDepth - 1, maxDepth)
      ensures r.Ok? ==> Wrote(old(writer.Abs()), writer.Abs(), Structure(x)) && Queued() == Defer(old(Queued()), x)
      decreases x, 0
    {
      hide BlockCompressWriter<A>.Valid, Wrote, HeaderPods, AttrItems, DeferAttrs, CheckAttrs,
           ListItems, DeferItems, CheckItems;
      ghost var w := writer.Abs();
      if |x.items| > MAX_VECTOR_LENGTH || |x.attrs| > MAX_ATTR_COUNT {
        return Err(LengthLimit);
      }
      WriteHeader(LIST, |x.items|, |x.attrs|);
      ghost var w1 := writer.Abs();
      r := WriteAttributes(x.attrs);
      if r.Ok? {
        ghost var w2 := writer.Abs();
        r := WriteItems(x.items);
        if r.Ok? {
          WroteThen(w1, w2, writer.Abs(), AttrItems(x.attrs), ListItems(x.items));
          WroteThen(w, w1, writer.Abs(), [Run(HeaderPods(LIST, |x.items|, |x.attrs|))],
                    AttrItems(x.attrs) + ListItems(x.items));
        }
      }
    }

    method DeferPayload(k: Kind, p: Payload)
      modifies this`stringPayloads, this`complexPayloads, this`realPayloads, this`integerPayloads, this`rawPayloads
      ensures Queued() == Push(old(Queued()), Deferred(k, p))
    {
      match k
      case Character => stringPayloads := stringPayloads + [Deferred(k, p)];
      case Complex => complexPayloads := complexPayloads + [Deferred(k, p)];
      case Real => realPayloads := realPayloads + [Deferred(k, p)];
      case Logical => integerPayloads := integerPayloads + [Deferred(k, p)];
      case Integer => integerPayloads := integerPayloads + [Deferred(k, p)];
      case Raw => rawPayloads := rawPayloads + [Deferred(k, p)];
    }

    method WriteAttributes(attrs: seq<Attribute>) returns (r: Result<()>)
      requires writer.Valid() && currentDepth <= maxDepth
      modifies this, writer.Repr()
      ensures writer.Valid() && fresh(writer.Repr() - old(writer.Repr()))
      ensures currentDepth == old(currentDepth) && flushing == old(flushing)
      ensures r == CheckAttrs(attrs, currentDepth, maxDepth)
      ensures r.Ok? ==> Wrote(old(writer.Abs()), writer.Abs(), AttrItems(attrs))
      ensures r.Ok? ==> Queued() == DeferAttrs(old(Queued()), attrs)
      decreases attrs
    {
      hide BlockCompressWriter<A>.Valid, Wrote, NameItems, Structure, Defer, CheckObject, WriteAll;
      AttrItemsOk(attrs);
      ghost var end := WriteAll(writer.Abs(), AttrItems(attrs));
      assert Wrote(writer.Abs(), end, AttrItems(attrs)) by { WroteAll(writer.Abs(), AttrItems(attrs)); }
      ghost var q := Queued();
      var i := 0;
      while i < |attrs|
        invariant i <= |attrs|
        invariant writer.Valid() && fresh(writer.Repr() - old(writer.Repr()))
        invariant currentDepth == old(currentDepth) && flushing == old(flushing)
        invariant CheckAttrs(attrs[i..], currentDepth, maxDepth) == CheckAttrs(attrs, currentDepth, maxDepth)
        invariant Wrote(writer.Abs(), end, AttrItems(attrs[i..]))
        invariant DeferAttrs(Queued(), attrs[i..]) == DeferAttrs(q, attrs)
      {
        ghost var rest := attrs[i..];
        assert rest[0] == attrs[i] && rest[1..] == attrs[i + 1..];
        AttrItemsOk(rest[1..]);
        StructureOk(rest[0].value);
        if |attrs[i].name| > MAX_STRING_LENGTH {
          return Err(LengthLimit);
        }
        ghost var w := writer.Abs();
        WriteName(attrs[i].name);
        ItemsOkAppend(Structure(rest[0].value), AttrItems(rest[1..]));
        WroteFirst(w, writer.Abs(), end, NameItems(attrs[i].name), Structure(attrs[i].value) + AttrItems(rest[1..]));
        w := writer.Abs();
        r := WriteObject(attrs[i].value);
        if r.Err? {
          return;
        }
        WroteFirst(w, writer.Abs(), end, Structure(attrs[i].value), AttrItems(rest[1..]));
        i := i + 1;
      }
      assert attrs[i..] == [];
      WroteNothing(writer.Abs(), end);
      WroteAll(old(writer.Abs()), AttrItems(attrs));
      r := Ok(());
    }

    method WriteItems(items: seq<Object>) returns (r: Result<()>)
      requires writer.Valid() && currentDepth <= maxDepth
      modifies this, writer.Repr()
      ensures writer.Valid() && fresh(writer.Repr() - old(writer.Repr()))
      ensures currentDepth == old(currentDepth) && flushing == old(flushing)
      ensures r == CheckItems(items, currentDepth, maxDepth)
      ensures r.Ok? ==> Wrote(old(writer.Abs()), writer.Abs(), ListItems(items))
      ensures r.Ok? ==> Queued() == DeferItems(old(Queued()), items)
      decreases items
    {
      hide BlockCompressWriter<A>.Valid, Wrote, Structure, Defer, CheckObject, WriteAll;
      ListItemsOk(items);
      ghost var end := WriteAll(writer.Abs(), ListItems(items));
      assert Wrote(writer.Abs(), end, ListItems(items)) by { WroteAll(writer.Abs(), ListItems(items)); }
      ghost var q := Queued();
      var i := 0;
      while i < |items|
        invariant i <= |items|
        invariant writer.Valid() && fresh(writer.Repr() - old(writer.Repr()))
        invariant currentDepth == old(currentDepth) && flushing == old(flushing)
        invariant CheckItems(items[i..], currentDepth, maxDepth) == CheckItems(items, currentDepth, maxDepth)
        invariant Wrote(writer.Abs(), end, ListItems(items[i..]))
        invariant DeferItems(Queued(), items[i..]) == DeferItems(q, items)
      {
        ghost var rest := items[i..];
        assert rest[0] == items[i] && rest[1..] == items[i + 1..];
        ListItemsOk(rest[1..]);
        ghost var w := writer.Abs();
        r := WriteObject(items[i]);
        if r.Err? {
          return;
        }
        WroteFirst(w, writer.Abs(), end, Structure(items[i]), ListItems(rest[1..]));
        i := i + 1;
      }
      assert items[i..] == [];
      WroteNothing(writer.Abs(), end);
      WroteAll(old(writer.Abs()), ListItems(items));
      r := Ok(());
    }

    // ---------- the payload pass ----------

    method WriteStringValue(s: Option<bytes>) returns (r: Result<()>)
      requires writer.Valid()
      modifies writer.Repr()
      ensures writer.Valid() && fresh(writer.Repr() - old(writer.Repr()))
      ensures r == if !flushing then Err(PayloadBeforeFlush)
                   else if s.Some? && |s.value| > MAX_STRING_LENGTH then Err(LengthLimit)
                   else Ok(())
      ensures r.Ok? ==> Wrote(old(writer.Abs()), writer.Abs(), StringItems(s))
    {
      hide BlockCompressWriter<A>.Valid, Write, Wrote, NameItems;
      if !flushing {
        return Err(PayloadBeforeFlush);
      }
      match s {
        case None =>
          Begin([255]);
          WroteOne(old(writer.Abs()), writer.Abs(), Run([[255]]));
        case Some(t) =>
          if |t| > MAX_STRING_LENGTH {
            return Err(LengthLimit);
          }
          WriteName(t);
      }
      r := Ok(());
    }

    /** The memory of a whole vector, or of one of its elements. */
    method WriteData(data: bytes) returns (r: Result<()>)
      requires writer.Valid() && data != []
      modifies writer.Repr()
      ensures writer.Valid() && fresh(writer.Repr() - old(writer.Repr()))
      ensures r == if !flushing then Err(PayloadBeforeFlush) else Ok(())
      ensures r.Ok? ==> Wrote(old(writer.Abs()), writer.Abs(), [Data(data)])
    {
      hide BlockCompressWriter<A>.Valid, Write, Wrote, BlockSpec.PushData;
      if !flushing {
        return Err(PayloadBeforeFlush);
      }
      DataMeans(writer.Abs(), data);
      writer.PushData(data);
      WroteOne(old(writer.Abs()), writer.Abs(), Data(data));
      r := Ok(());
    }

    method EmitStrings(ss: seq<Option<bytes>>) returns (r: Result<()>)
      requires writer.Valid() && flushing
      modifies writer.Repr()
      ensures writer.Valid() && fresh(writer.Repr() - old(writer.Repr()))
      ensures r == if AllFit(ss) then Ok(()) else Err(LengthLimit)
      ensures r.Ok? ==> Wrote(old(writer.Abs()), writer.Abs(), StringsItems(ss))
    {
      hide BlockCompressWriter<A>.Valid, Wrote, StringItems, WriteAll;
      StringsItemsOk(ss);
      ghost var end := WriteAll(writer.Abs(), StringsItems(ss));
      WroteAll(writer.Abs(), StringsItems(ss));
      var i := 0;
      while i < |ss|
        invariant i <= |ss|
        invariant writer.Valid() && fresh(writer.Repr() - old(writer.Repr()))
        invariant AllFit(ss[..i])
        invariant Wrote(writer.Abs(), end, StringsItems(ss[i..]))
      {
        ghost var rest := ss[i..];
        assert rest[0] == ss[i] && rest[1..] == ss[i + 1..];
        StringsItemsOk(rest[1..]);
        ghost var w := writer.Abs();
        r := WriteStringValue(ss[i]);
        if r.Err? {
          return;
        }
        WroteFirst(w, writer.Abs(), end, StringItems(ss[i]), StringsItems(rest[1..]));
        i := i + 1;
      }
      assert ss[i..] == [] && ss[..i] == ss;
      WroteNothing(writer.Abs(), end);
      WroteAll(old(writer.Abs()), StringsItems(ss));
      r := Ok(());
    }

    method EmitCells(cells: seq<bytes>) returns (r: Result<()>)
      requires writer.Valid() && flushing && forall i :: 0 <= i < |cells| ==> cells[i] != []
      modifies writer.Repr()
      ensures writer.Valid() && fresh(writer.Repr() - old(writer.Repr()))
      ensures r == Ok(()) && Wrote(old(writer.Abs()), writer.Abs(), CellItems(cells))
    {
      hide BlockCompressWriter<A>.Valid, Wrote, WriteAll;
      CellItemsOk(cells);
      ghost var end := WriteAll(writer.Abs(), CellItems(cells));
      WroteAll(writer.Abs(), CellItems(cells));
      var i := 0;
      while i < |cells|
        invariant i <= |cells|
        invariant writer.Valid() && fresh(writer.Repr() - old(writer.Repr()))
        invariant Wrote(writer.Abs(), end, CellItems(cells[i..]))
      {
        ghost var rest := cells[i..];
        assert rest[0] == cells[i] && rest[1..] == cells[i + 1..];
        CellItemsOk(rest[1..]);
        ghost var w := writer.Abs();
        r := WriteData(cells[i]);
        WroteFirst(w, writer.Abs(), end, [Data(cells[i])], CellItems(rest[1..]));
        i := i + 1;
      }
      assert cells[i..] == [];
      WroteNothing(writer.Abs(), end);
      WroteAll(old(writer.Abs()), CellItems(cells));
      r := Ok(());
    }

    method EmitPayload(d: Deferred, direct: bool) returns (r: Result<()>)
      requires writer.Valid() && flushing && PayloadTyped(d.kind, d.payload) && Size(d.payload) > 0
      modifies writer.Repr()
      ensures writer.Valid() && fresh(writer.Repr() - old(writer.Repr()))
      ensures r == if StringsFit(d) then Ok(()) else Err(LengthLimit)
      ensures r.Ok? ==> Wrote(old(writer.Abs()), writer.Abs(), PayloadItems(direct, d))
    {
      hide BlockCompressWriter<A>.Valid, Wrote, StringsItems, CellItems;
      match d.payload
      case Strings(ss) =>
        r := EmitStrings(ss);
      case Cells(cells) =>
        if direct {
          assert Concat(cells) == cells[0] + Concat(cells[1..]);
          r := WriteData(Concat(cells));
        } else {
          r := EmitCells(cells);
        }
    }

    method FlushPayloadGroup(ds: seq<Deferred>, mode: Mode) returns (r: Result<()>)
      requires writer.Valid() && flushing && GroupTyped(ds)
      modifies writer.Repr()
      ensures writer.Valid() && fresh(writer.Repr() - old(writer.Repr()))
      ensures r == if GroupFits(ds) then Ok(()) else Err(LengthLimit)
      ensures r.Ok? ==> Wrote(old(writer.Abs()), writer.Abs(), GroupItems(mode, ds))
    {
      hide BlockCompressWriter<A>.Valid, Wrote, PayloadItems, WriteAll, StringsFit, PayloadTyped, Size;
      GroupItemsOk(mode, ds);
      ghost var end := WriteAll(writer.Abs(), GroupItems(mode, ds));
      WroteAll(writer.Abs(), GroupItems(mode, ds));
      var i := 0;
      while i < |ds|
        invariant i <= |ds|
        invariant writer.Valid() && fresh(writer.Repr() - old(writer.Repr()))
        invariant GroupFits(ds[..i])
        invariant Wrote(writer.Abs(), end, GroupItems(mode, ds[i..]))
      {
        ghost var rest := ds[i..];
        assert rest[0] == ds[i] && rest[1..] == ds[i + 1..];
        GroupItemsOk(mode, rest[1..]);
        ghost var w := writer.Abs();
        r := EmitPayload(ds[i], mode(|ds| - i));
        if r.Err? {
          return;
        }
        WroteFirst(w, writer.Abs(), end, PayloadItems(mode(|ds| - i), ds[i]), GroupItems(mode, rest[1..]));
        i := i + 1;
      }
      assert ds[i..] == [] && ds[..i] == ds;
      WroteNothing(writer.Abs(), end);
      WroteAll(old(writer.Abs()), GroupItems(mode, ds));
      r := Ok(());
    }

    /** All payloads, queue by queue. */
    method FlushPayloads() returns (r: Result<()>)
      requires writer.Valid() && GroupsTyped(Queued())
      modifies this`flushing, writer.Repr()
      ensures writer.Valid() && fresh(writer.Repr() - old(writer.Repr()))
      ensures r == if GroupsFit(Queued()) then Ok(()) else Err(LengthLimit)
      ensures Queued() == old(Queued())
      ensures r.Ok? ==> Wrote(old(writer.Abs()), writer.Abs(), PayloadPass(direct, Queued())) && !flushing
    {
      hide BlockCompressWriter<A>.Valid, Wrote, GroupItems, GroupFits, GroupTyped, PayloadPass;
      ghost var q := Queued();
      flushing := true;
      ghost var w := writer.Abs();
      r := FlushPayloadGroup(stringPayloads, direct(0));
      if r.Err? {
        return;
      }
      ghost var w0 := writer.Abs();
      r := FlushPayloadGroup(complexPayloads, direct(1));
      if r.Err? {
        return;
      }
      ghost var w1 := writer.Abs();
      r := FlushPayloadGroup(realPayloads, direct(2));
      if r.Err? {
        return;
      }
      ghost var w2 := writer.Abs();
      r := FlushPayloadGroup(integerPayloads, direct(3));
      if r.Err? {
        return;
      }
      ghost var w3 := writer.Abs();
      r := FlushPayloadGroup(rawPayloads, direct(4));
      if r.Err? {
        return;
      }
      flushing := false;
      WrotePass(direct, q, w, w0, w1, w2, w3, writer.Abs());
    }
  }

  predicate AllFit(ss: seq<Option<bytes>>) {
    forall i :: 0 <= i < |ss| ==> ss[i].Some? ==> |ss[i].value| <= MAX_STRING_LENGTH
  }

  predicate GroupFits(ds: seq<Deferred>) {
    forall i :: 0 <= i < |ds| ==> StringsFit(ds[i])
  }

  predicate GroupTyped(ds: seq<Deferred>) {
    forall i :: 0 <= i < |ds| ==> PayloadTyped(ds[i].kind, ds[i].payload) && Size(ds[i].payload) > 0
  }

  predicate GroupsFit(q: Queues) {
    GroupFits(q[0]) && GroupFits(q[1]) && GroupFits(q[2]) && GroupFits(q[3]) && GroupFits(q[4])
  }

  predicate GroupsTyped(q: Queues) {
    GroupTyped(q[0]) && GroupTyped(q[1]) && GroupTyped(q[2]) && GroupTyped(q[3]) && GroupTyped(q[4])
  }

  lemma WrotePass(direct: Modes, q: Queues, w: Writer, w0: Writer, w1: Writer, w2: Writer, w3: Writer, w4: Writer)
    requires Wrote(w, w0, GroupItems(direct(0), q[0])) && Wrote(w0, w1, GroupItems(direct(1), q[1]))
    requires Wrote(w1, w2, GroupItems(direct(2), q[2])) && Wrote(w2, w3, GroupItems(direct(3), q[3]))
    requires Wrote(w3, w4, GroupItems(direct(4), q[4]))
    ensures Wrote(w, w4, PayloadPass(direct, q))
  {
    hide Wrote, GroupItems;
    var g3 := GroupItems(direct(3), q[3]) + GroupItems(direct(4), q[4]);
    var g2 := GroupItems(direct(2), q[2]) + g3;
    WroteThen(w2, w3, w4, GroupItems(direct(3), q[3]), GroupItems(direct(4), q[4]));
    WroteThen(w1, w2, w4, GroupItems(direct(2), q[2]), g3);
    WroteThen(w0, w1, w4, GroupItems(direct(1), q[1]), g2);
    WroteThen(w, w0, w4, GroupItems(direct(0), q[0]), GroupItems(direct(1), q[1]) + g2);
  }

  lemma WroteAll(w: Writer, items: seq<Item>)
    requires ItemsOk(items)
    ensures Wrote(w, WriteAll(w, items), items)
  {
  }

  lemma DataMeans(w: Writer, d: bytes)
    ensures Write(w, Data(d)) == BlockSpec.PushData(w, d)
  {
  }

  lemma LengthShape(t: Tag, n: nat)
    requires t != NIL
    ensures var pods := LengthPods(t, n);
      && 1 <= |pods| <= 2 && |pods[0]| == 1 && (|pods| == 2 ==> |pods[1]| <= 8)
      && |Concat(pods)| <= 9 && |Concat([pods[0]])| == 1 && ItemOk(Run(pods))
    ensures t == ATTRIBUTE ==> |Concat(LengthPods(t, n))| <= 5
  {
    LengthRun(t, n);
    OnePod(LengthPods(t, n)[0]);
  }

  lemma StringShape(n: nat)
    ensures var pods := StringPods(n);
      && 1 <= |pods| <= 2 && |pods[0]| == 1 && (|pods| == 2 ==> |pods[1]| <= 4)
      && |Concat([pods[0]])| == 1 && ItemOk(Run(pods))
  {
    RunLengths(LIST, n, 0);
    OnePod(StringPods(n)[0]);
  }
}
