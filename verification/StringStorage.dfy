/** Where the characters of strings live: slabs of memory that strings are packed into. */
module StringStorage {
  import opened Bytes
  import opened ObjectSpec

  const SLAB_BYTES: nat := 1048576

  /** A string: missing, empty, or `len` bytes of a slab. */
  datatype StringRef = Na | Empty | Ref(slab: array<byte>, at: nat, len: nat)

  predicate InBounds(s: StringRef) {
    s.Ref? ==> s.at + s.len <= s.slab.Length
  }

  function Text(s: StringRef): Option<bytes>
    requires InBounds(s)
    reads if s.Ref? then {s.slab} else {}
  {
    match s
    case Na => None
    case Empty => Some([])
    case Ref(slab, at, len) => Some(slab[at..at + len])
  }

  function SlabsOf(refs: seq<StringRef>): set<array<byte>> {
    set s | s in refs && s.Ref? :: s.slab
  }

  ghost predicate TextsAre(refs: seq<StringRef>, texts: seq<Option<bytes>>)
    reads SlabsOf(refs)
  {
    |refs| == |texts| && forall k :: 0 <= k < |refs| ==> InBounds(refs[k]) && Text(refs[k]) == texts[k]
  }

  /** `s` lies in front of `t`, or elsewhere. */
  predicate Before(s: StringRef, t: StringRef) {
    s.Ref? && t.Ref? && s.slab == t.slab ==> s.at + s.len <= t.at
  }

  /** In bounds, and no two strings share a byte. */
  predicate Placed(refs: seq<StringRef>) {
    && (forall i :: 0 <= i < |refs| ==> InBounds(refs[i]))
    && (forall i, j :: 0 <= i < j < |refs| ==> Before(refs[i], refs[j]))
  }

  /** The strings placed in `slab` all end in front of `used`. */
  predicate Below(refs: seq<StringRef>, slab: array<byte>, used: nat) {
    forall i :: 0 <= i < |refs| ==> refs[i].Ref? && refs[i].slab == slab ==> refs[i].at + refs[i].len <= used
  }

  lemma PlaceOne(refs: seq<StringRef>, slab: array<byte>, used: nat, s: StringRef)
    requires Placed(refs) && InBounds(s) && Below(refs, slab, used)
    requires s.Ref? ==> s.slab == slab && s.at == used
    ensures Placed(refs + [s])
    ensures Below(refs + [s], slab, if s.Ref? then used + s.len else used)
  {
    var all := refs + [s];
    forall i, j | 0 <= i < j < |all| ensures Before(all[i], all[j]) {
      if j < |refs| {
        assert Before(refs[i], refs[j]);
      }
    }
  }

  // ---------- how many slabs are needed ----------

  function Sum(ns: seq<nat>): nat {
    if ns == [] then 0 else ns[0] + Sum(ns[1..])
  }

  lemma {:induction false} SumSnoc(ns: seq<nat>, n: nat)
    ensures Sum(ns + [n]) == Sum(ns) + n
  {
    if ns == [] {
    } else {
      assert (ns + [n])[1..] == ns[1..] + [n];
      SumSnoc(ns[1..], n);
    }
  }

  function Length(s: StringRef): nat {
    if s.Ref? then s.len else 0
  }

  function Lengths(refs: seq<StringRef>): seq<nat> {
    seq(|refs|, i requires 0 <= i < |refs| => Length(refs[i]))
  }

  lemma LengthsSnoc(refs: seq<StringRef>, s: StringRef)
    ensures Sum(Lengths(refs + [s])) == Sum(Lengths(refs)) + Length(s)
  {
    assert Lengths(refs + [s]) == Lengths(refs) + [Length(s)];
    SumSnoc(Lengths(refs), Length(s));
  }

  /** What is used of a slab and of its successor together exceeds one slab. */
  predicate WellFilled(uses: seq<nat>) {
    forall k :: 0 < k < |uses| ==> uses[k - 1] + uses[k] > SLAB_BYTES
  }

  lemma {:induction false} PairsFill(uses: seq<nat>)
    requires WellFilled(uses)
    ensures (|uses| / 2) * 1048577 <= Sum(uses)
    decreases |uses|
  {
    if |uses| < 2 {
    } else {
      var rest := uses[2..];
      assert uses[1..][1..] == rest;
      assert Sum(uses) == uses[0] + uses[1] + Sum(rest);
      assert uses[0] + uses[1] > SLAB_BYTES;
      forall k | 0 < k < |rest| ensures rest[k - 1] + rest[k] > SLAB_BYTES {
        assert uses[k + 1] + uses[k + 2] > SLAB_BYTES;
      }
      PairsFill(rest);
    }
  }

  /** No more than two slabs for every slab's worth of characters, and one. */
  lemma SlabCount(uses: seq<nat>)
    requires WellFilled(uses)
    ensures |uses| <= 2 * (Sum(uses) / 1048577) + 1
  {
    PairsFill(uses);
    HalfBound(|uses|, Sum(uses));
  }

  lemma HalfBound(n: nat, total: nat)
    requires (n / 2) * 1048577 <= total
    ensures n <= 2 * (total / 1048577) + 1
  {
  }

  function FilledMore(uses: seq<nat>, n: nat): seq<nat>
    requires uses != []
  {
    uses[|uses| - 1 := uses[|uses| - 1] + n]
  }

  lemma FillMore(uses: seq<nat>, n: nat)
    requires WellFilled(uses) && uses != []
    ensures WellFilled(FilledMore(uses, n))
  {
    var more := FilledMore(uses, n);
    forall k | 0 < k < |more| ensures more[k - 1] + more[k] > SLAB_BYTES {
      assert uses[k - 1] + uses[k] > SLAB_BYTES;
    }
  }

  lemma SumMore(uses: seq<nat>, n: nat)
    requires uses != []
    ensures Sum(FilledMore(uses, n)) == Sum(uses) + n
  {
    var init, last := uses[..|uses| - 1], uses[|uses| - 1];
    SumSnoc(init, last);
    SumSnoc(init, last + n);
    assert uses == init + [last] && FilledMore(uses, n) == init + [last + n];
  }

  lemma NewSlab(uses: seq<nat>, n: nat)
    requires WellFilled(uses) && (uses != [] ==> uses[|uses| - 1] + n > SLAB_BYTES)
    ensures WellFilled(uses + [n]) && Sum(uses + [n]) == Sum(uses) + n
  {
    SumSnoc(uses, n);
  }

  lemma PlaceBare(refs: seq<StringRef>, s: StringRef)
    requires Placed(refs) && !s.Ref?
    ensures Placed(refs + [s])
  {
    var all := refs + [s];
    forall i, j | 0 <= i < j < |all| ensures Before(all[i], all[j]) {
      if j < |refs| {
        assert Before(refs[i], refs[j]);
      }
    }
  }

  lemma NothingBelow(refs: seq<StringRef>, slab: array<byte>)
    requires slab !in SlabsOf(refs)
    ensures Below(refs, slab, 0)
  {
    forall i | 0 <= i < |refs| && refs[i].Ref? ensures refs[i].slab != slab {
      assert refs[i].slab in SlabsOf(refs);
    }
  }

  lemma MoreTexts(refs: seq<StringRef>, texts: seq<Option<bytes>>, s: StringRef)
    requires TextsAre(refs, texts) && InBounds(s)
    ensures TextsAre(refs + [s], texts + [Text(s)])
  {
  }

  lemma MoreSlabs(refs: seq<StringRef>, s: StringRef)
    ensures SlabsOf(refs + [s]) == SlabsOf(refs) + if s.Ref? then {s.slab} else {}
  {
    assert forall t :: t in refs + [s] <==> t in refs || t == s;
    if s.Ref? {
      assert s in refs + [s];
    }
  }

  lemma EmptySlab(uses: seq<nat>, n: nat)
    ensures Sum(uses + [0]) == Sum(uses) && FilledMore(uses + [0], n) == uses + [n]
  {
    SumSnoc(uses, 0);
  }

  lemma LastUse(uses: seq<nat>, n: nat)
    requires uses != []
    ensures |FilledMore(uses, n)| == |uses| && FilledMore(uses, n)[|uses| - 1] == uses[|uses| - 1] + n
  {
  }

  function Texts(refs: seq<StringRef>): (texts: seq<Option<bytes>>)
    requires Placed(refs)
    reads SlabsOf(refs)
    ensures TextsAre(refs, texts)
  {
    seq(|refs|, i requires 0 <= i < |refs| reads SlabsOf(refs) => Text(refs[i]))
  }

  /** The slabs of one string vector, with the slab that is being filled. */
  class SlabStore {
    var slabs: seq<array<byte>>
    var current: array?<byte>
    var used: nat
    // what was placed so far, what it says, and how much of each slab is used
    ghost var refs: seq<StringRef>
    ghost var texts: seq<Option<bytes>>
    ghost var uses: seq<nat>
    ghost var memory: set<array<byte>>

    function All(): seq<array<byte>>
      reads this
    {
      if current == null then slabs else slabs + [current]
    }

    /** Where everything is; only TextsAre looks at the characters. */
    ghost predicate Layout()
      reads this
    {
      && |uses| == |All()| && Sum(uses) == Sum(Lengths(refs))
      && Placed(refs)
      && memory == (set s | s in All()) && SlabsOf(refs) <= memory
      && (current != null ==> current !in slabs && used <= current.Length && Below(refs, current, used)
                              && uses[|slabs|] == used && current.Length >= SLAB_BYTES)
    }

    ghost predicate Core()
      reads this, SlabsOf(refs)
    {
      Layout() && TextsAre(refs, texts)
    }

    ghost predicate Valid()
      reads this, SlabsOf(refs)
    {
      && Core() && WellFilled(uses)
      && (current == null && uses != [] ==> uses[|uses| - 1] > SLAB_BYTES)
    }

    /** There is room for `n` bytes in the current slab, and it is well spent. */
    ghost predicate Reserved(n: nat)
      reads this, SlabsOf(refs)
    {
      Core() && current != null && used + n <= current.Length && WellFilled(FilledMore(uses, n))
    }

    lemma Counted()
      requires Valid()
      ensures Placed(refs) && texts == Texts(refs)
      ensures |All()| <= 2 * (Sum(Lengths(refs)) / 1048577) + 1
    {
      SlabCount(uses);
    }

    lemma Inside()
      requires Valid()
      ensures SlabsOf(refs) <= memory
    {
    }

    lemma Room(n: nat)
      requires Reserved(n)
      ensures Below(refs, current, used) && current in memory && used + n <= current.Length
      ensures SlabsOf(refs) <= memory
    {
    }

    constructor ()
      ensures Valid() && refs == [] && texts == [] && memory == {}
    {
      slabs, current, used := [], null, 0;
      refs, texts, uses, memory := [], [], [], {};
    }

    method FinishCurrent()
      requires Core()
      modifies this
      ensures Core() && current == null && slabs == old(All()) && memory == old(memory)
      ensures refs == old(refs) && texts == old(texts) && uses == old(uses)
    {
      hide Placed, Below, WellFilled, Sum, Lengths, FilledMore;
      if current != null {
        slabs := slabs + [current];
        current := null;
        used := 0;
      }
    }

    /** A new slab is begun exactly when there is none, or too little room in it. */
    method Reserve(n: nat)
      requires Valid()
      modifies this
      ensures Reserved(n)
      ensures refs == old(refs) && texts == old(texts)
      ensures fresh(memory - old(memory))
      ensures if old(current) != null && old(current.Length - used) >= n
              then current == old(current) && used == old(used) && slabs == old(slabs) && memory == old(memory)
              else fresh(current) && used == 0 && slabs == old(All()) && memory == old(memory) + {current}
                   && current.Length == if n > 1048576 then n else 1048576
    {
      hide Placed, TextsAre, Below, WellFilled, Sum, Lengths, FilledMore;
      if current == null || current.Length - used < n {
        FinishCurrent();
        NewSlab(uses, n);
        current := new byte[if n > SLAB_BYTES then n else SLAB_BYTES](_ => 0);
        used := 0;
        NothingBelow(refs, current);
        EmptySlab(uses, n);
        uses, memory := uses + [0], memory + {current};
      } else {
        FillMore(uses, n);
      }
    }

    /** Bytes into the part of the current slab that is not used yet; what was placed before is not touched. */
    method Fill(offset: nat, data: bytes, n: nat)
      requires Reserved(n) && offset + |data| <= n
      modifies current
      ensures Reserved(n)
      ensures current[..] == Overlay(old(current[..]), used + offset, data)
    {
      hide Placed, WellFilled, Sum, Lengths, FilledMore;
      ghost var was := current[..];
      CopyIn(current, used + offset, data);
      forall k | 0 <= k < |refs| ensures Text(refs[k]) == texts[k] {
        assert old(Text(refs[k])) == texts[k];
        if refs[k].Ref? && refs[k].slab == current {
          assert refs[k].at + refs[k].len <= used;
          SamePart(was, current[..], used + offset, data, refs[k].at, refs[k].len);
        }
      }
    }

    /** The reserved bytes hold a string now. */
    method Commit(n: nat) returns (s: StringRef)
      requires Reserved(n)
      modifies this
      ensures Valid() && s == Ref(old(current), old(used), n)
      ensures refs == old(refs) + [s] && texts == old(texts) + [Text(s)]
      ensures memory == old(memory)
    {
      hide Placed, TextsAre, Below, WellFilled, Sum, Lengths, FilledMore;
      s := Ref(current, used, n);
      PlaceOne(refs, current, used, s);
      MoreTexts(refs, texts, s);
      MoreSlabs(refs, s);
      LengthsSnoc(refs, s);
      SumMore(uses, n);
      LastUse(uses, n);
      refs, texts, uses := refs + [s], texts + [Text(s)], FilledMore(uses, n);
      used := used + n;
    }

    /** A string without memory of its own. */
    method AddBare(s: StringRef)
      requires Valid() && !s.Ref?
      modifies this
      ensures Valid() && refs == old(refs) + [s] && texts == old(texts) + [Text(s)]
      ensures memory == old(memory)
    {
      hide Placed, TextsAre, Below, WellFilled, Sum, Lengths, FilledMore;
      if current != null {
        PlaceOne(refs, current, used, s);
      } else {
        PlaceBare(refs, s);
      }
      MoreTexts(refs, texts, s);
      MoreSlabs(refs, s);
      LengthsSnoc(refs, s);
      refs, texts := refs + [s], texts + [Text(s)];
    }

    /** A slab for a single string that is larger than a slab. */
    method AddLarge(slab: array<byte>) returns (s: StringRef)
      requires Core() && WellFilled(uses) && current == null && slab !in slabs && slab.Length > SLAB_BYTES
      modifies this
      ensures Valid() && s == Ref(slab, 0, slab.Length)
      ensures refs == old(refs) + [s] && texts == old(texts) + [Text(s)]
      ensures memory == old(memory) + {slab}
    {
      hide Placed, TextsAre, Below, WellFilled, Sum, Lengths, FilledMore;
      s := Ref(slab, 0, slab.Length);
      NothingBelow(refs, slab);
      PlaceOne(refs, slab, 0, s);
      MoreTexts(refs, texts, s);
      MoreSlabs(refs, s);
      LengthsSnoc(refs, s);
      NewSlab(uses, slab.Length);
      slabs := slabs + [slab];
      refs, texts, uses, memory := refs + [s], texts + [Text(s)], uses + [slab.Length], memory + {slab};
    }
  }

  lemma SamePart(a: bytes, b: bytes, from: nat, data: bytes, at: nat, len: nat)
    requires from + |data| <= |a| && b == Overlay(a, from, data) && at + len <= from
    ensures b[at..at + len] == a[at..at + len]
  {
  }

  /** string_ref::view: a length that equals the NA mark reads as NA. */
  function View(s: StringRef): Option<bytes>
    requires InBounds(s)
    reads if s.Ref? then {s.slab} else {}
  {
    if s.Ref? && s.len == NA_STRING_LENGTH then None else Text(s)
  }

  /** `s`, which says `text`, is part of the record `r`, whose bytes are `t`. */
  predicate Inner(s: StringRef, text: Option<bytes>, r: StringRef, t: Option<bytes>) {
    match s
    case Na => r.Na? && text == None
    case Empty => false
    case Ref(slab, at, len) =>
      && r.Ref? && r.slab == slab && r.at <= at && at + len <= r.at + r.len
      && t.Some? && |t.value| == r.len && text == Some(t.value[at - r.at..][..len])
  }

  ghost predicate AllInner(strings: seq<StringRef>, said: seq<Option<bytes>>, refs: seq<StringRef>,
                           texts: seq<Option<bytes>>)
  {
    && |strings| == |said| == |refs| == |texts|
    && forall k :: 0 <= k < |strings| ==> Inner(strings[k], said[k], refs[k], texts[k])
  }

  /** Parts of records are placed as the records are, and say what these hold. */
  lemma InnerPlaced(strings: seq<StringRef>, said: seq<Option<bytes>>, refs: seq<StringRef>, texts: seq<Option<bytes>>)
    requires AllInner(strings, said, refs, texts) && Placed(refs) && TextsAre(refs, texts)
    ensures Placed(strings) && TextsAre(strings, said) && SlabsOf(strings) <= SlabsOf(refs)
  {
    forall k | 0 <= k < |strings| ensures InBounds(strings[k]) && Text(strings[k]) == said[k] {
      assert Inner(strings[k], said[k], refs[k], texts[k]) && Text(refs[k]) == texts[k];
      PartSays(strings[k], said[k], refs[k], texts[k]);
    }
    forall i, j | 0 <= i < j < |strings| ensures Before(strings[i], strings[j]) {
      assert Before(refs[i], refs[j]);
      assert Inner(strings[i], said[i], refs[i], texts[i]) && Inner(strings[j], said[j], refs[j], texts[j]);
    }
    forall a | a in SlabsOf(strings) ensures a in SlabsOf(refs) {
      var k :| 0 <= k < |strings| && strings[k].Ref? && strings[k].slab == a;
      assert Inner(strings[k], said[k], refs[k], texts[k]) && refs[k] in refs;
    }
  }

  lemma InnerSnoc(strings: seq<StringRef>, said: seq<Option<bytes>>, refs: seq<StringRef>, texts: seq<Option<bytes>>,
                  s: StringRef, text: Option<bytes>, r: StringRef, t: Option<bytes>)
    requires AllInner(strings, said, refs, texts) && Inner(s, text, r, t)
    ensures AllInner(strings + [s], said + [text], refs + [r], texts + [t])
  {
    hide Inner;
  }

  lemma PartSays(s: StringRef, text: Option<bytes>, r: StringRef, t: Option<bytes>)
    requires Inner(s, text, r, t) && InBounds(r) && Text(r) == t
    ensures InBounds(s) && Text(s) == text
  {
    if s.Ref? {
      assert r.slab[r.at..r.at + r.len][s.at - r.at..][..s.len] == s.slab[s.at..s.at + s.len];
    }
  }

  /** What a string takes in the slabs: its header, with the length cut to 32 bits, and its bytes. */
  function RecordSize(value: Option<bytes>): nat {
    match value
    case None => 0
    case Some(v) => |Concat(StringPods(|v| % 0x1_0000_0000))| + |v|
  }

  function RecordBytes(values: seq<Option<bytes>>): nat {
    if values == [] then 0 else RecordBytes(values[..|values| - 1]) + RecordSize(values[|values| - 1])
  }

  /** The strings whose length does not become another one, or the NA mark, when it is cut to 32 bits. */
  predicate Fits(value: Option<bytes>) {
    value.None? || |value.value| < NA_STRING_LENGTH
  }

  /** string_storage_builder: every string with its header in front, packed into slabs. */
  class StringStorageBuilder {
    const store: SlabStore
    // the strings that were returned, and what they say
    ghost var strings: seq<StringRef>
    ghost var said: seq<Option<bytes>>

    ghost predicate Valid()
      reads this, store, SlabsOf(store.refs)
    {
      store.Valid() && AllInner(strings, said, store.refs, store.texts)
    }

    constructor ()
      ensures Valid() && fresh(store) && store.memory == {} && store.refs == [] && strings == [] && said == []
    {
      store := new SlabStore();
      strings, said := [], [];
    }

    /** The strings returned so far are in bounds, share no bytes, and say what they said when they were returned. */
    lemma Kept()
      requires Valid()
      ensures Placed(strings) && TextsAre(strings, said) && SlabsOf(strings) <= store.memory
    {
      hide SlabStore.Layout, WellFilled, AllInner, Placed, TextsAre;
      store.Counted();
      store.Inside();
      InnerPlaced(strings, said, store.refs, store.texts);
    }

    /** A header and a string, one after the other. */
    method PutRecord(header: bytes, v: bytes) returns (slab: array<byte>, at: nat)
      requires store.Valid()
      modifies store, store.memory
      ensures store.Valid() && fresh(store.memory - old(store.memory))
      ensures |header| <= at && at + |v| <= slab.Length && slab in store.memory
      ensures store.refs == old(store.refs) + [Ref(slab, at - |header|, |header| + |v|)]
      ensures store.texts == old(store.texts) + [Some(header + v)]
    {
      hide SlabStore.Layout, Placed, TextsAre, WellFilled, Sum, Lengths, FilledMore, SlabStore.Valid, Overlay;
      var n := |header| + |v|;
      store.Reserve(n);
      store.Room(n);
      slab, at := store.current, store.used + |header|;
      ghost var was := slab[..];
      RecordHolds(was, store.used, header, v);
      store.Fill(0, header, n);
      store.Fill(|header|, v, n);
      var record := store.Commit(n);
      assert Text(record) == Some(header + v);
    }

    /** The length is cut to 32 bits: the string returned reads as the value exactly if the value fits. */
    method AppendString(value: Option<bytes>) returns (s: StringRef)
      requires Valid()
      modifies this, store, store.memory
      ensures Valid() && fresh(store.memory - old(store.memory))
      ensures strings == old(strings) + [s] && said[..|old(said)|] == old(said)
      ensures Placed(strings) && TextsAre(strings, said)
      ensures InBounds(s) && (View(s) == value <==> Fits(value))
      ensures Sum(Lengths(store.refs)) == old(Sum(Lengths(store.refs))) + RecordSize(value)
    {
      hide SlabStore.Layout, Placed, TextsAre, WellFilled, Sum, Lengths, FilledMore, SlabStore.Valid, StringPods,
           Concat, AllInner;
      ghost var text: Option<bytes>;
      match value {
        case None =>
          s, text := Na, None;
          LengthsSnoc(store.refs, Na);
          InnerSnoc(strings, said, store.refs, store.texts, s, text, Na, None);
          store.AddBare(Na);
        case Some(v) =>
          var length := |v| % 0x1_0000_0000;
          var header := Concat(StringPods(length));
          var slab, at := PutRecord(header, v);
          s, text := Ref(slab, at, length), Some(v[..length]);
          ghost var record := Ref(slab, at - |header|, |header| + |v|);
          LengthsSnoc(old(store.refs), record);
          RecordPart(header, v, length);
          InnerSnoc(strings, said, old(store.refs), old(store.texts), s, text, record, Some(header + v));
      }
      assert forall a: object :: a in SlabsOf(store.refs) ==> a != this;
      strings, said := strings + [s], said + [text];
      Kept();
      assert Text(s) == said[|old(said)|] by { LastText(strings, said); }
      if value.Some? {
        CutLength(value.value, |value.value| % 0x1_0000_0000);
      }
    }

    /** The slabs of all strings, the one that is being filled included. */
    method Freeze() returns (storage: seq<array<byte>>)
      requires Valid()
      modifies store
      ensures Placed(strings) && TextsAre(strings, said) && SlabsOf(strings) <= (set a | a in storage)
      ensures |storage| <= 2 * (old(Sum(Lengths(store.refs))) / 1048577) + 1
      ensures strings == old(strings)
    {
      hide WellFilled, Sum, Lengths, Placed, TextsAre, AllInner;
      Kept();
      store.Inside();
      store.Counted();
      store.FinishCurrent();
      storage := store.slabs;
    }
  }

  /** assign_strings: the records of a string vector and the slabs that hold them. */
  method AssignStrings(values: seq<Option<bytes>>) returns (records: seq<StringRef>, storage: seq<array<byte>>)
    ensures |records| == |values| && Placed(records) && SlabsOf(records) <= (set a | a in storage)
    ensures |storage| <= 2 * (RecordBytes(values) / 1048577) + 1
    ensures forall k :: 0 <= k < |values| ==> (View(records[k]) == values[k] <==> Fits(values[k]))
  {
    hide Placed, TextsAre, Sum, Lengths, StringStorageBuilder.Valid, RecordSize, Fits;
    var builder := new StringStorageBuilder();
    assert Sum(Lengths(builder.store.refs)) == 0 by { NoLengths(); }
    records := [];
    var i := 0;
    while i < |values|
      invariant i <= |values| && i == |records| == |builder.said|
      invariant builder.Valid() && builder.strings == records
      invariant fresh(builder) && fresh(builder.store) && fresh(builder.store.memory)
      invariant Sum(Lengths(builder.store.refs)) == RecordBytes(values[..i])
      invariant forall k :: 0 <= k < i ==> (Read(records[k], builder.said[k]) == values[k] <==> Fits(values[k]))
    {
      ghost var said := builder.said;
      var s := builder.AppendString(values[i]);
      records := records + [s];
      ViewsAre(records, builder.said);
      assert s == records[i];
      forall k | 0 <= k < i ensures builder.said[k] == said[k] {
        assert builder.said[k] == builder.said[..|said|][k];
      }
      assert values[..i + 1][..i] == values[..i];
      i := i + 1;
    }
    assert values[..i] == values;
    storage := builder.Freeze();
    ViewsAre(records, builder.said);
  }

  /** What a record reads as when its bytes say `text`. */
  function Read(s: StringRef, text: Option<bytes>): Option<bytes> {
    if s.Ref? && s.len == NA_STRING_LENGTH then None else text
  }

  lemma ViewsAre(refs: seq<StringRef>, texts: seq<Option<bytes>>)
    requires TextsAre(refs, texts)
    ensures |refs| == |texts|
    ensures forall k :: 0 <= k < |refs| ==> InBounds(refs[k]) && View(refs[k]) == Read(refs[k], texts[k])
  {
  }

  lemma NoLengths()
    ensures Sum(Lengths([])) == 0
  {
  }

  lemma LastText(refs: seq<StringRef>, texts: seq<Option<bytes>>)
    requires TextsAre(refs, texts) && refs != []
    ensures |refs| == |texts| && InBounds(refs[|refs| - 1]) && Text(refs[|refs| - 1]) == texts[|refs| - 1]
  {
  }

  lemma RecordPart(header: bytes, v: bytes, length: nat)
    requires length <= |v|
    ensures (header + v)[|header|..][..length] == v[..length]
  {
    assert (header + v)[|header|..] == v;
  }

  lemma RecordHolds(was: bytes, at: nat, header: bytes, v: bytes)
    requires at + |header| + |v| <= |was|
    ensures var now := Overlay(Overlay(was, at + 0, header), at + |header|, v);
      now[at..at + (|header| + |v|)] == header + v
  {
  }

  lemma CutLength(v: bytes, length: nat)
    requires length == |v| % 0x1_0000_0000
    ensures length <= |v| && (v[..length] == v <==> |v| < 0x1_0000_0000)
    ensures length == |v| <==> |v| < 0x1_0000_0000
  {
    if |v| >= 0x1_0000_0000 {
      assert |v[..length]| != |v|;
    }
  }
}
