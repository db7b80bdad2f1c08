/** The multithreaded block writer as a transition system: the calling thread, the compressor tasks, the
    sequencer and the writer node take their steps in any order. */
module MultithreadedWriter {
  import opened Bytes
  import opened BlockSpec
  import opened BlockOps
  import opened Buffers

  /** What a task compresses: a block buffer of the pool, or the caller's memory. */
  datatype Source = Own(block: nat, size: nat) | Ptr(data: bytes)

  /** How far a block has come. `z` is the buffer of its compressed form, `word` its size word. */
  datatype Stage =
    | Submitted(src: Source)
    | Popped(src: Source, z: nat)
    | Packed(src: Source, z: nat, word: nat)
    | Returned(z: nat, word: nat)
    | Writing(z: nat, word: nat, phase: nat)
    | Done

  datatype State = State(
    todo: seq<Op>,             // what the calling thread has still to do
    current: Option<nat>,      // its block; none between handing one over and getting the next
    size: nat,
    tasks: seq<Stage>,         // by block number
    blocks: seq<bytes>,        // contents of the block buffers, by identity
    zblocks: seq<bytes>,
    freeBlocks: multiset<nat>,
    freeZblocks: multiset<nat>,
    next: nat,                 // the number the sequencer releases next
    out: bytes,
    hashed: bytes,
    hist: seq<bytes>)          // what was handed over so far (nothing reads it)

  /** Whether the caller's memory may be compressed in place. */
  datatype Config = Config(codec: Codec, directMem: bool)

  datatype Step =
    | Thread                       // the next copy or hand-over
    | Acquire(pick: Option<nat>)   // a new current block, from the pool if there is one
    | CopyFull(pick: Option<nat>)  // a full block of the caller, copied into a pool block
    | PopZ(i: nat, pick: Option<nat>)
    | Compress(i: nat)
    | Release(i: nat)
    | Take                         // the writer node receives the next number from the sequencer
    | Emit                         // one of its four effects
    | Recycle

  function Init(items: seq<Item>): State
    requires ItemsOk(items)
  {
    State(ScriptOps(START, items), Some(0), 0, [], [seq(MAX_BLOCKSIZE, _ => 0)], [],
          multiset{}, multiset{}, 0, [], [], [])
  }

  // ---------- the steps ----------

  function BytesOf(src: Source, s: State): bytes {
    match src
    case Own(b, n) => if n <= |Slot(s.blocks, b)| then Slot(s.blocks, b)[..n] else []
    case Ptr(d) => d
  }

  predicate Enabled(c: Config, s: State, st: Step) {
    match st
    case Thread => s.current.Some? && s.todo != [] && (s.todo[0].Direct? ==> c.directMem)
    case Acquire(pick) => s.current.None? && PickOk(s.freeBlocks, pick)
    case CopyFull(pick) =>
      s.current.Some? && s.todo != [] && s.todo[0].Direct? && !c.directMem && PickOk(s.freeBlocks, pick)
    case PopZ(i, pick) => i < |s.tasks| && s.tasks[i].Submitted? && PickOk(s.freeZblocks, pick)
    case Compress(i) => i < |s.tasks| && s.tasks[i].Popped?
    case Release(i) => i < |s.tasks| && s.tasks[i].Packed?
    case Take => s.next < |s.tasks| && s.tasks[s.next].Returned?
    case Emit => s.next < |s.tasks| && s.tasks[s.next].Writing? && s.tasks[s.next].phase < 4
    case Recycle => s.next < |s.tasks| && s.tasks[s.next].Writing? && s.tasks[s.next].phase >= 4
  }

  function ThreadStep(s: State): State
    requires s.current.Some? && s.todo != []
  {
    match s.todo[0]
    case Append(d) =>
      s.(todo := s.todo[1..], size := s.size + |d|,
         blocks := Put(s.blocks, s.current.value, Poke(Slot(s.blocks, s.current.value), s.size, d)))
    case HandOver =>
      if s.size == 0 then s.(todo := s.todo[1..])
      else
        var src := Own(s.current.value, s.size);
        s.(todo := s.todo[1..], size := 0, current := None,
           tasks := s.tasks + [Submitted(src)], hist := s.hist + [BytesOf(src, s)])
    case Direct(d) =>
      s.(todo := s.todo[1..], tasks := s.tasks + [Submitted(Ptr(d))], hist := s.hist + [d])
  }

  /** A block buffer from the pool or fresh: its identity, and the state without it in the pool. */
  function GetBlock(s: State, pick: Option<nat>): (nat, State) {
    match pick
    case Some(b) => (b, s.(freeBlocks := s.freeBlocks - multiset{b}))
    case None => (|s.blocks|, s.(blocks := s.blocks + [seq(MAX_BLOCKSIZE, _ => 0)]))
  }

  function GetZblock(s: State, pick: Option<nat>): (nat, State) {
    match pick
    case Some(z) => (z, s.(freeZblocks := s.freeZblocks - multiset{z}))
    case None => (|s.zblocks|, s.(zblocks := s.zblocks + [seq(MAX_ZBLOCKSIZE, _ => 0)]))
  }

  function Payload(s: State, t: Stage): bytes
    requires t.Writing?
  {
    var n := CompressedSize(t.word);
    if n <= |Slot(s.zblocks, t.z)| then Slot(s.zblocks, t.z)[..n] else []
  }

  function Apply(c: Config, s: State, st: Step): State
    requires Enabled(c, s, st)
  {
    match st
    case Thread => ThreadStep(s)
    case Acquire(pick) =>
      var g := GetBlock(s, pick);
      g.1.(current := Some(g.0))
    case CopyFull(pick) =>
      var g := GetBlock(s, pick);
      var d := s.todo[0].data;
      g.1.(todo := s.todo[1..], tasks := s.tasks + [Submitted(Own(g.0, MAX_BLOCKSIZE))], hist := s.hist + [d],
           blocks := Put(g.1.blocks, g.0, Poke(Slot(g.1.blocks, g.0), 0, d)))
    case PopZ(i, pick) =>
      var g := GetZblock(s, pick);
      g.1.(tasks := s.tasks[i := Popped(s.tasks[i].src, g.0)])
    case Compress(i) =>
      var t := s.tasks[i];
      var z := c.codec.compress(BytesOf(t.src, s));
      s.(tasks := s.tasks[i := Packed(t.src, t.z, z.zsize)],
         zblocks := Put(s.zblocks, t.z, Poke(Slot(s.zblocks, t.z), 0, z.payload)))
    case Release(i) =>
      var t := s.tasks[i];
      s.(tasks := s.tasks[i := Returned(t.z, t.word)],
         freeBlocks := match t.src
           case Own(b, _) => s.freeBlocks + multiset{b}
           case Ptr(_) => s.freeBlocks)
    case Take => s.(tasks := s.tasks[s.next := Writing(s.tasks[s.next].z, s.tasks[s.next].word, 0)])
    case Emit =>
      var t := s.tasks[s.next];
      var piece := if t.phase < 2 then LE(t.word, 4) else Payload(s, t);
      var s1 := s.(tasks := s.tasks[s.next := t.(phase := t.phase + 1)]);
      if t.phase % 2 == 0 then s1.(out := s.out + piece) else s1.(hashed := s.hashed + piece)
    case Recycle =>
      s.(tasks := s.tasks[s.next := Done], freeZblocks := s.freeZblocks + multiset{s.tasks[s.next].z},
         next := s.next + 1)
  }

  // ---------- ownership ----------

  /** 1 if the task holds buffer `x` of the pool, else 0. */
  function Holds(t: Stage, p: Pool, x: nat): nat {
    match p
    case BLOCKS =>
      if (t.Submitted? || t.Popped? || t.Packed?) && t.src.Own? && t.src.block == x then 1 else 0
    case ZBLOCKS =>
      if (t.Popped? || t.Packed? || t.Returned? || t.Writing?) && t.z == x then 1 else 0
  }

  /** Owners of buffer `x`: the calling thread, the pool, tasks in flight. */
  function Owners(s: State, p: Pool, x: nat): nat {
    match p
    case BLOCKS => (if s.current == Some(x) then 1 else 0) + s.freeBlocks[x] + Holders(Holds, s.tasks, BLOCKS, x)
    case ZBLOCKS => s.freeZblocks[x] + Holders(Holds, s.tasks, ZBLOCKS, x)
  }

  function Memory(s: State, p: Pool): seq<bytes> {
    match p
    case BLOCKS => s.blocks
    case ZBLOCKS => s.zblocks
  }

  /** Every buffer has exactly one owner. */
  ghost predicate Owned(s: State) {
    forall p, x: nat {:trigger Owners(s, p, x)} :: Owners(s, p, x) == if x < |Memory(s, p)| then 1 else 0
  }

  lemma InitOwned(items: seq<Item>)
    requires ItemsOk(items)
    ensures Owned(Init(items))
  {
    hide ScriptOps;
    var s := Init(items);
    forall p, x: nat ensures Owners(s, p, x) == if x < |Memory(s, p)| then 1 else 0 {
      assert Holders(Holds, s.tasks, p, x) == 0;
    }
  }

  lemma ThreadOwned(s: State)
    requires Owned(s) && s.current.Some? && s.todo != []
    ensures Owned(ThreadStep(s))
  {
    hide Holders;
    var s' := ThreadStep(s);
    forall p, x: nat ensures Owners(s', p, x) == if x < |Memory(s', p)| then 1 else 0 {
      assert Owners(s, p, x) == if x < |Memory(s, p)| then 1 else 0;
      if |s'.tasks| > |s.tasks| {
        HoldersSnoc(Holds, s.tasks, s'.tasks[|s.tasks|], p, x);
      }
    }
  }

  lemma AcquireOwned(c: Config, s: State, pick: Option<nat>)
    requires Owned(s) && Enabled(c, s, Acquire(pick))
    ensures Owned(Apply(c, s, Acquire(pick)))
  {
    hide Holders;
    var s' := Apply(c, s, Acquire(pick));
    forall p, x: nat ensures Owners(s', p, x) == if x < |Memory(s', p)| then 1 else 0 {
      assert Owners(s, p, x) == if x < |Memory(s, p)| then 1 else 0;
    }
  }

  lemma CopyFullOwned(c: Config, s: State, pick: Option<nat>)
    requires Owned(s) && Enabled(c, s, CopyFull(pick))
    ensures Owned(Apply(c, s, CopyFull(pick)))
  {
    hide Holders, Poke;
    var s' := Apply(c, s, CopyFull(pick));
    forall p, x: nat ensures Owners(s', p, x) == if x < |Memory(s', p)| then 1 else 0 {
      assert Owners(s, p, x) == if x < |Memory(s, p)| then 1 else 0;
      HoldersSnoc(Holds, s.tasks, s'.tasks[|s.tasks|], p, x);
    }
  }

  /** A step keeps the owners when it only moves a buffer between one task and the pool. */
  lemma MovedOwned(s: State, s': State, i: nat)
    requires Owned(s) && i < |s.tasks| && i < |s'.tasks| && s'.tasks == s.tasks[i := s'.tasks[i]]
    requires s'.current == s.current
    requires forall p, x: nat {:trigger Pooled(s', p, x)} ::
      Pooled(s', p, x) + Holds(s'.tasks[i], p, x) == Pooled(s, p, x) + Holds(s.tasks[i], p, x)
        + (if x < |Memory(s', p)| then 1 else 0) - (if x < |Memory(s, p)| then 1 else 0)
    ensures Owned(s')
  {
    hide Holders, Holds;
    forall p, x: nat ensures Owners(s', p, x) == if x < |Memory(s', p)| then 1 else 0 {
      assert Owners(s, p, x) == if x < |Memory(s, p)| then 1 else 0;
      assert Pooled(s', p, x) >= 0;
      HoldersUpdate(Holds, s.tasks, i, s'.tasks[i], p, x);
    }
  }

  function Pooled(s: State, p: Pool, x: nat): nat {
    match p
    case BLOCKS => s.freeBlocks[x]
    case ZBLOCKS => s.freeZblocks[x]
  }

  lemma PopZOwned(c: Config, s: State, i: nat, pick: Option<nat>)
    requires Owned(s) && Enabled(c, s, PopZ(i, pick))
    ensures Owned(Apply(c, s, PopZ(i, pick)))
  {
    hide Holders, Owned;
    if pick.None? {
      FreshZblock(s);
    }
    MovedOwned(s, Apply(c, s, PopZ(i, pick)), i);
  }

  lemma CompressOwned(c: Config, s: State, i: nat)
    requires Owned(s) && Enabled(c, s, Compress(i))
    ensures Owned(Apply(c, s, Compress(i)))
  {
    hide Holders, Owned, Poke, BytesOf;
    MovedOwned(s, Apply(c, s, Compress(i)), i);
  }

  lemma ReleaseOwned(c: Config, s: State, i: nat)
    requires Owned(s) && Enabled(c, s, Release(i))
    ensures Owned(Apply(c, s, Release(i)))
  {
    hide Holders, Owned;
    MovedOwned(s, Apply(c, s, Release(i)), i);
  }

  lemma TakeOwned(c: Config, s: State)
    requires Owned(s) && Enabled(c, s, Take)
    ensures Owned(Apply(c, s, Take))
  {
    hide Holders, Owned;
    MovedOwned(s, Apply(c, s, Take), s.next);
  }

  lemma EmitOwned(c: Config, s: State)
    requires Owned(s) && Enabled(c, s, Emit)
    ensures Owned(Apply(c, s, Emit))
  {
    hide Holders, Owned, Payload, LE;
    MovedOwned(s, Apply(c, s, Emit), s.next);
  }

  lemma RecycleOwned(c: Config, s: State)
    requires Owned(s) && Enabled(c, s, Recycle)
    ensures Owned(Apply(c, s, Recycle))
  {
    hide Holders, Owned;
    MovedOwned(s, Apply(c, s, Recycle), s.next);
  }

  /** Whatever step is taken, every buffer still has exactly one owner afterwards. */
  lemma StepOwned(c: Config, s: State, st: Step)
    requires Owned(s) && Enabled(c, s, st)
    ensures Owned(Apply(c, s, st))
  {
    hide Owned, Enabled, Apply;
    match st
    case Thread => ThreadKeepsOwned(c, s);
    case Acquire(pick) => AcquireOwned(c, s, pick);
    case CopyFull(pick) => CopyFullOwned(c, s, pick);
    case PopZ(i, pick) => PopZOwned(c, s, i, pick);
    case Compress(i) => CompressOwned(c, s, i);
    case Release(i) => ReleaseOwned(c, s, i);
    case Take => TakeOwned(c, s);
    case Emit => EmitOwned(c, s);
    case Recycle => RecycleOwned(c, s);
  }

  lemma ThreadKeepsOwned(c: Config, s: State)
    requires Owned(s) && Enabled(c, s, Thread)
    ensures Owned(Apply(c, s, Thread))
  {
    hide Owned, ThreadStep;
    ThreadOwned(s);
  }

  lemma FreshZblock(s: State)
    requires Owned(s)
    ensures s.freeZblocks[|s.zblocks|] == 0
  {
    assert Owners(s, ZBLOCKS, |s.zblocks|) == 0;
  }

  // ---------- what the buffers hold ----------

  ghost predicate SrcOk(blocks: seq<bytes>, src: Source, h: bytes) {
    match src
    case Own(b, n) => b < |blocks| && n <= |blocks[b]| && blocks[b][..n] == h
    case Ptr(d) => d == h
  }

  ghost predicate ZOk(c: Config, zblocks: seq<bytes>, z: nat, word: nat, h: bytes) {
    && z < |zblocks| && CompressedSize(word) <= |zblocks[z]|
    && word == c.codec.compress(h).zsize
    && zblocks[z][..CompressedSize(word)] == c.codec.compress(h).payload
  }

  /** The task still has what it needs of the block `h` that was handed over. */
  ghost predicate TaskOk(c: Config, blocks: seq<bytes>, zblocks: seq<bytes>, t: Stage, h: bytes) {
    match t
    case Submitted(src) => SrcOk(blocks, src, h)
    case Popped(src, z) => SrcOk(blocks, src, h) && z < |zblocks|
    case Packed(_, z, word) => ZOk(c, zblocks, z, word, h)
    case Returned(z, word) => ZOk(c, zblocks, z, word, h)
    case Writing(z, word, _) => ZOk(c, zblocks, z, word, h)
    case Done => true
  }

  ghost predicate Contents(c: Config, s: State) {
    |s.hist| == |s.tasks| &&
    forall i :: 0 <= i < |s.tasks| ==> TaskOk(c, s.blocks, s.zblocks, s.tasks[i], s.hist[i])
  }

  predicate Shape(s: State) {
    && (forall b :: b in s.blocks ==> |b| == MAX_BLOCKSIZE)
    && (forall z :: z in s.zblocks ==> |z| == MAX_ZBLOCKSIZE)
    && (forall h :: h in s.hist ==> 1 <= |h| <= MAX_BLOCKSIZE)
    && s.size <= MAX_BLOCKSIZE && (s.current.None? ==> s.size == 0)
    && (s.current.Some? ==> s.current.value < |s.blocks|)
  }

  /** The single-threaded writer this state corresponds to. */
  function Abs(s: State): Writer {
    Writer(s.hist, if s.current.Some? then BytesOf(Own(s.current.value, s.size), s) else [])
  }

  lemma OwnedElsewhere(s: State, p: Pool, x: nat, i: nat)
    requires Owned(s) && i < |s.tasks|
    requires Owners(s, p, x) > Holders(Holds, s.tasks, p, x)
    ensures Holds(s.tasks[i], p, x) == 0
  {
    HoldersAtLeast(Holds, s.tasks, i, p, x);
  }

  lemma TaskFrame(c: Config, blocks: seq<bytes>, zblocks: seq<bytes>, t: Stage, h: bytes, x: nat, b: bytes)
    requires TaskOk(c, blocks, zblocks, t, h)
    ensures Holds(t, BLOCKS, x) == 0 ==> TaskOk(c, Put(blocks, x, b), zblocks, t, h)
    ensures Holds(t, ZBLOCKS, x) == 0 ==> TaskOk(c, blocks, Put(zblocks, x, b), t, h)
    ensures TaskOk(c, blocks + [b], zblocks, t, h) && TaskOk(c, blocks, zblocks + [b], t, h)
  {
  }

  /** Copying into a buffer that no task holds. */
  lemma ContentsFrame(c: Config, s: State, x: nat, b: bytes)
    requires Contents(c, s) && Owned(s) && Owners(s, BLOCKS, x) > Holders(Holds, s.tasks, BLOCKS, x)
    ensures Contents(c, s.(blocks := Put(s.blocks, x, b)))
  {
    hide TaskOk, Put, Owners, Owned, Holders;
    forall i | 0 <= i < |s.tasks| ensures TaskOk(c, Put(s.blocks, x, b), s.zblocks, s.tasks[i], s.hist[i]) {
      OwnedElsewhere(s, BLOCKS, x, i);
      TaskFrame(c, s.blocks, s.zblocks, s.tasks[i], s.hist[i], x, b);
    }
  }

  lemma ContentsGrow(c: Config, s: State, b: bytes)
    requires Contents(c, s)
    ensures Contents(c, s.(blocks := s.blocks + [b])) && Contents(c, s.(zblocks := s.zblocks + [b]))
  {
    hide TaskOk;
    forall i | 0 <= i < |s.tasks|
      ensures TaskOk(c, s.blocks + [b], s.zblocks, s.tasks[i], s.hist[i])
      ensures TaskOk(c, s.blocks, s.zblocks + [b], s.tasks[i], s.hist[i])
    {
      TaskFrame(c, s.blocks, s.zblocks, s.tasks[i], s.hist[i], 0, b);
    }
  }

  lemma ContentsSnoc(c: Config, s: State, t: Stage, h: bytes)
    requires Contents(c, s) && TaskOk(c, s.blocks, s.zblocks, t, h)
    ensures Contents(c, s.(tasks := s.tasks + [t], hist := s.hist + [h]))
  {
    hide TaskOk;
  }

  lemma ContentsUpdate(c: Config, s: State, i: nat, t: Stage)
    requires Contents(c, s) && i < |s.tasks| && TaskOk(c, s.blocks, s.zblocks, t, s.hist[i])
    ensures Contents(c, s.(tasks := s.tasks[i := t]))
  {
    hide TaskOk;
  }

  // ---------- the steps of the calling thread ----------

  lemma AppendStep(c: Config, s: State)
    requires Owned(s) && Contents(c, s) && Shape(s) && Enabled(c, s, Thread) && s.todo[0].Append?
    requires OpOk(Abs(s), s.todo[0])
    ensures var s' := ThreadStep(s);
      Contents(c, s') && Shape(s') && Abs(s') == ApplyOp(Abs(s), s.todo[0])
  {
    hide Holders, TaskOk;
    var s', x, d := ThreadStep(s), s.current.value, s.todo[0].data;
    var b := Poke(s.blocks[x], s.size, d);
    Poked(s.blocks[x], s.size, d);
    PutLengths(s.blocks, x, b, MAX_BLOCKSIZE);
    ContentsFrame(c, s, x, b);
  }

  lemma HandOverStep(c: Config, s: State)
    requires Owned(s) && Contents(c, s) && Shape(s) && Enabled(c, s, Thread) && s.todo[0].HandOver?
    ensures var s' := ThreadStep(s);
      Contents(c, s') && Shape(s') && Abs(s') == ApplyOp(Abs(s), s.todo[0])
  {
    hide TaskOk, Owned;
    if s.size > 0 {
      var src := Own(s.current.value, s.size);
      var h := BytesOf(src, s);
      assert TaskOk(c, s.blocks, s.zblocks, Submitted(src), h) by { Submission(c, s, src, h); }
      ContentsSnoc(c, s, Submitted(src), h);
    }
  }

  lemma Submission(c: Config, s: State, src: Source, h: bytes)
    requires SrcOk(s.blocks, src, h)
    ensures TaskOk(c, s.blocks, s.zblocks, Submitted(src), h)
  {
  }

  lemma DirectStep(c: Config, s: State)
    requires Owned(s) && Contents(c, s) && Shape(s) && Enabled(c, s, Thread) && s.todo[0].Direct?
    requires OpOk(Abs(s), s.todo[0])
    ensures var s' := ThreadStep(s);
      Contents(c, s') && Shape(s') && Abs(s') == ApplyOp(Abs(s), s.todo[0])
  {
    hide TaskOk, Owned;
    var d := s.todo[0].data;
    Submission(c, s, Ptr(d), d);
    ContentsSnoc(c, s, Submitted(Ptr(d)), d);
  }

  lemma PoolCovers(s: State, b: nat)
    requires Owned(s) && b in s.freeBlocks
    ensures b < |s.blocks| && Owners(s, BLOCKS, b) > Holders(Holds, s.tasks, BLOCKS, b)
    ensures s.current != Some(b)
  {
    assert Owners(s, BLOCKS, b) == if b < |s.blocks| then 1 else 0;
  }

  lemma PoolCoversZ(s: State, z: nat)
    requires Owned(s) && z in s.freeZblocks
    ensures z < |s.zblocks|
  {
    assert Owners(s, ZBLOCKS, z) == if z < |s.zblocks| then 1 else 0;
  }

  lemma AcquireStep(c: Config, s: State, pick: Option<nat>)
    requires Owned(s) && Contents(c, s) && Shape(s) && Enabled(c, s, Acquire(pick))
    ensures var s' := Apply(c, s, Acquire(pick));
      Contents(c, s') && Shape(s') && Abs(s') == Abs(s) && s'.todo == s.todo
  {
    hide TaskOk, Owned, Owners;
    var none: bytes := seq(MAX_BLOCKSIZE, _ => 0);
    match pick
    case Some(b) => PoolCovers(s, b);
    case None =>
      ContentsGrow(c, s, none);
      PutLengths(s.blocks, 0, none, MAX_BLOCKSIZE);
  }

  lemma CopyFullStep(c: Config, s: State, pick: Option<nat>)
    requires Owned(s) && Contents(c, s) && Shape(s) && Enabled(c, s, CopyFull(pick)) && OpOk(Abs(s), s.todo[0])
    ensures var s' := Apply(c, s, CopyFull(pick));
      Contents(c, s') && Shape(s') && Abs(s') == ApplyOp(Abs(s), s.todo[0]) && s'.todo == s.todo[1..]
  {
    hide TaskOk, Owned, Owners, Poke, Put;
    var g, d := GetBlock(s, pick), s.todo[0].data;
    var s1 := g.1;
    CopyFullMemory(c, s, pick, d);
    var b := Poke(Slot(s1.blocks, g.0), 0, d);
    var s2 := s.(blocks := Put(s1.blocks, g.0, b));
    ContentsSnoc(c, s2, Submitted(Own(g.0, MAX_BLOCKSIZE)), d);
  }

  /** The pool block that receives the copy is nobody else's. */
  lemma CopyFullMemory(c: Config, s: State, pick: Option<nat>, d: bytes)
    requires Owned(s) && Contents(c, s) && Shape(s) && PickOk(s.freeBlocks, pick) && |d| == MAX_BLOCKSIZE
    ensures var g := GetBlock(s, pick);
      var b := Poke(Slot(g.1.blocks, g.0), 0, d);
      var s2 := s.(blocks := Put(g.1.blocks, g.0, b));
      && Contents(c, s2) && Shape(s2)
      && TaskOk(c, s2.blocks, s2.zblocks, Submitted(Own(g.0, MAX_BLOCKSIZE)), d)
      && (forall x: nat :: x < |s.blocks| && s.current == Some(x) ==> s2.blocks[x] == s.blocks[x])
  {
    hide Holders, Owned;
    var g := GetBlock(s, pick);
    var was := Slot(g.1.blocks, g.0);
    match pick {
      case Some(x) => PoolCovers(s, x);
      case None =>
    }
    assert |was| == MAX_BLOCKSIZE;
    var b := Poke(was, 0, d);
    Poked(was, 0, d);
    assert b[..MAX_BLOCKSIZE] == d by { assert was[..0] + d == d; }
    match pick {
      case Some(x) =>
        ContentsFrame(c, s, x, b);
        PutLengths(s.blocks, x, b, MAX_BLOCKSIZE);
      case None =>
        ContentsGrow(c, s, b);
        PutLengths(s.blocks, 0, b, MAX_BLOCKSIZE);
        assert Put(g.1.blocks, g.0, b) == s.blocks + [b];
    }
  }

  // ---------- the steps of the tasks and of the writer node ----------

  /** Numbers below `next` are done; only number `next` can be at the writer node. */
  predicate Order(s: State) {
    && s.next <= |s.tasks|
    && (forall i :: 0 <= i < s.next ==> s.tasks[i].Done?)
    && (forall i :: s.next <= i < |s.tasks| ==> !s.tasks[i].Done? && (i > s.next ==> !s.tasks[i].Writing?))
    && (forall i :: 0 <= i < |s.tasks| ==> s.tasks[i].Writing? ==> s.tasks[i].phase <= 4)
  }

  lemma Popping(c: Config, s: State, src: Source, z: nat, h: bytes)
    requires TaskOk(c, s.blocks, s.zblocks, Submitted(src), h) && z < |s.zblocks|
    ensures TaskOk(c, s.blocks, s.zblocks, Popped(src, z), h)
  {
  }

  lemma PopZStep(c: Config, s: State, i: nat, pick: Option<nat>)
    requires Owned(s) && Contents(c, s) && Shape(s) && Order(s) && Enabled(c, s, PopZ(i, pick))
    ensures var s' := Apply(c, s, PopZ(i, pick));
      Contents(c, s') && Shape(s') && Order(s') && Abs(s') == Abs(s)
  {
    hide Owned, TaskOk;
    var src := s.tasks[i].src;
    match pick
    case Some(z) =>
      PoolCoversZ(s, z);
      Popping(c, s, src, z, s.hist[i]);
      ContentsUpdate(c, s, i, Popped(src, z));
    case None =>
      var none: bytes := seq(MAX_ZBLOCKSIZE, _ => 0);
      ContentsGrow(c, s, none);
      PutLengths(s.zblocks, 0, none, MAX_ZBLOCKSIZE);
      var s1 := s.(zblocks := s.zblocks + [none]);
      Popping(c, s1, src, |s.zblocks|, s.hist[i]);
      ContentsUpdate(c, s1, i, Popped(src, |s.zblocks|));
  }

  /** The compressor writes a buffer that no other task holds. */
  lemma CompressFrame(c: Config, s: State, i: nat, b: bytes)
    requires Owned(s) && Contents(c, s) && i < |s.tasks| && s.tasks[i].Popped?
    ensures var zs := Put(s.zblocks, s.tasks[i].z, b);
      forall j :: 0 <= j < |s.tasks| && j != i ==> TaskOk(c, s.blocks, zs, s.tasks[j], s.hist[j])
  {
    hide TaskOk, Holders, Put;
    var z := s.tasks[i].z;
    forall j | 0 <= j < |s.tasks| && j != i
      ensures TaskOk(c, s.blocks, Put(s.zblocks, z, b), s.tasks[j], s.hist[j])
    {
      assert Owners(s, ZBLOCKS, z) <= 1;
      HoldersOfTwo(Holds, s.tasks, i, j, ZBLOCKS, z);
      TaskFrame(c, s.blocks, s.zblocks, s.tasks[j], s.hist[j], z, b);
    }
  }

  lemma Compression(c: Config, zblocks: seq<bytes>, z: nat, h: bytes)
    requires Sound(c.codec) && z < |zblocks| && |zblocks[z]| == MAX_ZBLOCKSIZE && 1 <= |h| <= MAX_BLOCKSIZE
    ensures var r := c.codec.compress(h);
      var b := Poke(Slot(zblocks, z), 0, r.payload);
      |b| == MAX_ZBLOCKSIZE && ZOk(c, Put(zblocks, z, b), z, r.zsize, h)
  {
    var r := c.codec.compress(h);
    Poked(zblocks[z], 0, r.payload);
    assert zblocks[z][..0] + r.payload == r.payload;
  }

  lemma CompressStep(c: Config, s: State, i: nat)
    requires Sound(c.codec) && Owned(s) && Contents(c, s) && Shape(s) && Order(s) && Enabled(c, s, Compress(i))
    ensures var s' := Apply(c, s, Compress(i));
      Contents(c, s') && Shape(s') && Order(s') && Abs(s') == Abs(s)
  {
    hide Owned, Sound, Poke;
    var t, h := s.tasks[i], s.hist[i];
    assert BytesOf(t.src, s) == h && t.z < |s.zblocks| by { assert TaskOk(c, s.blocks, s.zblocks, t, h); }
    var r := c.codec.compress(h);
    var b := Poke(Slot(s.zblocks, t.z), 0, r.payload);
    Compression(c, s.zblocks, t.z, h);
    CompressFrame(c, s, i, b);
    PutLengths(s.zblocks, t.z, b, MAX_ZBLOCKSIZE);
  }

  lemma ReleaseStep(c: Config, s: State, i: nat)
    requires Contents(c, s) && Shape(s) && Order(s) && Enabled(c, s, Release(i))
    ensures var s' := Apply(c, s, Release(i));
      Contents(c, s') && Shape(s') && Order(s') && Abs(s') == Abs(s)
  {
    hide ZOk;
    var t := s.tasks[i];
    assert TaskOk(c, s.blocks, s.zblocks, t, s.hist[i]);
    ContentsUpdate(c, s, i, Returned(t.z, t.word));
  }

  /** The part of a frame that is through when `n` of its effects are. */
  function Part(c: Config, h: bytes, n: int): bytes {
    if n < 1 then [] else if n < 3 then LE(c.codec.compress(h).zsize, 4) else Frame(c.codec, h)
  }

  function Phase(s: State): nat {
    if s.next < |s.tasks| && s.tasks[s.next].Writing? then s.tasks[s.next].phase else 0
  }

  /** The block at the writer node. */
  function AtWriter(s: State): bytes {
    if s.next < |s.hist| then s.hist[s.next] else []
  }

  /** Written and hashed are the frames of the blocks below `next`, in order, and part of the next. */
  ghost predicate Output(c: Config, s: State) {
    && s.next <= |s.hist|
    && s.out == Stream(c.codec, s.hist[..s.next]) + Part(c, AtWriter(s), Phase(s))
    && s.hashed == Stream(c.codec, s.hist[..s.next]) + Part(c, AtWriter(s), Phase(s) - 1)
  }

  lemma Advance(c: Config, s: State, z: nat, word: nat, phase: nat, h: bytes)
    ensures TaskOk(c, s.blocks, s.zblocks, Returned(z, word), h) ==>
      TaskOk(c, s.blocks, s.zblocks, Writing(z, word, 0), h)
    ensures TaskOk(c, s.blocks, s.zblocks, Writing(z, word, phase), h) ==>
      TaskOk(c, s.blocks, s.zblocks, Writing(z, word, phase + 1), h)
    ensures TaskOk(c, s.blocks, s.zblocks, Done, h)
  {
  }

  lemma TakeStep(c: Config, s: State)
    requires Contents(c, s) && Shape(s) && Order(s) && Enabled(c, s, Take)
    ensures var s' := Apply(c, s, Take);
      Contents(c, s') && Shape(s') && Order(s') && Abs(s') == Abs(s)
  {
    hide TaskOk;
    var t := s.tasks[s.next];
    Advance(c, s, t.z, t.word, 0, s.hist[s.next]);
    ContentsUpdate(c, s, s.next, Writing(t.z, t.word, 0));
  }

  lemma EmitStep(c: Config, s: State)
    requires Contents(c, s) && Shape(s) && Order(s) && Enabled(c, s, Emit)
    ensures var s' := Apply(c, s, Emit);
      Contents(c, s') && Shape(s') && Order(s') && Abs(s') == Abs(s)
  {
    hide TaskOk, Payload, LE;
    var t := s.tasks[s.next];
    Advance(c, s, t.z, t.word, t.phase, s.hist[s.next]);
    ContentsUpdate(c, s, s.next, t.(phase := t.phase + 1));
  }

  lemma RecycleStep(c: Config, s: State)
    requires Contents(c, s) && Shape(s) && Order(s) && Enabled(c, s, Recycle)
    ensures var s' := Apply(c, s, Recycle);
      Contents(c, s') && Shape(s') && Order(s') && Abs(s') == Abs(s)
  {
    hide TaskOk;
    var t := s.tasks[s.next];
    Advance(c, s, t.z, t.word, t.phase, s.hist[s.next]);
    ContentsUpdate(c, s, s.next, Done);
  }

  lemma PartNext(c: Config, h: bytes, n: nat)
    requires n == 0 || n == 2
    ensures var z := c.codec.compress(h);
      Part(c, h, n + 1) == Part(c, h, n) + if n == 0 then LE(z.zsize, 4) else z.payload
    ensures Part(c, h, n + 2) == Part(c, h, n + 1)
  {
  }

  lemma EmitOutput(c: Config, s: State)
    requires Contents(c, s) && Order(s) && Output(c, s) && Enabled(c, s, Emit)
    ensures Output(c, Apply(c, s, Emit))
  {
    hide LE, Part, Stream;
    var t, h, done := s.tasks[s.next], AtWriter(s), Stream(c.codec, s.hist[..s.next]);
    var piece := if t.phase < 2 then LE(t.word, 4) else Payload(s, t);
    assert piece == (if t.phase < 2 then LE(c.codec.compress(h).zsize, 4) else c.codec.compress(h).payload) by {
      assert TaskOk(c, s.blocks, s.zblocks, t, h);
    }
    var n: nat := if t.phase < 2 then 0 else 2;
    PartNext(c, h, 0);
    PartNext(c, h, n);
    PartStart(c, h);
    Assoc(done, Part(c, h, n), piece);
  }

  lemma PartStart(c: Config, h: bytes)
    ensures Part(c, h, -1) == [] && Part(c, h, 0) == [] && Part(c, h, 4) == Frame(c.codec, h)
    ensures Part(c, h, 3) == Frame(c.codec, h)
  {
  }

  lemma RecycleOutput(c: Config, s: State)
    requires Contents(c, s) && Order(s) && Output(c, s) && Enabled(c, s, Recycle)
    ensures Output(c, Apply(c, s, Recycle))
  {
    hide LE, Part, Stream;
    var s', h := Apply(c, s, Recycle), s.hist[s.next];
    PartStart(c, h);
    PartStart(c, AtWriter(s'));
    StreamSnoc(c.codec, s.hist[..s.next], h);
    assert s.hist[..s.next + 1] == s.hist[..s.next] + [h];
    assert Phase(s') == 0;
    var done := Stream(c.codec, s.hist[..s.next + 1]);
    assert done + [] == done;
  }

  /** Steps that leave the writer node alone. */
  lemma OutputFrame(c: Config, s: State, s': State)
    requires Output(c, s) && s.hist <= s'.hist && s'.next == s.next && Phase(s') == Phase(s)
    requires s'.out == s.out && s'.hashed == s.hashed && |s.hist| == |s.tasks|
    ensures Output(c, s')
  {
    hide Part, Stream;
    assert s'.hist[..s.next] == s.hist[..s.next];
    if s.next == |s.hist| {
      assert Phase(s) == 0;
      PartStart(c, AtWriter(s));
      PartStart(c, AtWriter(s'));
    }
  }

  // ---------- whole runs ----------

  /** The thread's remaining steps lead the corresponding single-threaded writer to `end`. */
  ghost predicate Refines(s: State, end: Writer) {
    OpsOk(Abs(s), s.todo) && ApplyOps(Abs(s), s.todo) == end
  }

  ghost predicate Inv(c: Config, s: State, end: Writer) {
    Owned(s) && Contents(c, s) && Shape(s) && Order(s) && Output(c, s) && Refines(s, end)
  }

  lemma OrderSnoc(s: State, s': State)
    requires Order(s) && s'.next == s.next
    requires s'.tasks == s.tasks || exists src :: s'.tasks == s.tasks + [Submitted(src)]
    ensures Order(s') && Phase(s') == Phase(s)
  {
  }

  lemma ThreadInv(c: Config, s: State, end: Writer)
    requires Inv(c, s, end) && Enabled(c, s, Thread)
    ensures Inv(c, Apply(c, s, Thread), end)
  {
    hide Owned, Contents, Shape, Order, Output, Abs;
    var s' := Apply(c, s, Thread);
    ThreadOwned(s);
    match s.todo[0] {
      case Append(_) => AppendStep(c, s);
      case HandOver => HandOverStep(c, s);
      case Direct(_) => DirectStep(c, s);
    }
    ThreadOrder(s);
    OutputFrame(c, s, s') by { assert |s.hist| == |s.tasks| by { SameNumber(c, s); } }
  }

  lemma SameNumber(c: Config, s: State)
    requires Contents(c, s)
    ensures |s.hist| == |s.tasks|
  {
  }

  lemma ThreadOrder(s: State)
    requires Order(s) && s.current.Some? && s.todo != []
    ensures var s' := ThreadStep(s);
      Order(s') && Phase(s') == Phase(s) && s.hist <= s'.hist && s'.next == s.next
      && s'.out == s.out && s'.hashed == s.hashed && s'.todo == s.todo[1..]
  {
    OrderSnoc(s, ThreadStep(s));
  }

  lemma AcquireInv(c: Config, s: State, end: Writer, pick: Option<nat>)
    requires Inv(c, s, end) && Enabled(c, s, Acquire(pick))
    ensures Inv(c, Apply(c, s, Acquire(pick)), end)
  {
    hide Owned, Contents, Shape, Output, Abs;
    var s' := Apply(c, s, Acquire(pick));
    AcquireOwned(c, s, pick);
    AcquireStep(c, s, pick);
    SameNumber(c, s);
    OutputFrame(c, s, s');
  }

  lemma CopyFullInv(c: Config, s: State, end: Writer, pick: Option<nat>)
    requires Inv(c, s, end) && Enabled(c, s, CopyFull(pick))
    ensures Inv(c, Apply(c, s, CopyFull(pick)), end)
  {
    hide Owned, Contents, Shape, Order, Output, Abs, Poke, Put;
    var s' := Apply(c, s, CopyFull(pick));
    CopyFullOwned(c, s, pick);
    CopyFullStep(c, s, pick);
    SameNumber(c, s);
    OrderSnoc(s, s');
    OutputFrame(c, s, s');
  }

  lemma TaskInv(c: Config, s: State, end: Writer, st: Step)
    requires Sound(c.codec) && Inv(c, s, end) && Enabled(c, s, st) && (st.PopZ? || st.Compress? || st.Release?)
    ensures Inv(c, Apply(c, s, st), end)
  {
    hide Owned, Contents, Shape, Order, Output, Abs, Poke, Put, Sound, BytesOf;
    var s' := Apply(c, s, st);
    StepOwned(c, s, st);
    match st {
      case PopZ(i, pick) => PopZStep(c, s, i, pick);
      case Compress(i) => CompressStep(c, s, i);
      case Release(i) => ReleaseStep(c, s, i);
    }
    SameNumber(c, s);
    SamePhase(c, s, st);
    OutputFrame(c, s, s');
  }

  lemma SamePhase(c: Config, s: State, st: Step)
    requires Enabled(c, s, st) && (st.PopZ? || st.Compress? || st.Release?)
    ensures Phase(Apply(c, s, st)) == Phase(s)
  {
    hide Poke, Put, BytesOf;
  }

  lemma WriterInv(c: Config, s: State, end: Writer, st: Step)
    requires Inv(c, s, end) && Enabled(c, s, st) && (st.Take? || st.Emit? || st.Recycle?)
    ensures Inv(c, Apply(c, s, st), end)
  {
    hide Owned, Contents, Shape, Order, Output, Abs, Payload, LE;
    var s' := Apply(c, s, st);
    StepOwned(c, s, st);
    match st {
      case Take =>
        TakeStep(c, s);
        SameNumber(c, s);
        assert Phase(s') == Phase(s) == 0;
        OutputFrame(c, s, s');
      case Emit =>
        EmitStep(c, s);
        EmitOutput(c, s);
      case Recycle =>
        RecycleStep(c, s);
        RecycleOutput(c, s);
    }
  }

  /** Every step of every thread keeps the invariant. */
  lemma StepInv(c: Config, s: State, end: Writer, st: Step)
    requires Sound(c.codec) && Inv(c, s, end) && Enabled(c, s, st)
    ensures Inv(c, Apply(c, s, st), end)
  {
    hide Inv, Apply, Sound;
    match st
    case Thread => ThreadInv(c, s, end);
    case Acquire(pick) => AcquireInv(c, s, end, pick);
    case CopyFull(pick) => CopyFullInv(c, s, end, pick);
    case PopZ(_, _) => TaskInv(c, s, end, st);
    case Compress(_) => TaskInv(c, s, end, st);
    case Release(_) => TaskInv(c, s, end, st);
    case Take => WriterInv(c, s, end, st);
    case Emit => WriterInv(c, s, end, st);
    case Recycle => WriterInv(c, s, end, st);
  }

  lemma InitInv(c: Config, items: seq<Item>)
    requires ItemsOk(items)
    ensures Inv(c, Init(items), Flush(WriteAll(START, items)))
  {
    hide ScriptOps, WriteAll, Flush;
    InitOwned(items);
    ScriptOpsRight(START, items);
    assert Abs(Init(items)) == START;
  }

  /** A run: the steps taken, in the order in which they happened. */
  ghost predicate IsRun(c: Config, s: State, steps: seq<Step>, t: State)
    decreases |steps|
  {
    if steps == [] then s == t else Enabled(c, s, steps[0]) && IsRun(c, Apply(c, s, steps[0]), steps[1..], t)
  }

  lemma {:induction false} RunInv(c: Config, s: State, steps: seq<Step>, t: State, end: Writer)
    requires Sound(c.codec) && Inv(c, s, end) && IsRun(c, s, steps, t)
    ensures Inv(c, t, end)
    decreases |steps|
  {
    hide Inv, Apply, Sound;
    if steps == [] {
    } else {
      StepInv(c, s, end, steps[0]);
      RunInv(c, Apply(c, s, steps[0]), steps[1..], t, end);
    }
  }

  lemma {:induction false} OpsExtend(w: Writer, ops: seq<Op>)
    ensures w.blocks <= ApplyOps(w, ops).blocks
    decreases |ops|
  {
    if ops == [] {
    } else {
      OpsExtend(ApplyOp(w, ops[0]), ops[1..]);
    }
  }

  /** At any moment of any run: the blocks handed over so far are the single-threaded writer's, in order; the
      file holds the complete frames of those below `next` and then part of one frame, and the hash has seen
      the same bytes up to at most one piece; and every buffer has one owner. */
  lemma AtAnyMoment(c: Config, items: seq<Item>, steps: seq<Step>, t: State)
    requires Sound(c.codec) && ItemsOk(items) && IsRun(c, Init(items), steps, t)
    ensures t.hist <= Blocks(items) && t.next <= |t.hist|
    ensures t.out == Stream(c.codec, t.hist[..t.next]) + Part(c, AtWriter(t), Phase(t))
    ensures t.hashed == Stream(c.codec, t.hist[..t.next]) + Part(c, AtWriter(t), Phase(t) - 1)
    ensures Owned(t) && ApplyOps(Abs(t), t.todo) == Flush(WriteAll(START, items))
  {
    hide Stream, Part, IsRun, Init, WriteAll, Owned, Contents, Shape, Order, Flush, OpsOk, ApplyOps;
    var end := Flush(WriteAll(START, items));
    InitInv(c, items);
    RunInv(c, Init(items), steps, t, end);
    OpsExtend(Abs(t), t.todo);
  }

  /** Nothing left to do: `finish` returns from waiting. */
  predicate Finished(s: State) {
    s.todo == [] && s.current.Some? && forall i :: 0 <= i < |s.tasks| ==> s.tasks[i].Done?
  }

  /** Whatever the interleaving, the finished file and the hashed bytes are those of the single-threaded
      writer for the same calls. */
  lemma SameAsSingleThreaded(c: Config, items: seq<Item>, steps: seq<Step>, t: State)
    requires Sound(c.codec) && ItemsOk(items) && IsRun(c, Init(items), steps, t) && Finished(t)
    ensures t.out == Stream(c.codec, Blocks(items)) && t.hashed == t.out
  {
    hide Stream, Part, IsRun, Init, WriteAll, Owned, Contents, Shape;
    var end := Flush(WriteAll(START, items));
    InitInv(c, items);
    RunInv(c, Init(items), steps, t, end);
    SameNumber(c, t);
    assert t.next == |t.tasks|;
    assert t.hist[..t.next] == t.hist == Blocks(items);
    PartStart(c, []);
    var done := Stream(c.codec, t.hist);
    assert done + [] == done;
  }

  // ---------- progress ----------

  /** Some step is possible as long as not everything is finished. */
  lemma Progress(c: Config, s: State, end: Writer) returns (st: Step)
    requires Inv(c, s, end) && !Finished(s)
    ensures Enabled(c, s, st)
  {
    hide Owned, Contents, Shape, Output, Refines;
    if s.current.None? {
      st := Acquire(AnyOf(s.freeBlocks));
    } else if s.todo != [] {
      st := if s.todo[0].Direct? && !c.directMem then CopyFull(AnyOf(s.freeBlocks)) else Thread;
    } else {
      assert s.next < |s.tasks|;
      match s.tasks[s.next]
      case Submitted(_) => st := PopZ(s.next, AnyOf(s.freeZblocks));
      case Popped(_, _) => st := Compress(s.next);
      case Packed(_, _, _) => st := Release(s.next);
      case Returned(_, _) => st := Take;
      case Writing(_, _, phase) => st := if phase < 4 then Emit else Recycle;
    }
  }

  function Rank(t: Stage): nat {
    match t
    case Submitted(_) => 9
    case Popped(_, _) => 8
    case Packed(_, _, _) => 7
    case Returned(_, _) => 6
    case Writing(_, _, phase) => if phase < 5 then 5 - phase else 0
    case Done => 0
  }

  function Measure(s: State): nat {
    11 * |s.todo| + (if s.current.None? then 1 else 0) + Total(s.tasks, Rank)
  }

  lemma ThreadComes(s: State)
    requires s.current.Some? && s.todo != []
    ensures Measure(ThreadStep(s)) < Measure(s)
  {
    hide Poke, Put, BytesOf, Total;
    var s' := ThreadStep(s);
    if |s'.tasks| > |s.tasks| {
      TotalSnoc(s.tasks, s'.tasks[|s.tasks|], Rank);
    }
  }

  lemma TaskComes(s: State, s': State, i: nat)
    requires s'.todo == s.todo && s'.current == s.current && i < |s.tasks| == |s'.tasks|
    requires s'.tasks == s.tasks[i := s'.tasks[i]] && Rank(s'.tasks[i]) < Rank(s.tasks[i])
    ensures Measure(s') < Measure(s)
  {
    hide Total, Rank;
    TotalUpdate(s.tasks, i, s'.tasks[i], Rank);
  }

  lemma WorkComes(c: Config, s: State, st: Step)
    requires Enabled(c, s, st) && (st.PopZ? || st.Compress? || st.Release?)
    ensures Measure(Apply(c, s, st)) < Measure(s)
  {
    hide Poke, Put, BytesOf, Total, Measure;
    TaskComes(s, Apply(c, s, st), st.i);
  }

  lemma WriterComes(c: Config, s: State, st: Step)
    requires Order(s) && Enabled(c, s, st) && (st.Take? || st.Emit? || st.Recycle?)
    ensures Measure(Apply(c, s, st)) < Measure(s)
  {
    hide Payload, LE, Total, Measure;
    TaskComes(s, Apply(c, s, st), s.next);
  }

  lemma PoolComes(c: Config, s: State, st: Step)
    requires Enabled(c, s, st) && (st.Acquire? || st.CopyFull?)
    ensures Measure(Apply(c, s, st)) < Measure(s)
  {
    hide Poke, Put, Total, Measure;
    var s' := Apply(c, s, st);
    if st.Acquire? {
      AcquireComes(s, s');
    } else {
      CopyComes(s, s', Own(GetBlock(s, st.pick).0, MAX_BLOCKSIZE));
    }
  }

  /** Every step brings the end nearer, so no run goes on for ever. */
  lemma StepsCome(c: Config, s: State, st: Step)
    requires Order(s) && Enabled(c, s, st)
    ensures Measure(Apply(c, s, st)) < Measure(s)
  {
    hide Apply, ThreadStep, Measure, Order;
    match st
    case Thread =>
      ThreadComes(s);
      assert Apply(c, s, st) == ThreadStep(s) by { ThreadApply(c, s); }
    case Acquire(_) => PoolComes(c, s, st);
    case CopyFull(_) => PoolComes(c, s, st);
    case PopZ(_, _) => WorkComes(c, s, st);
    case Compress(_) => WorkComes(c, s, st);
    case Release(_) => WorkComes(c, s, st);
    case Take => WriterComes(c, s, st);
    case Emit => WriterComes(c, s, st);
    case Recycle => WriterComes(c, s, st);
  }

  lemma ThreadApply(c: Config, s: State)
    requires Enabled(c, s, Thread)
    ensures Apply(c, s, Thread) == ThreadStep(s)
  {
  }

  lemma AcquireComes(s: State, s': State)
    requires s'.todo == s.todo && s'.tasks == s.tasks && s.current.None? && s'.current.Some?
    ensures Measure(s') < Measure(s)
  {
  }

  lemma CopyComes(s: State, s': State, src: Source)
    requires s.todo != [] && s'.todo == s.todo[1..] && s.current == s'.current
    requires s'.tasks == s.tasks + [Submitted(src)]
    ensures Measure(s') < Measure(s)
  {
    TotalSnoc(s.tasks, Submitted(src), Rank);
  }

  /** No run is longer than the measure of where it starts. */
  lemma {:induction false} RunLength(c: Config, s: State, steps: seq<Step>, t: State, end: Writer)
    requires Sound(c.codec) && Inv(c, s, end) && IsRun(c, s, steps, t)
    ensures |steps| + Measure(t) <= Measure(s)
    decreases |steps|
  {
    hide Inv, Apply, Sound, Measure;
    if steps == [] {
    } else {
      assert Order(s) by { InvOrder(c, s, end); }
      StepsCome(c, s, steps[0]);
      StepInv(c, s, end, steps[0]);
      RunLength(c, Apply(c, s, steps[0]), steps[1..], t, end);
    }
  }

  lemma InvOrder(c: Config, s: State, end: Writer)
    requires Inv(c, s, end)
    ensures Order(s)
  {
  }
}
