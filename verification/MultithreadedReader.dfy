/** The multithreaded block reader as a transition system: the source node that reads the file, the
    decompressor tasks, the sequencer, and the consumer that polls for the next block. */
module MultithreadedReader {
  import opened Bytes
  import opened BlockSpec
  import opened ReaderSpec
  import opened Buffers

  /** A frame as it stands in the file. */
  datatype Framed = Framed(word: nat, payload: bytes)

  /** How far a frame has come. `z` is the buffer of its compressed form, `b` that of the block. */
  datatype Stage =
    | Loaded(z: nat, word: nat)
    | Popped(z: nat, word: nat, b: nat)
    | Unpacked(z: nat, b: nat, size: nat)
    | Returned(b: nat, size: nat)
    | Broken(z: nat, b: nat)
    | Gone(oldZ: Option<nat>, oldB: Option<nat>)   // it went no further; the buffers it had were freed
    | Delivered

  /** Where the consumer is in `get_new_block`, which reads the shared counters one after the other. */
  datatype Pc = Idle | Trying | SawNothing | SawEnd | Retry | RaisedEnd | RaisedFailure

  datatype State = State(
    input: bytes,                 // what the source node has not read
    held: Option<(nat, nat)>,     // buffer and size word of a frame that is read but not numbered yet
    parked: Option<nat>,          // the buffer of a frame that broke off
    sourceDone: bool,
    endOfFile: bool,
    cancelled: bool,
    toProcess: nat,
    tasks: seq<Stage>,            // by block number
    stray: Option<nat>,           // the sequencer's number 0, if that is an empty block of a failed task
    blocks: seq<bytes>,           // contents of the block buffers, by identity
    zblocks: seq<bytes>,
    freeBlocks: multiset<nat>,
    freeZblocks: multiset<nat>,
    current: nat,                 // the consumer's block
    currentSize: nat,
    processed: nat,
    pc: Pc,
    hashed: bytes,
    frames: seq<Framed>,          // what was read and what was delivered so far (nothing reads these two)
    delivered: seq<bytes>)

  datatype Step =
    | Read(pick: Option<nat>)     // the source node: one frame, or the end of the file
    | Number                      // it counts the frame and passes it on
    | PopBlock(i: nat, pick: Option<nat>)
    | Decompress(i: nat)
    | Release(i: nat)
    | Want                        // the consumer needs a block
    | TryGet
    | LookEnd
    | LookCount
    | LookCancelled

  function Init(input: bytes): State {
    State(input, None, None, false, false, false, 0, [], None, [seq(MAX_BLOCKSIZE, _ => 0)], [],
          multiset{}, multiset{}, 0, 0, 0, Idle, [], [], [])
  }

  // ---------- the steps ----------

  /** After a cancel bodies that run go on, and no new ones are started. Steps stay enabled here, so that runs
      of the model include all those of the program. */
  predicate Enabled(s: State, st: Step) {
    match st
    case Read(pick) => !s.sourceDone && s.held.None? && PickOk(s.freeZblocks, pick)
    case Number => s.held.Some?
    case PopBlock(i, pick) => i < |s.tasks| && s.tasks[i].Loaded? && PickOk(s.freeBlocks, pick)
    case Decompress(i) => i < |s.tasks| && s.tasks[i].Popped?
    case Release(i) => i < |s.tasks| && (s.tasks[i].Unpacked? || s.tasks[i].Broken?)
    case Want => s.pc.Idle?
    case TryGet => s.pc.Trying?
    case LookEnd => s.pc.SawNothing?
    case LookCount => s.pc.SawEnd?
    case LookCancelled => s.pc.Retry?
  }

  function GetZblock(s: State, pick: Option<nat>): (nat, State) {
    match pick
    case Some(z) => (z, s.(freeZblocks := s.freeZblocks - multiset{z}))
    case None => (|s.zblocks|, s.(zblocks := s.zblocks + [seq(MAX_ZBLOCKSIZE, _ => 0)]))
  }

  /** The first frame of the input, or what is wrong with it. */
  function FirstFrame(input: bytes): (r: Result<Framed>)
    ensures r.Ok? ==> 4 + |r.value.payload| <= |input|
    ensures r.Ok? ==> |r.value.payload| == CompressedSize(r.value.word) <= MAX_ZBLOCKSIZE
  {
    if |input| < 4 then Err(UnexpectedEndOfFile)
    else
      var word := FromLE(input[..4]);
      var n := CompressedSize(word);
      if n > MAX_ZBLOCKSIZE then Err(BlockTooLarge)
      else if |input| - 4 < n then Err(TruncatedBlock)
      else Ok(Framed(word, input[4..4 + n]))
  }

  /** A whole frame: stored in a pool buffer and hashed. */
  function FrameStep(s: State, pick: Option<nat>, f: Framed): State {
    var g, n := GetZblock(s, pick), 4 + |f.payload|;
    if n > |s.input| then s
    else
      g.1.(input := s.input[n..], held := Some((g.0, f.word)),
           zblocks := Put(g.1.zblocks, g.0, Poke(Slot(g.1.zblocks, g.0), 0, f.payload)),
           hashed := s.hashed + s.input[..n], frames := s.frames + [f])
  }

  /** A frame that breaks off: its buffer stays with the source node. */
  function BreakStep(s: State, pick: Option<nat>): State {
    var g := GetZblock(s, pick);
    g.1.(endOfFile := true, sourceDone := true, parked := Some(g.0))
  }

  /** read_next_zblock up to the counter. */
  function ReadStep(s: State, pick: Option<nat>): State {
    match FirstFrame(s.input)
    case Ok(f) => FrameStep(s, pick, f)
    case Err(UnexpectedEndOfFile) => s.(endOfFile := true, sourceDone := true)
    case Err(BlockTooLarge) => s.(cancelled := true, sourceDone := true)
    case Err(_) => BreakStep(s, pick)
  }

  function Front(mem: seq<bytes>, x: nat, n: nat): bytes {
    if n <= |Slot(mem, x)| then Slot(mem, x)[..n] else []
  }

  /** The sequencer has the next number. */
  predicate Ready(s: State) {
    s.stray.Some? || (s.processed < |s.tasks| && s.tasks[s.processed].Returned?)
  }

  /** The sequencer has block `i` already, or has handed it over: it takes no second one of that number. */
  predicate Taken(s: State, i: nat) {
    i < s.processed || (i < |s.tasks| && s.tasks[i].Returned?) || (i == 0 && s.stray.Some?)
  }

  /** A task passes its block on. */
  function ReturnStep(s: State, i: nat): State
    requires i < |s.tasks| && s.tasks[i].Unpacked?
  {
    var t := s.tasks[i];
    s.(freeZblocks := s.freeZblocks + multiset{t.z},
       tasks := s.tasks[i := if Taken(s, i) then Gone(None, Some(t.b)) else Returned(t.b, t.size)])
  }

  /** A failed task returns a block of size and number 0. */
  function FailStep(s: State, i: nat): State
    requires i < |s.tasks| && s.tasks[i].Broken?
  {
    var t := s.tasks[i];
    if Taken(s, 0) then s.(tasks := s.tasks[i := Gone(Some(t.z), Some(t.b))])
    else s.(tasks := s.tasks[i := Gone(Some(t.z), None)], stray := Some(t.b))
  }

  /** The consumer gives its block back and takes the next. */
  function DeliverStep(s: State): State
    requires Ready(s)
  {
    var s1 := s.(freeBlocks := s.freeBlocks + multiset{s.current}, processed := s.processed + 1, pc := Idle);
    match s.stray
    case Some(b) => s1.(stray := None, current := b, currentSize := 0, delivered := s.delivered + [[]])
    case None =>
      var t := s.tasks[s.processed];
      s1.(current := t.b, currentSize := t.size, tasks := s.tasks[s.processed := Delivered],
          delivered := s.delivered + [Front(s.blocks, t.b, t.size)])
  }

  function Apply(c: Codec, s: State, st: Step): State
    requires Enabled(s, st)
  {
    match st
    case Read(pick) => ReadStep(s, pick)
    case Number =>
      s.(held := None, toProcess := s.toProcess + 1, tasks := s.tasks + [Loaded(s.held.value.0, s.held.value.1)])
    case PopBlock(i, pick) =>
      var t := s.tasks[i];
      (match pick
       case Some(b) =>
         s.(freeBlocks := s.freeBlocks - multiset{b}, tasks := s.tasks[i := Popped(t.z, t.word, b)])
       case None =>
         s.(blocks := s.blocks + [seq(MAX_BLOCKSIZE, _ => 0)],
            tasks := s.tasks[i := Popped(t.z, t.word, |s.blocks|)]))
    case Decompress(i) =>
      var t := s.tasks[i];
      (match c.decompress(t.word, Front(s.zblocks, t.z, CompressedSize(t.word)))
       case None => s.(cancelled := true, tasks := s.tasks[i := Broken(t.z, t.b)])
       case Some(block) =>
         s.(tasks := s.tasks[i := Unpacked(t.z, t.b, |block|)],
            blocks := Put(s.blocks, t.b, Poke(Slot(s.blocks, t.b), 0, block))))
    case Release(i) => if s.tasks[i].Unpacked? then ReturnStep(s, i) else FailStep(s, i)
    case Want => s.(pc := Trying)
    case TryGet =>
      if Ready(s) then DeliverStep(s) else s.(pc := SawNothing)
    case LookEnd => s.(pc := if s.endOfFile then SawEnd else Retry)
    case LookCount => s.(pc := if s.processed >= s.toProcess then RaisedEnd else Retry)
    case LookCancelled => s.(pc := if s.cancelled then RaisedFailure else Trying)
  }

  // ---------- ownership ----------

  /** 1 if the task holds buffer `x` of the pool, else 0. */
  function Holds(t: Stage, p: Pool, x: nat): nat {
    match p
    case BLOCKS =>
      if t.Gone? then if t.oldB == Some(x) then 1 else 0
      else if (t.Popped? || t.Unpacked? || t.Returned? || t.Broken?) && t.b == x then 1 else 0
    case ZBLOCKS =>
      if t.Gone? then if t.oldZ == Some(x) then 1 else 0
      else if (t.Loaded? || t.Popped? || t.Unpacked? || t.Broken?) && t.z == x then 1 else 0
  }

  /** The owners of buffer `x` outside the tasks: the consumer, the source node, the sequencer, the pool. */
  function Outside(s: State, p: Pool, x: nat): nat {
    match p
    case BLOCKS => (if s.current == x then 1 else 0) + (if s.stray == Some(x) then 1 else 0) + s.freeBlocks[x]
    case ZBLOCKS =>
      (if s.held.Some? && s.held.value.0 == x then 1 else 0) + (if s.parked == Some(x) then 1 else 0) + s.freeZblocks[x]
  }

  function Owners(s: State, p: Pool, x: nat): nat {
    Outside(s, p, x) + Holders(Holds, s.tasks, p, x)
  }

  function Memory(s: State, p: Pool): seq<bytes> {
    match p
    case BLOCKS => s.blocks
    case ZBLOCKS => s.zblocks
  }

  function Exists(s: State, p: Pool, x: nat): nat {
    if x < |Memory(s, p)| then 1 else 0
  }

  /** Every buffer has exactly one owner; a freed one is kept by the task that dropped it. */
  ghost predicate Owned(s: State) {
    forall p, x: nat {:trigger Owners(s, p, x)} :: Owners(s, p, x) == Exists(s, p, x)
  }

  /** A step keeps the owners when what changes hands outside the tasks matches what task `i` gives or takes. */
  lemma MovedOwned(s: State, s': State, i: nat)
    requires Owned(s) && i < |s.tasks| && i < |s'.tasks| && s'.tasks == s.tasks[i := s'.tasks[i]]
    requires forall p, x: nat {:trigger Outside(s', p, x)} ::
      Outside(s', p, x) + Holds(s'.tasks[i], p, x) + Exists(s, p, x)
      == Outside(s, p, x) + Holds(s.tasks[i], p, x) + Exists(s', p, x)
    ensures Owned(s')
  {
    hide Holders, Holds, Outside, Exists;
    forall p, x: nat ensures Owners(s', p, x) == Exists(s', p, x) {
      assert Owners(s, p, x) == Exists(s, p, x);
      assert Outside(s', p, x) >= 0;
      HoldersUpdate(Holds, s.tasks, i, s'.tasks[i], p, x);
    }
  }

  /** Only a task's stage changes, and not what it holds. */
  lemma StageOwned(s: State, s': State, i: nat)
    requires Owned(s) && i < |s.tasks| && i < |s'.tasks| && s'.tasks == s.tasks[i := s'.tasks[i]]
    requires |s'.blocks| == |s.blocks| && |s'.zblocks| == |s.zblocks|
    requires s'.freeBlocks == s.freeBlocks && s'.freeZblocks == s.freeZblocks
    requires s'.held == s.held && s'.parked == s.parked && s'.current == s.current && s'.stray == s.stray
    requires forall p, x: nat :: Holds(s'.tasks[i], p, x) == Holds(s.tasks[i], p, x)
    ensures Owned(s')
  {
    hide Holds, Holders, Owned;
    MovedOwned(s, s', i);
  }

  lemma StillOwned(s: State, s': State)
    requires Owned(s) && s'.tasks == s.tasks
    requires forall p, x: nat {:trigger Outside(s', p, x)} ::
      Outside(s', p, x) + Exists(s, p, x) == Outside(s, p, x) + Exists(s', p, x)
    ensures Owned(s')
  {
    hide Holders, Outside, Exists;
    forall p, x: nat ensures Owners(s', p, x) == Exists(s', p, x) {
      assert Owners(s, p, x) == Exists(s, p, x);
      assert Outside(s', p, x) >= 0;
    }
  }

  lemma NotOwnedYet(s: State)
    requires Owned(s)
    ensures Outside(s, BLOCKS, |s.blocks|) == 0 && Outside(s, ZBLOCKS, |s.zblocks|) == 0
  {
    hide Holders, Outside;
    assert Owners(s, BLOCKS, |s.blocks|) == 0;
    assert Owners(s, ZBLOCKS, |s.zblocks|) == 0;
  }

  lemma InitOwned(input: bytes)
    ensures Owned(Init(input))
  {
    var s := Init(input);
    forall p, x: nat ensures Owners(s, p, x) == Exists(s, p, x) {
      assert Holders(Holds, s.tasks, p, x) == 0;
    }
  }

  function Takes(p: Pool, x: nat, z: nat): nat {
    if p == ZBLOCKS && x == z then 1 else 0
  }

  lemma Got(s: State, pick: Option<nat>)
    requires Owned(s) && PickOk(s.freeZblocks, pick)
    ensures var g := GetZblock(s, pick);
      && g.1 == s.(freeZblocks := g.1.freeZblocks, zblocks := g.1.zblocks)
      && forall p, x: nat {:trigger Outside(g.1, p, x)} ::
        Outside(g.1, p, x) + Takes(p, x, g.0) + Exists(s, p, x) == Outside(s, p, x) + Exists(g.1, p, x)
  {
    hide Holders, Owned;
    NotOwnedYet(s);
  }

  /** The source node has the buffer now, whole frame or not. */
  lemma TakenOver(s: State, s': State, z: nat)
    requires |s'.zblocks| == |s.zblocks| && s'.blocks == s.blocks
    requires s'.freeBlocks == s.freeBlocks && s'.freeZblocks == s.freeZblocks
    requires s'.current == s.current && s'.stray == s.stray
    requires (s.held.None? && s'.held.Some? && s'.held.value.0 == z && s'.parked == s.parked)
          || (s.parked.None? && s'.parked == Some(z) && s'.held == s.held)
    ensures forall p, x: nat {:trigger Outside(s', p, x)} ::
      Outside(s', p, x) == Outside(s, p, x) + Takes(p, x, z) && Exists(s', p, x) == Exists(s, p, x)
  {
    forall p, x: nat
      ensures Outside(s', p, x) == Outside(s, p, x) + Takes(p, x, z) && Exists(s', p, x) == Exists(s, p, x)
    {
      match p
      case BLOCKS =>
      case ZBLOCKS =>
    }
  }

  lemma FrameOwned(s: State, pick: Option<nat>, f: Framed)
    requires Owned(s) && s.held.None? && PickOk(s.freeZblocks, pick)
    ensures Owned(FrameStep(s, pick, f))
  {
    hide Holders, Owned, Poke, GetZblock;
    var g, s' := GetZblock(s, pick), FrameStep(s, pick, f);
    Got(s, pick);
    if s' != s {
      TakenOver(g.1, s', g.0);
      StillOwned(s, s');
    }
  }

  lemma BreakOwned(s: State, pick: Option<nat>)
    requires Owned(s) && s.parked.None? && PickOk(s.freeZblocks, pick)
    ensures Owned(BreakStep(s, pick))
  {
    hide Holders, Owned, GetZblock;
    var g, s' := GetZblock(s, pick), BreakStep(s, pick);
    Got(s, pick);
    TakenOver(g.1, s', g.0);
    StillOwned(s, s');
  }

  lemma FlagsOwned(s: State, s': State)
    requires Owned(s) && s'.tasks == s.tasks && s'.blocks == s.blocks && s'.zblocks == s.zblocks
    requires s'.freeBlocks == s.freeBlocks && s'.freeZblocks == s.freeZblocks
    requires s'.held == s.held && s'.parked == s.parked && s'.current == s.current && s'.stray == s.stray
    ensures Owned(s')
  {
    hide Holders, Owned;
    StillOwned(s, s');
  }

  lemma ReadOwned(s: State, pick: Option<nat>)
    requires Owned(s) && Enabled(s, Read(pick)) && s.parked.None?
    ensures Owned(ReadStep(s, pick))
  {
    hide Owned, FirstFrame, FrameStep, BreakStep;
    var first := FirstFrame(s.input);
    if first.Ok? {
      FrameOwned(s, pick, first.value);
    } else if first.error.UnexpectedEndOfFile? || first.error.BlockTooLarge? {
      FlagsOwned(s, ReadStep(s, pick));
    } else {
      BreakOwned(s, pick);
    }
  }

  lemma NumberOwned(c: Codec, s: State)
    requires Owned(s) && Enabled(s, Number)
    ensures Owned(Apply(c, s, Number))
  {
    hide Holders;
    var s' := Apply(c, s, Number);
    forall p, x: nat ensures Owners(s', p, x) == Exists(s', p, x) {
      assert Owners(s, p, x) == Exists(s, p, x);
      HoldersSnoc(Holds, s.tasks, s'.tasks[|s.tasks|], p, x);
    }
  }

  lemma PopBlockOwned(c: Codec, s: State, i: nat, pick: Option<nat>)
    requires Owned(s) && Enabled(s, PopBlock(i, pick))
    ensures Owned(Apply(c, s, PopBlock(i, pick)))
  {
    hide Holders, Owned;
    NotOwnedYet(s);
    MovedOwned(s, Apply(c, s, PopBlock(i, pick)), i);
  }

  lemma DecompressOwned(c: Codec, s: State, i: nat)
    requires Owned(s) && Enabled(s, Decompress(i))
    ensures Owned(Apply(c, s, Decompress(i)))
  {
    hide Holders, Owned, Poke, Front;
    StageOwned(s, Apply(c, s, Decompress(i)), i);
  }

  lemma ReturnOwned(s: State, i: nat)
    requires Owned(s) && i < |s.tasks| && s.tasks[i].Unpacked?
    ensures Owned(ReturnStep(s, i))
  {
    hide Holders, Owned, Taken;
    MovedOwned(s, ReturnStep(s, i), i);
  }

  lemma FailOwned(s: State, i: nat)
    requires Owned(s) && i < |s.tasks| && s.tasks[i].Broken?
    ensures Owned(FailStep(s, i))
  {
    hide Holders, Owned;
    if Taken(s, 0) {
      StageOwned(s, FailStep(s, i), i);
    } else {
      MovedOwned(s, FailStep(s, i), i);
    }
  }

  lemma ReleaseOwned(c: Codec, s: State, i: nat)
    requires Owned(s) && Enabled(s, Release(i))
    ensures Owned(Apply(c, s, Release(i)))
  {
    hide Owned, ReturnStep, FailStep;
    if s.tasks[i].Unpacked? {
      ReturnOwned(s, i);
    } else {
      FailOwned(s, i);
    }
  }

  lemma DeliverOwned(s: State)
    requires Owned(s) && Ready(s)
    ensures Owned(DeliverStep(s))
  {
    hide Holders, Owned, Front;
    if s.stray.Some? {
      StillOwned(s, DeliverStep(s));
    } else {
      MovedOwned(s, DeliverStep(s), s.processed);
    }
  }

  lemma TryGetOwned(c: Codec, s: State)
    requires Owned(s) && Enabled(s, TryGet)
    ensures Owned(Apply(c, s, TryGet))
  {
    hide Owned, DeliverStep;
    if Ready(s) {
      DeliverOwned(s);
    } else {
      FlagsOwned(s, Apply(c, s, TryGet));
    }
  }

  /** Whatever step is taken, every buffer still has exactly one owner afterwards. */
  lemma StepOwned(c: Codec, s: State, st: Step)
    requires Owned(s) && Enabled(s, st) && (s.parked.Some? ==> s.sourceDone)
    ensures Owned(Apply(c, s, st))
  {
    hide Owned, ReadStep;
    match st
    case Read(pick) => ReadOwned(s, pick);
    case Number => NumberOwned(c, s);
    case PopBlock(i, pick) => PopBlockOwned(c, s, i, pick);
    case Decompress(i) => DecompressOwned(c, s, i);
    case Release(i) => ReleaseOwned(c, s, i);
    case TryGet => TryGetOwned(c, s);
    case _ => FlagsOwned(s, Apply(c, s, st));
  }

  // ---------- what the buffers hold ----------

  ghost predicate ZOk(zblocks: seq<bytes>, z: nat, word: nat, f: Framed) {
    && z < |zblocks| && word == f.word && CompressedSize(word) <= |zblocks[z]|
    && zblocks[z][..CompressedSize(word)] == f.payload
  }

  ghost predicate BOk(c: Codec, blocks: seq<bytes>, b: nat, size: nat, f: Framed) {
    && b < |blocks| && size <= |blocks[b]|
    && c.decompress(f.word, f.payload) == Some(blocks[b][..size])
  }

  ghost predicate TaskOk(c: Codec, blocks: seq<bytes>, zblocks: seq<bytes>, t: Stage, f: Framed) {
    match t
    case Loaded(z, word) => ZOk(zblocks, z, word, f)
    case Popped(z, word, b) => ZOk(zblocks, z, word, f) && b < |blocks|
    case Unpacked(_, b, size) => BOk(c, blocks, b, size, f)
    case Returned(b, size) => BOk(c, blocks, b, size, f)
    case Broken(_, _) => c.decompress(f.word, f.payload) == None
    case Gone(_, _) => true
    case Delivered => true
  }

  ghost predicate Contents(c: Codec, s: State) {
    && |s.frames| == |s.tasks| + (if s.held.Some? then 1 else 0)
    && (forall i :: 0 <= i < |s.tasks| ==> TaskOk(c, s.blocks, s.zblocks, s.tasks[i], s.frames[i]))
    && (s.held.Some? ==> ZOk(s.zblocks, s.held.value.0, s.held.value.1, s.frames[|s.tasks|]))
  }

  ghost predicate Shape(s: State) {
    && (forall b :: b in s.blocks ==> |b| == MAX_BLOCKSIZE)
    && (forall z :: z in s.zblocks ==> |z| == MAX_ZBLOCKSIZE)
  }

  lemma TaskFrame(c: Codec, blocks: seq<bytes>, zblocks: seq<bytes>, t: Stage, f: Framed, x: nat, b: bytes)
    requires TaskOk(c, blocks, zblocks, t, f)
    ensures Holds(t, BLOCKS, x) == 0 ==> TaskOk(c, Put(blocks, x, b), zblocks, t, f)
    ensures Holds(t, ZBLOCKS, x) == 0 ==> TaskOk(c, blocks, Put(zblocks, x, b), t, f)
    ensures TaskOk(c, blocks + [b], zblocks, t, f) && TaskOk(c, blocks, zblocks + [b], t, f)
  {
  }

  lemma HeldFrame(zblocks: seq<bytes>, z: nat, word: nat, f: Framed, b: bytes)
    requires ZOk(zblocks, z, word, f)
    ensures ZOk(zblocks + [b], z, word, f)
  {
  }

  lemma ContentsGrow(c: Codec, s: State, b: bytes)
    requires Contents(c, s)
    ensures Contents(c, s.(blocks := s.blocks + [b])) && Contents(c, s.(zblocks := s.zblocks + [b]))
  {
    hide TaskOk, ZOk;
    forall i | 0 <= i < |s.tasks|
      ensures TaskOk(c, s.blocks + [b], s.zblocks, s.tasks[i], s.frames[i])
      ensures TaskOk(c, s.blocks, s.zblocks + [b], s.tasks[i], s.frames[i])
    {
      TaskFrame(c, s.blocks, s.zblocks, s.tasks[i], s.frames[i], 0, b);
    }
    if s.held.Some? {
      HeldFrame(s.zblocks, s.held.value.0, s.held.value.1, s.frames[|s.tasks|], b);
    }
  }

  /** Filling a compressed buffer that only the source node has. */
  lemma ContentsFrame(c: Codec, s: State, x: nat, b: bytes)
    requires Contents(c, s) && Owned(s) && s.held.None? && Outside(s, ZBLOCKS, x) > 0
    ensures Contents(c, s.(zblocks := Put(s.zblocks, x, b)))
  {
    hide TaskOk, Put, Holders, Outside;
    assert Owners(s, ZBLOCKS, x) <= 1;
    forall i | 0 <= i < |s.tasks| ensures TaskOk(c, s.blocks, Put(s.zblocks, x, b), s.tasks[i], s.frames[i]) {
      HoldersAtLeast(Holds, s.tasks, i, ZBLOCKS, x);
      TaskFrame(c, s.blocks, s.zblocks, s.tasks[i], s.frames[i], x, b);
    }
  }

  lemma ContentsUpdate(c: Codec, s: State, i: nat, t: Stage)
    requires Contents(c, s) && i < |s.tasks| && TaskOk(c, s.blocks, s.zblocks, t, s.frames[i])
    ensures Contents(c, s.(tasks := s.tasks[i := t]))
  {
    hide TaskOk, ZOk;
  }

  /** A frame is stored where nobody else looks. */
  lemma Storing(c: Codec, s: State, pick: Option<nat>, f: Framed)
    requires Owned(s) && Contents(c, s) && Shape(s) && s.held.None? && PickOk(s.freeZblocks, pick)
    requires |f.payload| == CompressedSize(f.word) <= MAX_ZBLOCKSIZE
    ensures var g := GetZblock(s, pick);
      var zs := Put(g.1.zblocks, g.0, Poke(Slot(g.1.zblocks, g.0), 0, f.payload));
      && Contents(c, s.(zblocks := zs)) && Shape(s.(zblocks := zs)) && ZOk(zs, g.0, f.word, f)
  {
    hide Holders, Owned, TaskOk;
    var g := GetZblock(s, pick);
    var was := Slot(g.1.zblocks, g.0);
    match pick {
      case Some(z) => assert z < |s.zblocks| by { PoolCovers(s, z); }
      case None =>
    }
    assert |was| == MAX_ZBLOCKSIZE;
    var b := Poke(was, 0, f.payload);
    Poked(was, 0, f.payload);
    assert was[..0] + f.payload == f.payload;
    match pick {
      case Some(z) =>
        PoolCovers(s, z);
        ContentsFrame(c, s, z, b);
        PutLengths(s.zblocks, z, b, MAX_ZBLOCKSIZE);
      case None =>
        ContentsGrow(c, s, b);
        PutLengths(s.zblocks, 0, b, MAX_ZBLOCKSIZE);
        assert Put(g.1.zblocks, g.0, b) == s.zblocks + [b];
    }
  }

  lemma PoolCovers(s: State, z: nat)
    requires Owned(s) && z in s.freeZblocks
    ensures z < |s.zblocks| && Outside(s, ZBLOCKS, z) > 0
  {
    assert Owners(s, ZBLOCKS, z) == Exists(s, ZBLOCKS, z);
  }

  lemma PoolCoversB(s: State, b: nat)
    requires Owned(s) && b in s.freeBlocks
    ensures b < |s.blocks|
  {
    assert Owners(s, BLOCKS, b) == Exists(s, BLOCKS, b);
  }

  // ---------- the frames of a file ----------

  /** `frames` are the first frames of `input`, and `rest` comes behind them. */
  ghost predicate Parses(input: bytes, frames: seq<Framed>, rest: bytes)
    decreases |frames|
  {
    if frames == [] then input == rest
    else
      && FirstFrame(input) == Ok(frames[0])
      && Parses(input[4 + |frames[0].payload|..], frames[1..], rest)
  }

  lemma {:induction false} ParsesSnoc(input: bytes, frames: seq<Framed>, rest: bytes, f: Framed)
    requires Parses(input, frames, rest) && FirstFrame(rest) == Ok(f)
    ensures Parses(input, frames + [f], rest[4 + |f.payload|..])
    decreases |frames|
  {
    hide FirstFrame;
    if frames == [] {
      assert [f][1..] == [];
      assert Parses(rest[4 + |f.payload|..], [], rest[4 + |f.payload|..]);
    } else {
      assert (frames + [f])[1..] == frames[1..] + [f];
      ParsesSnoc(input[4 + |frames[0].payload|..], frames[1..], rest, f);
    }
  }

  /** What the k-th call for a block gives the single-threaded reader. */
  function BlockAt(c: Codec, input: bytes, k: nat): Result<Block>
    decreases k
  {
    var nb :- NextBlock(c, input);
    if k == 0 then Ok(nb.0) else BlockAt(c, nb.1, k - 1)
  }

  lemma NextBlockOfFrame(c: Codec, input: bytes)
    ensures NextBlock(c, input) ==
      match FirstFrame(input)
      case Err(e) => Err(e)
      case Ok(f) =>
        match c.decompress(f.word, f.payload)
        case None => Err(DecompressionError)
        case Some(b) => Ok((b, input[4 + |f.payload|..]))
  {
  }

  /** Frame `k` decompressed is what the single-threaded reader gets as its k-th block. */
  lemma {:induction false} BlockOfFrame(c: Codec, input: bytes, frames: seq<Framed>, rest: bytes, blocks: seq<bytes>,
                                        k: nat)
    requires Parses(input, frames, rest) && |blocks| <= |frames|
    requires forall i :: 0 <= i < |blocks| ==> c.decompress(frames[i].word, frames[i].payload) == Some(blocks[i])
    ensures k < |blocks| ==> BlockAt(c, input, k) == Ok(blocks[k])
    ensures k == |blocks| == |frames| && FirstFrame(rest).Err? ==> BlockAt(c, input, k) == Err(FirstFrame(rest).error)
    decreases k
  {
    hide FirstFrame, NextBlock;
    NextBlockOfFrame(c, input);
    if frames == [] {
    } else if k > 0 && blocks != [] {
      BlockOfFrame(c, input[4 + |frames[0].payload|..], frames[1..], rest, blocks[1..], k - 1);
    }
  }

  predicate Decodes(c: Codec, f: Framed) {
    c.decompress(f.word, f.payload).Some?
  }

  ghost predicate SomeFails(c: Codec, frames: seq<Framed>) {
    exists i :: 0 <= i < |frames| && !Decodes(c, frames[i])
  }

  /** Every whole frame before the first that breaks off or is too large can be decompressed. */
  predicate AllDecode(c: Codec, input: bytes)
    decreases |input|
  {
    match FirstFrame(input)
    case Err(_) => true
    case Ok(f) => Decodes(c, f) && AllDecode(c, input[4 + |f.payload|..])
  }

  /** What comes behind the whole frames. */
  function Ending(input: bytes): Error
    decreases |input|
  {
    match FirstFrame(input)
    case Err(e) => e
    case Ok(f) => Ending(input[4 + |f.payload|..])
  }

  /** Nothing in the file makes the pipeline cancel its work. */
  predicate Readable(c: Codec, input: bytes) {
    AllDecode(c, input) && Ending(input) != BlockTooLarge
  }

  /** The blocks of a file, up to the first frame that cannot be read. */
  function AllBlocks(c: Codec, input: bytes): seq<bytes>
    decreases |input|
  {
    match FirstFrame(input)
    case Err(_) => []
    case Ok(f) =>
      match c.decompress(f.word, f.payload)
      case None => []
      case Some(b) => [b] + AllBlocks(c, input[4 + |f.payload|..])
  }

  /** What holds of a file and of what was parsed of it. */
  lemma {:induction false} ParsedPart(c: Codec, input: bytes, frames: seq<Framed>, rest: bytes)
    requires Parses(input, frames, rest)
    ensures AllDecode(c, input) <==> !SomeFails(c, frames) && AllDecode(c, rest)
    ensures Ending(input) == Ending(rest)
    ensures !SomeFails(c, frames) ==>
      var bs := AllBlocks(c, input);
      && |frames| <= |bs| && bs[|frames|..] == AllBlocks(c, rest)
      && forall i :: 0 <= i < |frames| ==> c.decompress(frames[i].word, frames[i].payload) == Some(bs[i])
    decreases |frames|
  {
    hide FirstFrame;
    if frames == [] {
    } else {
      var f, later := frames[0], input[4 + |frames[0].payload|..];
      ParsedPart(c, later, frames[1..], rest);
      SomeOf(c, frames);
      if !SomeFails(c, frames) {
        var b := c.decompress(f.word, f.payload).value;
        var bs, more := AllBlocks(c, input), AllBlocks(c, later);
        assert bs == [b] + more && bs[|frames|..] == more[|frames| - 1..];
        forall i | 0 <= i < |frames| ensures c.decompress(frames[i].word, frames[i].payload) == Some(bs[i]) {
          if i > 0 {
            assert frames[1..][i - 1] == frames[i] && more[i - 1] == bs[i];
          }
        }
      }
    }
  }

  lemma SomeOf(c: Codec, frames: seq<Framed>)
    requires frames != []
    ensures SomeFails(c, frames) <==> !Decodes(c, frames[0]) || SomeFails(c, frames[1..])
  {
    if SomeFails(c, frames[1..]) {
      var i :| 0 <= i < |frames| - 1 && !Decodes(c, frames[1..][i]);
      assert !Decodes(c, frames[i + 1]);
    }
    if SomeFails(c, frames) {
      var i :| 0 <= i < |frames| && !Decodes(c, frames[i]);
      assert i == 0 || !Decodes(c, frames[1..][i - 1]);
    }
  }

  // ---------- what every step keeps ----------

  /** The counters and flags. The end of the file is only reported behind the last frame's number. */
  ghost predicate Counters(s: State) {
    && s.toProcess == |s.tasks| && s.processed == |s.delivered| <= |s.tasks|
    && (s.sourceDone ==> s.held.None? && (s.endOfFile || s.cancelled))
    && (s.endOfFile ==> s.sourceDone && OutOfInput(s.input))
    && (s.parked.Some? ==> s.sourceDone)
    && (s.pc.SawEnd? || s.pc.RaisedEnd? ==> s.endOfFile)
    && (s.pc.RaisedEnd? ==> s.processed == |s.tasks|)
    && (s.stray.Some? ==> s.cancelled && s.processed == 0 < |s.tasks|)
  }

  /** What tasks have come to: without a cancel none is lost, and just those below `processed` are delivered. */
  ghost predicate Fates(s: State) {
    forall i :: 0 <= i < |s.tasks| ==>
      && (s.tasks[i].Delivered? ==> i < s.processed)
      && (i < s.processed ==> s.tasks[i].Delivered? || s.cancelled)
      && (s.tasks[i].Broken? || s.tasks[i].Gone? ==> s.cancelled)
  }

  /** Not even one more whole frame. */
  predicate OutOfInput(input: bytes) {
    FirstFrame(input) == Err(UnexpectedEndOfFile) || FirstFrame(input) == Err(TruncatedBlock)
  }

  ghost predicate File(s: State, input: bytes) {
    Parses(input, s.frames, s.input) && s.hashed + s.input == input
  }

  /** Delivered are the blocks of the frames, in order. Only for block 0 a failed task may have put an empty one. */
  ghost predicate DeliveredOk(c: Codec, s: State) {
    && |s.delivered| <= |s.frames|
    && forall k :: 0 <= k < |s.delivered| ==>
      || c.decompress(s.frames[k].word, s.frames[k].payload) == Some(s.delivered[k])
      || (k == 0 && s.cancelled && s.delivered[0] == [] && SomeFails(c, s.frames))
  }

  /** What work is cancelled for, and who may hold a block that is not its frame's. */
  ghost predicate Cause(c: Codec, s: State) {
    && (s.cancelled ==> (s.sourceDone && FirstFrame(s.input) == Err(BlockTooLarge)) || SomeFails(c, s.frames))
    && (s.stray.Some? ==> SomeFails(c, s.frames))
  }

  ghost predicate Inv(c: Codec, s: State, input: bytes) {
    && Owned(s) && Contents(c, s) && Shape(s) && Counters(s) && Fates(s) && File(s, input) && DeliveredOk(c, s)
    && Cause(c, s)
  }

  /** What a step of one task leaves as it was, and what follows from that. */
  lemma TaskFlags(c: Codec, s: State, s': State, i: nat, input: bytes)
    requires Counters(s) && Fates(s) && Cause(c, s) && File(s, input) && DeliveredOk(c, s)
    requires i < |s.tasks| == |s'.tasks| && s'.tasks == s.tasks[i := s'.tasks[i]]
    requires !s.tasks[i].Delivered? && !s'.tasks[i].Delivered?
    requires s.cancelled ==> s'.cancelled
    requires s'.tasks[i].Broken? || s'.tasks[i].Gone? ==> s'.cancelled
    requires s'.cancelled && !s.cancelled ==> SomeFails(c, s.frames)
    requires s'.stray == s.stray || (s.cancelled && s.processed == 0 && SomeFails(c, s.frames))
    requires s'.toProcess == s.toProcess && s'.processed == s.processed && s'.delivered == s.delivered
    requires s'.sourceDone == s.sourceDone && s'.held == s.held && s'.endOfFile == s.endOfFile
    requires s'.input == s.input && s'.parked == s.parked && s'.pc == s.pc
    requires s'.frames == s.frames && s'.hashed == s.hashed
    ensures Counters(s') && Fates(s') && Cause(c, s') && File(s', input) && DeliveredOk(c, s')
  {
    hide FirstFrame, Parses, SomeFails;
  }

  lemma FrameInv(c: Codec, s: State, input: bytes, pick: Option<nat>, f: Framed)
    requires Inv(c, s, input) && Enabled(s, Read(pick)) && FirstFrame(s.input) == Ok(f)
    ensures Inv(c, FrameStep(s, pick, f), input)
  {
    hide Owned, TaskOk, ZOk, Poke, Put, FirstFrame, Counters, Fates, File, DeliveredOk, Cause;
    var g := GetZblock(s, pick);
    assert Fits(s.input) by { FrameFits(s.input); }
    assert s.parked.None? by { NotParked(s); }
    FrameOwned(s, pick, f);
    Storing(c, s, pick, f);
    FrameFlags(c, s, FrameStep(s, pick, f), input, f);
  }

  lemma NotParked(s: State)
    requires Counters(s) && !s.sourceDone
    ensures s.parked.None?
  {
    hide FirstFrame;
  }

  /** The flags after a whole frame was read. */
  lemma FrameFlags(c: Codec, s: State, s': State, input: bytes, f: Framed)
    requires Counters(s) && Fates(s) && Cause(c, s) && File(s, input) && DeliveredOk(c, s) && Contents(c, s)
    requires FirstFrame(s.input) == Ok(f) && !s.sourceDone && s.held.None? && 4 + |f.payload| <= |s.input|
    requires s'.input == s.input[4 + |f.payload|..] && s'.hashed == s.hashed + s.input[..4 + |f.payload|]
    requires s'.frames == s.frames + [f] && s'.held.Some?
    requires s'.tasks == s.tasks && s'.stray == s.stray && s'.processed == s.processed && s'.delivered == s.delivered
    requires s'.sourceDone == s.sourceDone && s'.endOfFile == s.endOfFile && s'.cancelled == s.cancelled
    requires s'.toProcess == s.toProcess && s'.parked == s.parked && s'.pc == s.pc
    ensures Counters(s') && Fates(s') && Cause(c, s') && File(s', input) && DeliveredOk(c, s')
  {
    hide FirstFrame, Parses, SomeFails, TaskOk, ZOk;
    MoreFrames(c, s.frames, f);
    ParsesSnoc(input, s.frames, s.input, f);
    var n := 4 + |f.payload|;
    assert (s.hashed + s.input[..n]) + s.input[n..] == s.hashed + s.input;
  }

  lemma MoreFrames(c: Codec, frames: seq<Framed>, f: Framed)
    ensures SomeFails(c, frames) ==> SomeFails(c, frames + [f])
  {
    if SomeFails(c, frames) {
      var i :| 0 <= i < |frames| && !Decodes(c, frames[i]);
      assert (frames + [f])[i] == frames[i];
    }
  }

  predicate Fits(input: bytes) {
    FirstFrame(input).Ok? ==>
      var f := FirstFrame(input).value;
      4 + |f.payload| <= |input| && |f.payload| == CompressedSize(f.word) <= MAX_ZBLOCKSIZE
  }

  lemma FrameFits(input: bytes)
    ensures Fits(input)
  {
  }

  lemma ReadInv(c: Codec, s: State, input: bytes, pick: Option<nat>)
    requires Inv(c, s, input) && Enabled(s, Read(pick))
    ensures Inv(c, ReadStep(s, pick), input)
  {
    hide Inv, FrameStep, BreakStep, FirstFrame;
    var first := FirstFrame(s.input);
    if first.Ok? {
      FrameInv(c, s, input, pick, first.value);
    } else {
      FramingErrors(s.input);
      if first == Err(TruncatedBlock) {
        BreakInv(c, s, input, pick);
      } else {
        EndInv(c, s, input, pick);
      }
    }
  }

  lemma FramingErrors(input: bytes)
    ensures FirstFrame(input).Err? ==>
      var e := FirstFrame(input).error;
      e == UnexpectedEndOfFile || e == BlockTooLarge || e == TruncatedBlock
  {
  }

  lemma EndInv(c: Codec, s: State, input: bytes, pick: Option<nat>)
    requires Inv(c, s, input) && Enabled(s, Read(pick))
    requires FirstFrame(s.input) == Err(UnexpectedEndOfFile) || FirstFrame(s.input) == Err(BlockTooLarge)
    ensures Inv(c, ReadStep(s, pick), input)
  {
    hide Owned, TaskOk, ZOk, FrameStep, BreakStep, Parses, SomeFails, FirstFrame;
    FlagsOwned(s, ReadStep(s, pick));
  }

  lemma BreakInv(c: Codec, s: State, input: bytes, pick: Option<nat>)
    requires Inv(c, s, input) && Enabled(s, Read(pick)) && FirstFrame(s.input) == Err(TruncatedBlock)
    ensures Inv(c, BreakStep(s, pick), input)
  {
    hide Owned, Contents, Shape, Parses, FirstFrame, SomeFails;
    BreakOwned(s, pick);
    BreakOff(c, s, pick);
  }

  lemma BreakOff(c: Codec, s: State, pick: Option<nat>)
    requires Contents(c, s) && Shape(s) && s.held.None?
    ensures Contents(c, BreakStep(s, pick)) && Shape(BreakStep(s, pick))
  {
    hide TaskOk, ZOk;
    if pick.None? {
      var none: bytes := seq(MAX_ZBLOCKSIZE, _ => 0);
      ContentsGrow(c, s, none);
      PutLengths(s.zblocks, 0, none, MAX_ZBLOCKSIZE);
    }
  }

  lemma NumberInv(c: Codec, s: State, input: bytes)
    requires Inv(c, s, input) && Enabled(s, Number)
    ensures Inv(c, Apply(c, s, Number), input)
  {
    hide Owned, ZOk, Parses, FirstFrame;
    NumberOwned(c, s);
    var t := Loaded(s.held.value.0, s.held.value.1);
    assert TaskOk(c, s.blocks, s.zblocks, t, s.frames[|s.tasks|]);
  }

  lemma PopBlockInv(c: Codec, s: State, input: bytes, i: nat, pick: Option<nat>)
    requires Inv(c, s, input) && Enabled(s, PopBlock(i, pick))
    ensures Inv(c, Apply(c, s, PopBlock(i, pick)), input)
  {
    hide Owned, Contents, Shape, Counters, Fates, Cause, File, DeliveredOk, SomeFails;
    PopBlockOwned(c, s, i, pick);
    PopBlockContents(c, s, i, pick);
    TaskFlags(c, s, Apply(c, s, PopBlock(i, pick)), i, input);
  }

  lemma PopBlockContents(c: Codec, s: State, i: nat, pick: Option<nat>)
    requires Owned(s) && Contents(c, s) && Shape(s) && Enabled(s, PopBlock(i, pick))
    ensures Contents(c, Apply(c, s, PopBlock(i, pick))) && Shape(Apply(c, s, PopBlock(i, pick)))
  {
    hide Owned, ZOk, BOk;
    var t := s.tasks[i];
    assert TaskOk(c, s.blocks, s.zblocks, t, s.frames[i]);
    match pick
    case Some(b) =>
      PoolCoversB(s, b);
      ContentsUpdate(c, s, i, Popped(t.z, t.word, b));
    case None =>
      var none: bytes := seq(MAX_BLOCKSIZE, _ => 0);
      ContentsGrow(c, s, none);
      PutLengths(s.blocks, 0, none, MAX_BLOCKSIZE);
      ContentsUpdate(c, s.(blocks := s.blocks + [none]), i, Popped(t.z, t.word, |s.blocks|));
  }

  /** The decompressor writes a buffer that no other task holds. */
  lemma DecompressFrame(c: Codec, s: State, i: nat, b: bytes)
    requires Owned(s) && Contents(c, s) && i < |s.tasks| && s.tasks[i].Popped?
    ensures var bs := Put(s.blocks, s.tasks[i].b, b);
      forall j :: 0 <= j < |s.tasks| && j != i ==> TaskOk(c, bs, s.zblocks, s.tasks[j], s.frames[j])
  {
    hide TaskOk, Holders, Put;
    var x := s.tasks[i].b;
    assert Owners(s, BLOCKS, x) <= 1;
    forall j | 0 <= j < |s.tasks| && j != i ensures TaskOk(c, Put(s.blocks, x, b), s.zblocks, s.tasks[j], s.frames[j]) {
      HoldersOfTwo(Holds, s.tasks, i, j, BLOCKS, x);
      TaskFrame(c, s.blocks, s.zblocks, s.tasks[j], s.frames[j], x, b);
    }
  }

  lemma Unpacking(c: Codec, blocks: seq<bytes>, b: nat, f: Framed, block: Block)
    requires b < |blocks| && |blocks[b]| == MAX_BLOCKSIZE && c.decompress(f.word, f.payload) == Some(block)
    ensures var p := Poke(Slot(blocks, b), 0, block);
      |p| == MAX_BLOCKSIZE && BOk(c, Put(blocks, b, p), b, |block|, f)
  {
    Poked(blocks[b], 0, block);
    assert blocks[b][..0] + block == block;
  }

  lemma DecompressInv(c: Codec, s: State, input: bytes, i: nat)
    requires Inv(c, s, input) && Enabled(s, Decompress(i))
    ensures Inv(c, Apply(c, s, Decompress(i)), input)
  {
    hide Owned, Contents, Shape, Counters, Fates, Cause, File, DeliveredOk, SomeFails, Poke, Put, Front;
    DecompressOwned(c, s, i);
    DecompressContents(c, s, i);
    if Apply(c, s, Decompress(i)).tasks[i].Broken? {
      Failing(c, Apply(c, s, Decompress(i)), i);
    }
    TaskFlags(c, s, Apply(c, s, Decompress(i)), i, input);
  }

  lemma PoppedMeans(c: Codec, s: State, i: nat)
    requires Contents(c, s) && i < |s.tasks| && s.tasks[i].Popped?
    ensures |s.frames| >= |s.tasks|
    ensures var t, f := s.tasks[i], s.frames[i];
      && Front(s.zblocks, t.z, CompressedSize(t.word)) == f.payload && t.word == f.word && t.b < |s.blocks|
      && TaskOk(c, s.blocks, s.zblocks, t, f)
  {
    hide BOk;
    assert TaskOk(c, s.blocks, s.zblocks, s.tasks[i], s.frames[i]);
  }

  lemma UnpackContents(c: Codec, s: State, i: nat, block: Block)
    requires Owned(s) && Contents(c, s) && Shape(s) && i < |s.tasks| <= |s.frames| && s.tasks[i].Popped?
    requires s.tasks[i].b < |s.blocks|
    requires c.decompress(s.frames[i].word, s.frames[i].payload) == Some(block)
    ensures var t, b := s.tasks[i], Poke(Slot(s.blocks, s.tasks[i].b), 0, block);
      var s' := s.(tasks := s.tasks[i := Unpacked(t.z, t.b, |block|)], blocks := Put(s.blocks, t.b, b));
      Contents(c, s') && Shape(s')
  {
    hide Owned, Poke, BOk, Put;
    var t, b := s.tasks[i], Poke(Slot(s.blocks, s.tasks[i].b), 0, block);
    Unpacking(c, s.blocks, t.b, s.frames[i], block);
    DecompressFrame(c, s, i, b);
    PutLengths(s.blocks, t.b, b, MAX_BLOCKSIZE);
  }

  lemma BreakContents(c: Codec, s: State, i: nat)
    requires Contents(c, s) && Shape(s) && i < |s.tasks| <= |s.frames| && s.tasks[i].Popped?
    requires !Decodes(c, s.frames[i])
    ensures var s' := s.(cancelled := true, tasks := s.tasks[i := Broken(s.tasks[i].z, s.tasks[i].b)]);
      Contents(c, s') && Shape(s')
  {
    hide ZOk, BOk;
    ContentsUpdate(c, s, i, Broken(s.tasks[i].z, s.tasks[i].b));
  }

  lemma DecompressContents(c: Codec, s: State, i: nat)
    requires Owned(s) && Contents(c, s) && Shape(s) && Enabled(s, Decompress(i))
    ensures Contents(c, Apply(c, s, Decompress(i))) && Shape(Apply(c, s, Decompress(i)))
  {
    hide Owned, Poke, Put, Front, TaskOk, Contents, Shape;
    PoppedMeans(c, s, i);
    var f := s.frames[i];
    match c.decompress(f.word, f.payload)
    case None => BreakContents(c, s, i);
    case Some(block) => UnpackContents(c, s, i, block);
  }

  lemma Failing(c: Codec, s: State, i: nat)
    requires Contents(c, s) && i < |s.tasks| && s.tasks[i].Broken?
    ensures SomeFails(c, s.frames)
  {
    assert TaskOk(c, s.blocks, s.zblocks, s.tasks[i], s.frames[i]);
    assert !Decodes(c, s.frames[i]);
  }

  lemma Fated(s: State, i: nat)
    requires Fates(s) && i < |s.tasks| && s.tasks[i].Broken?
    ensures s.cancelled
  {
  }

  /** The sequencer refuses a block only after a cancel. */
  lemma Lateness(s: State, i: nat)
    requires Counters(s) && Fates(s) && i < |s.tasks| && s.tasks[i].Unpacked? && Taken(s, i)
    ensures s.cancelled
  {
    hide FirstFrame;
  }

  lemma ReturnInv(c: Codec, s: State, input: bytes, i: nat)
    requires Inv(c, s, input) && i < |s.tasks| && s.tasks[i].Unpacked?
    ensures Inv(c, ReturnStep(s, i), input)
  {
    hide Owned, Contents, Shape, Counters, Fates, Cause, File, DeliveredOk, SomeFails, Taken;
    ReturnOwned(s, i);
    ReturnContents(c, s, i);
    if Taken(s, i) {
      Lateness(s, i);
    }
    TaskFlags(c, s, ReturnStep(s, i), i, input);
  }

  lemma ReturnContents(c: Codec, s: State, i: nat)
    requires Contents(c, s) && Shape(s) && i < |s.tasks| && s.tasks[i].Unpacked?
    ensures Contents(c, ReturnStep(s, i)) && Shape(ReturnStep(s, i))
  {
    hide BOk, ZOk, Taken;
    assert TaskOk(c, s.blocks, s.zblocks, s.tasks[i], s.frames[i]);
    ContentsUpdate(c, s, i, ReturnStep(s, i).tasks[i]);
  }

  lemma FailInv(c: Codec, s: State, input: bytes, i: nat)
    requires Inv(c, s, input) && i < |s.tasks| && s.tasks[i].Broken?
    ensures Inv(c, FailStep(s, i), input)
  {
    hide Owned, Contents, Shape, Counters, Fates, Cause, File, DeliveredOk, SomeFails;
    FailOwned(s, i);
    FailContents(c, s, i);
    Failing(c, s, i);
    Fated(s, i);
    TaskFlags(c, s, FailStep(s, i), i, input);
  }

  lemma FailContents(c: Codec, s: State, i: nat)
    requires Contents(c, s) && Shape(s) && i < |s.tasks| && s.tasks[i].Broken?
    ensures Contents(c, FailStep(s, i)) && Shape(FailStep(s, i))
  {
    hide TaskOk, ZOk, Taken, FailStep;
    FailShape(s, i);
    assert TaskOk(c, s.blocks, s.zblocks, FailStep(s, i).tasks[i], s.frames[i]) by { GoneOk(c, s, i); }
    ContentsUpdate(c, s, i, FailStep(s, i).tasks[i]);
  }

  lemma FailShape(s: State, i: nat)
    requires i < |s.tasks| && s.tasks[i].Broken?
    ensures var s' := FailStep(s, i);
      && s'.tasks == s.tasks[i := s'.tasks[i]] && s'.held == s.held && s'.frames == s.frames
      && s'.blocks == s.blocks && s'.zblocks == s.zblocks
  {
    hide Taken;
  }

  lemma GoneOk(c: Codec, s: State, i: nat)
    requires i < |s.tasks| && s.tasks[i].Broken? && |s.frames| >= |s.tasks|
    ensures TaskOk(c, s.blocks, s.zblocks, FailStep(s, i).tasks[i], s.frames[i])
  {
    hide Taken;
  }

  lemma ReleaseInv(c: Codec, s: State, input: bytes, i: nat)
    requires Inv(c, s, input) && Enabled(s, Release(i))
    ensures Inv(c, Apply(c, s, Release(i)), input)
  {
    hide Inv, ReturnStep, FailStep;
    if s.tasks[i].Unpacked? {
      ReturnInv(c, s, input, i);
    } else {
      FailInv(c, s, input, i);
    }
  }

  lemma StrayInv(c: Codec, s: State, input: bytes)
    requires Inv(c, s, input) && s.pc.Trying? && s.stray.Some?
    ensures Inv(c, DeliverStep(s), input)
  {
    hide Owned, Parses, FirstFrame, TaskOk, ZOk, SomeFails;
    DeliverOwned(s);
  }

  lemma DeliverInv(c: Codec, s: State, input: bytes)
    requires Inv(c, s, input) && s.pc.Trying? && s.stray.None? && Ready(s)
    ensures Inv(c, DeliverStep(s), input)
  {
    hide Owned, Contents, Parses, FirstFrame, Front, SomeFails;
    DeliverOwned(s);
    DeliverContents(c, s);
  }

  lemma DeliverContents(c: Codec, s: State)
    requires Contents(c, s) && Ready(s) && s.stray.None?
    ensures Contents(c, DeliverStep(s)) && |s.frames| >= |s.tasks|
    ensures var t, f := s.tasks[s.processed], s.frames[s.processed];
      c.decompress(f.word, f.payload) == Some(Front(s.blocks, t.b, t.size))
  {
    hide ZOk;
    assert TaskOk(c, s.blocks, s.zblocks, s.tasks[s.processed], s.frames[s.processed]);
    ContentsUpdate(c, s, s.processed, Delivered);
  }

  lemma ConsumerInv(c: Codec, s: State, input: bytes, st: Step)
    requires Inv(c, s, input) && Enabled(s, st) && (st.Want? || st.LookEnd? || st.LookCount? || st.LookCancelled?)
    ensures Inv(c, Apply(c, s, st), input)
  {
    hide Owned, Contents, Shape, Cause, File, DeliveredOk, FirstFrame;
    StepOwned(c, s, st);
    SameRest(c, s, Apply(c, s, st), input);
  }

  /** Only the consumer's position changes. */
  lemma SameRest(c: Codec, s: State, s': State, input: bytes)
    requires s' == s.(pc := s'.pc)
    requires Contents(c, s) && Shape(s) && Fates(s) && Cause(c, s) && File(s, input) && DeliveredOk(c, s)
    ensures Contents(c, s') && Shape(s') && Fates(s') && Cause(c, s') && File(s', input) && DeliveredOk(c, s')
  {
    hide TaskOk, ZOk, FirstFrame, Parses, SomeFails;
  }

  lemma TryGetInv(c: Codec, s: State, input: bytes)
    requires Inv(c, s, input) && Enabled(s, TryGet)
    ensures Inv(c, Apply(c, s, TryGet), input)
  {
    hide Owned, Contents, Shape, Fates, Cause, File, DeliveredOk, FirstFrame, DeliverStep;
    if s.stray.Some? {
      StrayInv(c, s, input);
    } else if Ready(s) {
      DeliverInv(c, s, input);
    } else {
      StepOwned(c, s, TryGet);
      SameRest(c, s, Apply(c, s, TryGet), input);
    }
  }

  /** Every step of every thread keeps the invariant. */
  lemma StepInv(c: Codec, s: State, input: bytes, st: Step)
    requires Inv(c, s, input) && Enabled(s, st)
    ensures Inv(c, Apply(c, s, st), input)
  {
    hide Inv, ReadStep;
    match st
    case Read(pick) => ReadInv(c, s, input, pick);
    case Number => NumberInv(c, s, input);
    case PopBlock(i, pick) => PopBlockInv(c, s, input, i, pick);
    case Decompress(i) => DecompressInv(c, s, input, i);
    case Release(i) => ReleaseInv(c, s, input, i);
    case TryGet => TryGetInv(c, s, input);
    case _ => ConsumerInv(c, s, input, st);
  }

  lemma InitInv(c: Codec, input: bytes)
    ensures Inv(c, Init(input), input)
  {
    InitOwned(input);
  }

  // ---------- whole runs ----------

  ghost predicate IsRun(c: Codec, s: State, steps: seq<Step>, t: State)
    decreases |steps|
  {
    if steps == [] then s == t else Enabled(s, steps[0]) && IsRun(c, Apply(c, s, steps[0]), steps[1..], t)
  }

  lemma {:induction false} RunInv(c: Codec, s: State, steps: seq<Step>, t: State, input: bytes)
    requires Inv(c, s, input) && IsRun(c, s, steps, t)
    ensures Inv(c, t, input)
    decreases |steps|
  {
    hide Inv, Apply;
    if steps == [] {
    } else {
      StepInv(c, s, input, steps[0]);
      RunInv(c, Apply(c, s, steps[0]), steps[1..], t, input);
    }
  }

  /** In any run on any file the hash has seen the file from its start, every buffer has one owner, and what was
      delivered are the blocks of the file's frames in order. Only after a cancel for a frame that does not
      decompress can an empty block stand for the first. */
  lemma AnyRun(c: Codec, input: bytes, steps: seq<Step>, t: State)
    requires IsRun(c, Init(input), steps, t)
    ensures t.hashed <= input && Parses(input, t.frames, t.input) && Owned(t) && |t.delivered| <= |t.frames|
    ensures forall k :: 0 <= k < |t.delivered| ==>
      || c.decompress(t.frames[k].word, t.frames[k].payload) == Some(t.delivered[k])
      || (k == 0 && t.delivered[0] == [] && t.cancelled && !AllDecode(c, input))
    ensures t.cancelled ==> !Readable(c, input)
  {
    hide Parses, Owned, IsRun, Contents, Shape, Counters, Fates, Init, SomeFails, AllDecode, Ending, AllBlocks,
         FirstFrame;
    InitInv(c, input);
    RunInv(c, Init(input), steps, t, input);
    ParsedPart(c, input, t.frames, t.input);
    TooLarge(t.input);
  }

  lemma TooLarge(input: bytes)
    ensures FirstFrame(input).Err? ==> Ending(input) == FirstFrame(input).error
  {
  }

  /** If every frame decompresses, the k-th block delivered in any run is what the single-threaded reader gets as
      its k-th block. */
  lemma DeliveredInOrder(c: Codec, input: bytes, steps: seq<Step>, t: State)
    requires IsRun(c, Init(input), steps, t) && AllDecode(c, input)
    ensures RightlyDelivered(c, input, t)
  {
    hide Parses, BlockAt, Owned, IsRun, Init, AllDecode;
    AnyRun(c, input, steps, t);
    forall k | 0 <= k < |t.delivered| ensures BlockAt(c, input, k) == Ok(t.delivered[k]) {
      BlockOfFrame(c, input, t.frames, t.input, t.delivered, k);
    }
  }

  ghost predicate RightlyDelivered(c: Codec, input: bytes, t: State) {
    forall k :: 0 <= k < |t.delivered| ==> BlockAt(c, input, k) == Ok(t.delivered[k])
  }

  /** "Unexpected end of file" is raised only after a block was delivered for every frame. If they all decompress,
      the single-threaded reader's next call fails for want of input too. */
  lemma EndComesLast(c: Codec, input: bytes, steps: seq<Step>, t: State)
    requires IsRun(c, Init(input), steps, t) && t.pc.RaisedEnd?
    ensures |t.delivered| == |t.frames|
    ensures AllDecode(c, input) ==>
      var next := BlockAt(c, input, |t.delivered|);
      next == Err(UnexpectedEndOfFile) || next == Err(TruncatedBlock)
  {
    hide Parses, BlockAt, Owned, IsRun, Shape, Init, TaskOk, ZOk, FirstFrame, AllDecode, DeliveredOk, Cause, Fates;
    AnyRun(c, input, steps, t);
    InitInv(c, input);
    RunInv(c, Init(input), steps, t, input);
    if AllDecode(c, input) {
      BlockOfFrame(c, input, t.frames, t.input, t.delivered, |t.delivered|);
    }
  }

  // ---------- files with a frame that does not decompress ----------

  /** The frames up to one that fails. */
  lemma {:induction false} FailingFrame(c: Codec, input: bytes) returns (frames: seq<Framed>, rest: bytes)
    requires !AllDecode(c, input)
    ensures Parses(input, frames, rest) && frames != [] && !Decodes(c, frames[|frames| - 1])
    decreases |input|
  {
    hide FirstFrame;
    FrameFits(input);
    var f := FirstFrame(input).value;
    var later := input[4 + |f.payload|..];
    if Decodes(c, f) {
      var more;
      more, rest := FailingFrame(c, later);
      frames := [f] + more;
      assert frames[1..] == more;
    } else {
      frames, rest := [f], later;
      assert frames[1..] == [];
    }
  }

  /** A state in which nothing but reading has happened. */
  ghost predicate OnlyRead(s: State) {
    && !s.sourceDone && s.held.None? && s.freeZblocks == multiset{} && s.freeBlocks == multiset{}
    && s.processed == 0 && s.stray.None? && s.pc.Idle? && s.delivered == []
    && forall i :: 0 <= i < |s.tasks| ==> s.tasks[i].Loaded?
  }

  lemma {:induction false} ReadFrames(c: Codec, s: State, frames: seq<Framed>, rest: bytes)
    returns (steps: seq<Step>, t: State)
    requires OnlyRead(s) && Parses(s.input, frames, rest)
    ensures IsRun(c, s, steps, t) && OnlyRead(t)
    ensures t.frames == s.frames + frames && |t.tasks| == |s.tasks| + |frames|
    decreases |frames|
  {
    hide FirstFrame, OnlyRead, Apply, Enabled;
    if frames == [] {
      steps, t := [], s;
      assert s.frames + [] == s.frames;
    } else {
      var s2 := ReadFrame(c, s, frames[0]);
      var more;
      more, t := ReadFrames(c, s2, frames[1..], rest);
      steps := [Read(None), Number] + more;
      assert s.frames + [frames[0]] + frames[1..] == s.frames + frames;
      RunOn(c, s, [Read(None), Number], s2, more, t);
    }
  }

  lemma ReadFrame(c: Codec, s: State, f: Framed) returns (s2: State)
    requires OnlyRead(s) && FirstFrame(s.input) == Ok(f)
    ensures IsRun(c, s, [Read(None), Number], s2) && OnlyRead(s2) && 4 + |f.payload| <= |s.input|
    ensures s2.input == s.input[4 + |f.payload|..] && s2.frames == s.frames + [f] && |s2.tasks| == |s.tasks| + 1
  {
    hide FirstFrame, Poke, Put;
    FrameFits(s.input);
    var s1 := Apply(c, s, Read(None));
    s2 := Apply(c, s1, Number);
    var rest, none: seq<Step> := [Number], [];
    assert [Read(None), Number][1..] == rest && rest[1..] == none;
    assert IsRun(c, s2, none, s2);
    assert IsRun(c, s1, rest, s2);
  }

  /** Where a frame does not decompress, the task that fails returns a block of number and size 0, and if it is the
      first to return one, the consumer takes it for the first block of the file. */
  lemma OutOfOrder(c: Codec, input: bytes) returns (steps: seq<Step>, t: State)
    requires !AllDecode(c, input)
    ensures IsRun(c, Init(input), steps, t) && t.delivered == [[]] && !RightlyDelivered(c, input, t)
  {
    hide AllDecode, IsRun, Parses, BlockAt;
    var frames, rest := FailingFrame(c, input);
    var first, s := ReadFrames(c, Init(input), frames, rest);
    assert [] + frames == frames;
    var last;
    last, t := FailFirst(c, input, first, s);
    steps := first + last;
    RunOn(c, Init(input), first, s, last, t);
    assert !RightlyDelivered(c, input, t) by {
      assert t.delivered[0] == [];
    }
  }

  lemma FailFirst(c: Codec, input: bytes, before: seq<Step>, s: State) returns (steps: seq<Step>, t: State)
    requires IsRun(c, Init(input), before, s) && OnlyRead(s) && s.tasks != [] && |s.frames| == |s.tasks|
    requires !Decodes(c, s.frames[|s.frames| - 1])
    ensures IsRun(c, s, steps, t) && t.delivered == [[]]
  {
    hide Init, Owned, Shape, Counters, Fates, File, DeliveredOk, Cause, Apply, Enabled;
    InitInv(c, input);
    RunInv(c, Init(input), before, s, input);
    var i := |s.tasks| - 1;
    Payloads(c, s, i);
    var s2 := Failed(c, s, i);
    TakeStray(c, s2, i);
    var last: seq<Step> := [Release(i), Want, TryGet];
    t := Apply(c, Apply(c, Apply(c, s2, Release(i)), Want), TryGet);
    steps := [PopBlock(i, None), Decompress(i)] + last;
    RunOn(c, s, [PopBlock(i, None), Decompress(i)], s2, last, t);
  }

  lemma Payloads(c: Codec, s: State, i: nat)
    requires Contents(c, s) && i < |s.tasks| && s.tasks[i].Loaded?
    ensures var t, f := s.tasks[i], s.frames[i];
      t.word == f.word && Front(s.zblocks, t.z, CompressedSize(t.word)) == f.payload
  {
    assert TaskOk(c, s.blocks, s.zblocks, s.tasks[i], s.frames[i]);
  }

  lemma Failed(c: Codec, s: State, i: nat) returns (s2: State)
    requires OnlyRead(s) && i < |s.tasks|
    requires c.decompress(s.tasks[i].word, Front(s.zblocks, s.tasks[i].z, CompressedSize(s.tasks[i].word))) == None
    ensures IsRun(c, s, [PopBlock(i, None), Decompress(i)], s2)
    ensures |s2.tasks| == |s.tasks| && s2.tasks == s.tasks[i := s2.tasks[i]] && s2.tasks[i].Broken?
    ensures s2.stray.None? && s2.processed == 0 && s2.pc.Idle? && s2.delivered == []
  {
    hide Front;
    var s1 := Apply(c, s, PopBlock(i, None));
    s2 := Apply(c, s1, Decompress(i));
    var rest, none: seq<Step> := [Decompress(i)], [];
    assert [PopBlock(i, None), Decompress(i)][1..] == rest && rest[1..] == none;
    assert IsRun(c, s2, none, s2);
    assert IsRun(c, s1, rest, s2);
  }

  lemma TakeStray(c: Codec, s: State, i: nat)
    requires i < |s.tasks| && s.tasks[i].Broken? && s.stray.None? && s.processed == 0
    requires !s.tasks[0].Returned? && s.pc.Idle? && s.delivered == []
    ensures Enabled(s, Release(i)) && Enabled(Apply(c, s, Release(i)), Want)
    ensures var s1 := Apply(c, Apply(c, s, Release(i)), Want);
      Enabled(s1, TryGet) && Apply(c, s1, TryGet).delivered == [[]]
      && IsRun(c, s, [Release(i), Want, TryGet], Apply(c, s1, TryGet))
  {
    hide ReturnStep, ReadStep, FailStep, DeliverStep;
    var s1 := Apply(c, s, Release(i));
    FailedFirst(s, i);
    var s2 := Apply(c, s1, Want);
    var t := Apply(c, s2, TryGet);
    assert t.delivered == [[]] by { StrayDelivered(s2); }
    var rest1, rest2, none: seq<Step> := [Want, TryGet], [TryGet], [];
    assert [Release(i), Want, TryGet][1..] == rest1 && rest1[1..] == rest2 && rest2[1..] == none;
    assert IsRun(c, t, none, t);
    assert IsRun(c, s2, rest2, t);
    assert IsRun(c, s1, rest1, t);
  }

  lemma FailedFirst(s: State, i: nat)
    requires i < |s.tasks| && s.tasks[i].Broken? && s.stray.None? && s.processed == 0 && !s.tasks[0].Returned?
    ensures var s1 := FailStep(s, i); s1.stray.Some? && s1.pc == s.pc && s1.delivered == s.delivered
  {
  }

  lemma StrayDelivered(s: State)
    requires s.stray.Some? && s.delivered == []
    ensures Ready(s) && DeliverStep(s).delivered == [[]]
  {
  }

  lemma {:induction false} RunOn(c: Codec, r: State, first: seq<Step>, s: State, last: seq<Step>, t: State)
    requires IsRun(c, r, first, s) && IsRun(c, s, last, t)
    ensures IsRun(c, r, first + last, t)
    decreases |first|
  {
    hide Apply;
    if first == [] {
      assert first + last == last;
    } else {
      assert (first + last)[1..] == first[1..] + last;
      RunOn(c, Apply(c, r, first[0]), first[1..], s, last, t);
    }
  }

  /** The order of delivery can be relied on, in every run, exactly for files all of whose frames decompress. */
  lemma InOrderExactly(c: Codec, input: bytes)
    ensures AllDecode(c, input) <==>
      forall steps, t :: IsRun(c, Init(input), steps, t) ==> RightlyDelivered(c, input, t)
  {
    hide AllDecode, IsRun, RightlyDelivered, Init;
    if AllDecode(c, input) {
      forall steps, t | IsRun(c, Init(input), steps, t) ensures RightlyDelivered(c, input, t) {
        DeliveredInOrder(c, input, steps, t);
      }
    } else {
      var steps, t := OutOfOrder(c, input);
    }
  }

  // ---------- readable files, and `finish` ----------

  /** On a readable file nothing is ever cancelled, its blocks are delivered in order, and the end is raised exactly
      behind the last one. */
  lemma ReadableFile(c: Codec, input: bytes, steps: seq<Step>, t: State)
    requires Readable(c, input) && IsRun(c, Init(input), steps, t)
    ensures !t.cancelled && t.delivered <= AllBlocks(c, input)
    ensures t.pc.RaisedEnd? ==> t.delivered == AllBlocks(c, input)
  {
    hide Parses, Owned, IsRun, Shape, Init, SomeFails, AllDecode, Ending, AllBlocks, FirstFrame, Contents, Fates;
    AnyRun(c, input, steps, t);
    InitInv(c, input);
    RunInv(c, Init(input), steps, t, input);
    ParsedPart(c, input, t.frames, t.input);
    var bs := AllBlocks(c, input);
    assert t.delivered == bs[..|t.delivered|];
    if t.pc.RaisedEnd? {
      EndComesLast(c, input, steps, t);
      assert AllBlocks(c, t.input) == [] by { NoMore(c, t.input); }
    }
  }

  lemma NoMore(c: Codec, input: bytes)
    requires OutOfInput(input)
    ensures AllBlocks(c, input) == [] && AllDecode(c, input) && Ending(input) != BlockTooLarge
  {
  }

  /** The end is raised without a cancel only on readable files. */
  lemma EndOfReadable(c: Codec, input: bytes, steps: seq<Step>, t: State)
    requires IsRun(c, Init(input), steps, t) && t.pc.RaisedEnd? && !t.cancelled
    ensures Readable(c, input)
  {
    hide Parses, Owned, IsRun, Shape, Init, SomeFails, AllDecode, Ending, AllBlocks, FirstFrame, ZOk, BOk;
    AnyRun(c, input, steps, t);
    InitInv(c, input);
    RunInv(c, Init(input), steps, t, input);
    assert !SomeFails(c, t.frames) by { NoneFails(c, t); }
    ParsedPart(c, input, t.frames, t.input);
    NoMore(c, t.input);
  }

  /** No node can go on. */
  ghost predicate Quiet(s: State) {
    forall st :: Works(st) ==> !Enabled(s, st)
  }

  /** `finish` waits until the nodes are quiet or work was cancelled, and throws if it was. It throws exactly on files
      that are not readable, wherever the consumer has stopped. */
  lemma FinishExact(c: Codec, input: bytes, steps: seq<Step>, t: State)
    requires IsRun(c, Init(input), steps, t) && (t.cancelled || Quiet(t))
    ensures t.cancelled <==> !Readable(c, input)
  {
    hide Parses, Owned, IsRun, Shape, Init, SomeFails, AllDecode, Ending, AllBlocks, FirstFrame, ZOk, BOk;
    AnyRun(c, input, steps, t);
    if !t.cancelled {
      InitInv(c, input);
      RunInv(c, Init(input), steps, t, input);
      NothingLeft(t);
      assert !SomeFails(c, t.frames) by { NoneFails(c, t); }
      ParsedPart(c, input, t.frames, t.input);
      NoMore(c, t.input);
    }
  }

  lemma NothingLeft(t: State)
    requires Quiet(t) && Counters(t) && Fates(t) && !t.cancelled
    ensures t.held.None? && OutOfInput(t.input)
    ensures forall i :: 0 <= i < |t.tasks| ==> t.tasks[i].Returned? || (t.tasks[i].Delivered? && i < t.processed)
  {
    hide FirstFrame;
    assert !Enabled(t, Number);
    assert !Enabled(t, Read(AnyOf(t.freeZblocks)));
    forall i | 0 <= i < |t.tasks|
      ensures t.tasks[i].Returned? || (t.tasks[i].Delivered? && i < t.processed)
    {
      assert !Enabled(t, PopBlock(i, AnyOf(t.freeBlocks)));
      assert !Enabled(t, Decompress(i)) && !Enabled(t, Release(i));
    }
  }

  lemma NoneFails(c: Codec, t: State)
    requires Contents(c, t) && DeliveredOk(c, t) && !t.cancelled && t.held.None? && |t.delivered| == t.processed
    requires forall i :: 0 <= i < |t.tasks| ==> t.tasks[i].Returned? || (t.tasks[i].Delivered? && i < t.processed)
    ensures !SomeFails(c, t.frames)
  {
    hide ZOk;
    forall i | 0 <= i < |t.frames| ensures Decodes(c, t.frames[i]) {
      assert TaskOk(c, t.blocks, t.zblocks, t.tasks[i], t.frames[i]);
    }
  }

  // ---------- complete, decodable files ----------

  lemma FrameInFile(c: Codec, b: bytes, rest: bytes)
    requires Sound(c) && 1 <= |b| <= MAX_BLOCKSIZE
    ensures var z := c.compress(b);
      FirstFrame(Frame(c, b) + rest) == Ok(Framed(z.zsize, z.payload))
      && (Frame(c, b) + rest)[4 + |z.payload|..] == rest
  {
    var z := c.compress(b);
    var input := Frame(c, b) + rest;
    PowValues();
    FromLEOfLE(z.zsize, 4);
    assert input[..4] == LE(z.zsize, 4);
    assert input[4..4 + |z.payload|] == z.payload;
  }

  /** What a writer wrote is readable, and its blocks are those written. */
  lemma {:induction false} StreamReadable(c: Codec, bs: seq<bytes>)
    requires Sound(c) && (forall i :: 0 <= i < |bs| ==> 1 <= |bs[i]| <= MAX_BLOCKSIZE)
    ensures Readable(c, Stream(c, bs)) && AllBlocks(c, Stream(c, bs)) == bs
    ensures Ending(Stream(c, bs)) == UnexpectedEndOfFile
  {
    hide FirstFrame, Frame;
    if bs == [] {
      assert FirstFrame([]) == Err(UnexpectedEndOfFile) by { NothingThere(); }
    } else {
      FrameInFile(c, bs[0], Stream(c, bs[1..]));
      StreamReadable(c, bs[1..]);
      assert c.decompress(c.compress(bs[0]).zsize, c.compress(bs[0]).payload) == Some(bs[0]);
    }
  }

  lemma NothingThere()
    ensures FirstFrame([]) == Err(UnexpectedEndOfFile)
  {
  }

  /** On a stream of complete, decodable frames nothing is ever cancelled, what is delivered are its blocks
      in order, and the end is raised exactly behind the last one. */
  lemma CompleteFile(c: Codec, bs: seq<bytes>, steps: seq<Step>, t: State)
    requires Sound(c) && (forall i :: 0 <= i < |bs| ==> 1 <= |bs[i]| <= MAX_BLOCKSIZE)
    requires IsRun(c, Init(Stream(c, bs)), steps, t)
    ensures !t.cancelled && t.delivered <= bs
    ensures t.pc.RaisedEnd? ==> t.delivered == bs
  {
    hide IsRun, Init, Stream, Sound, Readable, AllBlocks;
    StreamReadable(c, bs);
    ReadableFile(c, Stream(c, bs), steps, t);
  }

  // ---------- progress ----------

  /** A step of the source node or of a task. */
  predicate Works(st: Step) {
    st.Read? || st.Number? || st.PopBlock? || st.Decompress? || st.Release?
  }

  /** Until the end of the file is known and everything is delivered, either the nodes can go on or the next
      block is there for the consumer. */
  lemma Progress(c: Codec, s: State, input: bytes) returns (st: Step)
    requires Inv(c, s, input) && !s.cancelled && !(s.endOfFile && s.processed == s.toProcess)
    ensures Ready(s) || (Works(st) && Enabled(s, st))
  {
    hide Owned, Contents, Shape, File, DeliveredOk;
    if s.held.Some? {
      st := Number;
    } else if !s.sourceDone {
      st := Read(AnyOf(s.freeZblocks));
    } else {
      assert !s.tasks[s.processed].Delivered?;
      match s.tasks[s.processed]
      case Loaded(_, _) => st := PopBlock(s.processed, AnyOf(s.freeBlocks));
      case Popped(_, _, _) => st := Decompress(s.processed);
      case Unpacked(_, _, _) => st := Release(s.processed);
      case Returned(_, _) => st := Want;
      case Broken(_, _) => st := Want;
      case Gone(_, _) => st := Want;
    }
  }

  /** Once everything is delivered, a consumer that asks again is told in three steps. */
  lemma EndIsTold(c: Codec, s: State)
    requires Counters(s) && s.endOfFile && s.processed == s.toProcess && s.pc.Trying?
    ensures IsRun(c, s, [TryGet, LookEnd, LookCount], s.(pc := RaisedEnd))
  {
    hide FirstFrame;
    var s1, s2, s3 := s.(pc := SawNothing), s.(pc := SawEnd), s.(pc := RaisedEnd);
    var rest1, rest2, none: seq<Step> := [LookEnd, LookCount], [LookCount], [];
    assert [TryGet, LookEnd, LookCount][1..] == rest1 && rest1[1..] == rest2 && rest2[1..] == none;
    assert IsRun(c, s3, none, s3);
    assert Apply(c, s2, LookCount) == s3 && IsRun(c, s2, rest2, s3);
    assert Apply(c, s1, LookEnd) == s2 && IsRun(c, s1, rest1, s3);
    assert Apply(c, s, TryGet) == s1;
  }

  function Rank(t: Stage): nat {
    match t
    case Loaded(_, _) => 5
    case Popped(_, _, _) => 4
    case Unpacked(_, _, _) => 3
    case Returned(_, _) => 2
    case Broken(_, _) => 2
    case Gone(_, _) => 0
    case Delivered => 0
  }

  function Measure(s: State): nat {
    2 * |s.input| + (if s.sourceDone then 0 else 1) + (if s.held.Some? then 6 else 0)
    + (if s.stray.Some? then 1 else 0) + Total(s.tasks, Rank)
  }

  lemma TaskComes(s: State, s': State, i: nat)
    requires s'.input == s.input && s'.sourceDone == s.sourceDone && s'.held == s.held
    requires i < |s.tasks| == |s'.tasks| && s'.tasks == s.tasks[i := s'.tasks[i]]
    requires Rank(s'.tasks[i]) + (if s'.stray.Some? then 1 else 0) < Rank(s.tasks[i]) + (if s.stray.Some? then 1 else 0)
    ensures Measure(s') < Measure(s)
  {
    hide Total, Rank;
    TotalUpdate(s.tasks, i, s'.tasks[i], Rank);
  }

  lemma SameZblocks(s: State, pick: Option<nat>)
    ensures var s1 := GetZblock(s, pick).1; s1 == s.(freeZblocks := s1.freeZblocks, zblocks := s1.zblocks)
  {
  }

  lemma ReadComes(s: State, pick: Option<nat>)
    requires Enabled(s, Read(pick))
    ensures Measure(ReadStep(s, pick)) < Measure(s)
  {
    hide Total, Poke, Put, FirstFrame, GetZblock;
    FrameFits(s.input);
    SameZblocks(s, pick);
    var first := FirstFrame(s.input);
    if first.Ok? {
      var n := 4 + |first.value.payload|;
      assert |s.input[n..]| == |s.input| - n;
    }
  }

  lemma NumberComes(c: Codec, s: State)
    requires Enabled(s, Number)
    ensures Measure(Apply(c, s, Number)) < Measure(s)
  {
    hide Total;
    TotalSnoc(s.tasks, Loaded(s.held.value.0, s.held.value.1), Rank);
  }

  lemma PopBlockComes(c: Codec, s: State, i: nat, pick: Option<nat>)
    requires Enabled(s, PopBlock(i, pick))
    ensures Measure(Apply(c, s, PopBlock(i, pick))) < Measure(s)
  {
    hide Total, Measure;
    TaskComes(s, Apply(c, s, PopBlock(i, pick)), i);
  }

  lemma DecompressComes(c: Codec, s: State, i: nat)
    requires Enabled(s, Decompress(i))
    ensures Measure(Apply(c, s, Decompress(i))) < Measure(s)
  {
    hide Total, Measure, Poke, Put, Front;
    TaskComes(s, Apply(c, s, Decompress(i)), i);
  }

  lemma FailComes(s: State, i: nat)
    requires i < |s.tasks| && s.tasks[i].Broken?
    ensures Measure(FailStep(s, i)) < Measure(s)
  {
    hide Total, Measure;
    TaskComes(s, FailStep(s, i), i);
  }

  lemma ReleaseComes(c: Codec, s: State, i: nat)
    requires Enabled(s, Release(i))
    ensures Measure(Apply(c, s, Release(i))) < Measure(s)
  {
    hide Total, Measure, Taken;
    if s.tasks[i].Unpacked? {
      TaskComes(s, ReturnStep(s, i), i);
    } else {
      FailComes(s, i);
    }
  }

  lemma DeliveryComes(s: State)
    requires Ready(s)
    ensures Measure(DeliverStep(s)) < Measure(s)
  {
    hide Total, Front;
    if s.stray.None? {
      TaskComes(s, DeliverStep(s), s.processed);
    }
  }

  /** Work and deliveries bring the end nearer; polling changes nothing. */
  lemma StepsCome(c: Codec, s: State, st: Step)
    requires Enabled(s, st)
    ensures Works(st) || (st.TryGet? && Ready(s)) ==> Measure(Apply(c, s, st)) < Measure(s)
    ensures !Works(st) && !(st.TryGet? && Ready(s)) ==> Measure(Apply(c, s, st)) == Measure(s)
  {
    hide Measure, ReadStep, DeliverStep, Ready, Poke, Put, Front;
    if st.Read? {
      ReadComes(s, st.pick);
    } else if st.Number? {
      NumberComes(c, s);
    } else if st.PopBlock? {
      PopBlockComes(c, s, st.i, st.pick);
    } else if st.Decompress? {
      DecompressComes(c, s, st.i);
    } else if st.Release? {
      ReleaseComes(c, s, st.i);
    } else if st.TryGet? && Ready(s) {
      DeliveryComes(s);
    } else {
      SameMeasure(s, Apply(c, s, st));
    }
  }

  lemma SameMeasure(s: State, s': State)
    requires s'.input == s.input && s'.sourceDone == s.sourceDone && s'.held == s.held && s'.tasks == s.tasks
    requires s'.stray == s.stray
    ensures Measure(s') == Measure(s)
  {
  }

  /** The steps of a run that are not polling. */
  ghost function Worked(c: Codec, s: State, steps: seq<Step>): nat
    decreases |steps|
  {
    if steps == [] || !Enabled(s, steps[0]) then 0
    else
      (if Works(steps[0]) || (steps[0].TryGet? && Ready(s)) then 1 else 0)
      + Worked(c, Apply(c, s, steps[0]), steps[1..])
  }

  /** A run on a file has at most twice as many steps as the file has bytes, and one, that are not polling. */
  lemma RunLength(c: Codec, input: bytes, steps: seq<Step>, t: State)
    requires IsRun(c, Init(input), steps, t)
    ensures Worked(c, Init(input), steps) + Measure(t) <= 2 * |input| + 1
  {
    hide Apply, Enabled, IsRun, Worked;
    WorkBound(c, Init(input), steps, t);
  }

  lemma {:induction false} WorkBound(c: Codec, s: State, steps: seq<Step>, t: State)
    requires IsRun(c, s, steps, t)
    ensures Worked(c, s, steps) + Measure(t) <= Measure(s)
    decreases |steps|
  {
    hide Apply, Enabled, Measure, Ready;
    if steps == [] {
    } else {
      StepsCome(c, s, steps[0]);
      WorkBound(c, Apply(c, s, steps[0]), steps[1..], t);
    }
  }
}
