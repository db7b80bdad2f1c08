/** The steps a calling thread takes inside the push methods. They are the same whether a flushed block is
    compressed on the spot or handed to other threads. */
module BlockOps {
  import opened Bytes
  import opened BlockSpec
  import opened BlockModule

  /** Copy into the current block, hand over the current block if it is not empty, hand over a full block of
      the caller's own memory. */
  datatype Op = Append(data: bytes) | HandOver | Direct(data: bytes)

  function ApplyOp(w: Writer, op: Op): Writer {
    match op
    case Append(d) => Writer(w.blocks, w.pending + d)
    case HandOver => Flush(w)
    case Direct(d) => Writer(w.blocks + [d], w.pending)
  }

  function ApplyOps(w: Writer, ops: seq<Op>): Writer
    decreases |ops|
  {
    if ops == [] then w else ApplyOps(ApplyOp(w, ops[0]), ops[1..])
  }

  /** Copies stay in the block, and whole blocks are only handed over around an empty one. */
  predicate OpOk(w: Writer, op: Op) {
    match op
    case Append(d) => |w.pending| + |d| <= MAX_BLOCKSIZE
    case HandOver => true
    case Direct(d) => |d| == MAX_BLOCKSIZE && w.pending == []
  }

  predicate OpsOk(w: Writer, ops: seq<Op>)
    decreases |ops|
  {
    ops != [] ==> OpOk(w, ops[0]) && OpsOk(ApplyOp(w, ops[0]), ops[1..])
  }

  /** What the rest of `push_data` does once the current block is empty or the data is used up. */
  function ChunkOps(d: bytes): seq<Op>
    decreases |d|
  {
    if |d| >= MAX_BLOCKSIZE then [Direct(d[..MAX_BLOCKSIZE])] + ChunkOps(d[MAX_BLOCKSIZE..])
    else if |d| > 0 then [Append(d)]
    else []
  }

  /** push_data, as it runs with `n` bytes in the current block. */
  function DataOps(n: nat, d: bytes): seq<Op>
    requires n <= MAX_BLOCKSIZE
  {
    var first := if n >= MAX_BLOCKSIZE then [HandOver] else [];
    var n1 := if n >= MAX_BLOCKSIZE then 0 else n;
    var add := if n1 > 0 then Min(|d|, MAX_BLOCKSIZE - n1) else 0;
    var topUp := if n1 > 0 then [Append(d[..add])] else [];
    var second := if n1 + add >= MAX_BLOCKSIZE then [HandOver] else [];
    first + (topUp + (second + ChunkOps(d[add..])))
  }

  function PodOps(pods: seq<bytes>): seq<Op> {
    if pods == [] then [] else [Append(pods[0])] + PodOps(pods[1..])
  }

  /** push_pod and the contiguous pods behind it. */
  function RunOps(n: nat, pods: seq<bytes>): seq<Op>
    requires pods != []
  {
    (if n > MIN_BLOCKSIZE then [HandOver] else []) + PodOps(pods)
  }

  function ItemOps(n: nat, it: Item): seq<Op>
    requires n <= MAX_BLOCKSIZE && ItemOk(it)
  {
    match it
    case Run(pods) => RunOps(n, pods)
    case Data(d) => DataOps(n, d)
  }

  lemma {:induction false} ApplyOpsAppend(w: Writer, a: seq<Op>, b: seq<Op>)
    ensures ApplyOps(w, a + b) == ApplyOps(ApplyOps(w, a), b)
    ensures OpsOk(w, a) && OpsOk(ApplyOps(w, a), b) ==> OpsOk(w, a + b)
    decreases |a|
  {
    if a == [] {
      assert a + b == b;
    } else {
      assert (a + b)[1..] == a[1..] + b;
      ApplyOpsAppend(ApplyOp(w, a[0]), a[1..], b);
    }
  }

  lemma OneOp(w: Writer, op: Op)
    ensures ApplyOps(w, [op]) == ApplyOp(w, op) && (OpsOk(w, [op]) <==> OpOk(w, op))
    ensures ApplyOps(w, []) == w && OpsOk(w, [])
  {
    assert [op][1..] == [];
    assert ApplyOps(ApplyOp(w, op), [op][1..]) == ApplyOp(w, op);
  }

  lemma {:induction false} ChunkOpsRight(w: Writer, d: bytes)
    requires |w.pending| < MAX_BLOCKSIZE && (d != [] ==> w.pending == [])
    ensures OpsOk(w, ChunkOps(d)) && ApplyOps(w, ChunkOps(d)) == PushData(w, d)
    decreases |d|
  {
    hide Cut;
    if |d| >= MAX_BLOCKSIZE {
      var b, rest := d[..MAX_BLOCKSIZE], d[MAX_BLOCKSIZE..];
      DirectChunk(w, d, 0);
      assert d[0..] == d && d[0..0 + MAX_BLOCKSIZE] == b;
      ChunkOpsRight(Writer(w.blocks + [b], []), rest);
      assert ([Direct(b)] + ChunkOps(rest))[1..] == ChunkOps(rest);
    } else {
      LastChunk(w, d);
      if |d| > 0 {
        OneOp(w, Append(d));
      } else {
        assert w.pending + d == w.pending;
      }
    }
  }

  lemma DataOpsRight(w: Writer, d: bytes)
    requires |w.pending| <= MAX_BLOCKSIZE
    ensures var ops := DataOps(|w.pending|, d); OpsOk(w, ops) && ApplyOps(w, ops) == PushData(w, d)
  {
    hide PushData, ChunkOps, OpsOk, ApplyOps;
    var n := |w.pending|;
    FullFirst(w, d);
    var first := if n >= MAX_BLOCKSIZE then [HandOver] else [];
    var w1 := if n >= MAX_BLOCKSIZE then Flush(w) else w;
    OneOp(w, HandOver);
    assert OpsOk(w, first) && ApplyOps(w, first) == w1;
    var n1 := |w1.pending|;
    var add := if n1 > 0 then Min(|d|, MAX_BLOCKSIZE - n1) else 0;
    var topUp := if n1 > 0 then [Append(d[..add])] else [];
    var w2 := Writer(w1.blocks, w1.pending + d[..add]);
    OneOp(w1, Append(d[..add]));
    assert n1 == 0 ==> w1.pending + d[..add] == w1.pending;
    assert OpsOk(w1, topUp) && ApplyOps(w1, topUp) == w2;
    var second := if n1 + add >= MAX_BLOCKSIZE then [HandOver] else [];
    var w3 := if |w2.pending| >= MAX_BLOCKSIZE then Flush(w2) else w2;
    OneOp(w2, HandOver);
    assert OpsOk(w2, second) && ApplyOps(w2, second) == w3;
    AfterTopUp(w1, w3, d, add);
    ChunkOpsRight(w3, d[add..]);
    ApplyOpsAppend(w2, second, ChunkOps(d[add..]));
    ApplyOpsAppend(w1, topUp, second + ChunkOps(d[add..]));
    ApplyOpsAppend(w, first, topUp + (second + ChunkOps(d[add..])));
  }

  lemma {:induction false} PodOpsRight(w: Writer, pods: seq<bytes>)
    requires |w.pending| + |Concat(pods)| <= MAX_BLOCKSIZE
    ensures OpsOk(w, PodOps(pods)) && ApplyOps(w, PodOps(pods)) == Writer(w.blocks, w.pending + Concat(pods))
    decreases |pods|
  {
    if pods == [] {
      assert w.pending + [] == w.pending;
    } else {
      PodOpsRight(Writer(w.blocks, w.pending + pods[0]), pods[1..]);
      Assoc(w.pending, pods[0], Concat(pods[1..]));
      assert ([Append(pods[0])] + PodOps(pods[1..]))[1..] == PodOps(pods[1..]);
    }
  }

  /** The thread's steps amount to the write request. */
  lemma ItemOpsRight(w: Writer, it: Item)
    requires |w.pending| <= MAX_BLOCKSIZE && ItemOk(it)
    ensures var ops := ItemOps(|w.pending|, it); OpsOk(w, ops) && ApplyOps(w, ops) == Write(w, it)
  {
    match it
    case Data(d) => DataOpsRight(w, d);
    case Run(pods) =>
      RunEffect(w, pods);
      var first := if |w.pending| > MIN_BLOCKSIZE then [HandOver] else [];
      var w1 := if |w.pending| > MIN_BLOCKSIZE then Flush(w) else w;
      OneOp(w, HandOver);
      assert [] + Concat(pods) == Concat(pods);
      PodOpsRight(w1, pods);
      ApplyOpsAppend(w, first, PodOps(pods));
  }

  /** All steps of a script that ends with `finish`. */
  function ScriptOps(w: Writer, items: seq<Item>): seq<Op>
    requires ItemsOk(items)
    decreases |items|
  {
    if items == [] || |w.pending| > MAX_BLOCKSIZE then [HandOver]
    else ItemOps(|w.pending|, items[0]) + ScriptOps(Write(w, items[0]), items[1..])
  }

  lemma {:induction false} ScriptOpsRight(w: Writer, items: seq<Item>)
    requires ItemsOk(items) && WriterOk(w)
    ensures OpsOk(w, ScriptOps(w, items)) && ApplyOps(w, ScriptOps(w, items)) == Flush(WriteAll(w, items))
    decreases |items|
  {
    if items == [] {
      OneOp(w, HandOver);
    } else {
      ItemOpsRight(w, items[0]);
      WriteKeepsOk(w, items[0]);
      ScriptOpsRight(Write(w, items[0]), items[1..]);
      ApplyOpsAppend(w, ItemOps(|w.pending|, items[0]), ScriptOps(Write(w, items[0]), items[1..]));
    }
  }
}
