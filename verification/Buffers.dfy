/** Buffers by identity, and the pools that the threads share them through. */
module Buffers {
  import opened Bytes

  function Slot(mem: seq<bytes>, i: nat): bytes {
    if i < |mem| then mem[i] else []
  }

  function Put(mem: seq<bytes>, i: nat, b: bytes): seq<bytes> {
    if i < |mem| then mem[i := b] else mem
  }

  /** A copy into a buffer; past its end nothing is modelled, and nothing is ever copied there. */
  function Poke(b: bytes, at: nat, data: bytes): bytes {
    if at + |data| <= |b| then Overlay(b, at, data) else b
  }

  /** `try_pop` fails only when the pool is empty; then a buffer is allocated. */
  predicate PickOk(pool: multiset<nat>, pick: Option<nat>) {
    match pick
    case Some(b) => b in pool
    case None => pool == multiset{}
  }

  lemma Poked(b: bytes, at: nat, data: bytes)
    requires at + |data| <= |b|
    ensures |Poke(b, at, data)| == |b|
    ensures Poke(b, at, data)[..at + |data|] == b[..at] + data
  {
  }

  lemma PutLengths(mem: seq<bytes>, x: nat, b: bytes, n: nat)
    requires forall m :: m in mem ==> |m| == n
    requires |b| == n
    ensures forall m :: m in Put(mem, x, b) ==> |m| == n
    ensures forall m :: m in mem + [b] ==> |m| == n
  {
  }

  ghost function AnyOf(pool: multiset<nat>): (pick: Option<nat>)
    ensures PickOk(pool, pick)
  {
    if pool == multiset{} then None
    else
      var b :| b in pool;
      Some(b)
  }

  // ---------- adding up over the tasks ----------

  function Total<T>(ts: seq<T>, f: T -> nat): nat {
    if ts == [] then 0 else f(ts[0]) + Total(ts[1..], f)
  }

  lemma {:induction false} TotalUpdate<T>(ts: seq<T>, i: nat, t: T, f: T -> nat)
    requires i < |ts|
    ensures Total(ts[i := t], f) + f(ts[i]) == Total(ts, f) + f(t)
  {
    var u := ts[i := t];
    if i == 0 {
      assert u[1..] == ts[1..];
    } else {
      assert u[1..] == ts[1..][i - 1 := t];
      TotalUpdate(ts[1..], i - 1, t, f);
    }
  }

  lemma {:induction false} TotalSnoc<T>(ts: seq<T>, t: T, f: T -> nat)
    ensures Total(ts + [t], f) == Total(ts, f) + f(t)
  {
    if ts == [] {
      assert [t][1..] == [];
    } else {
      assert (ts + [t])[1..] == ts[1..] + [t];
      TotalSnoc(ts[1..], t, f);
    }
  }

  lemma {:induction false} TotalAtLeast<T>(ts: seq<T>, i: nat, f: T -> nat)
    requires i < |ts|
    ensures f(ts[i]) <= Total(ts, f)
  {
    if i > 0 {
      TotalAtLeast(ts[1..], i - 1, f);
    }
  }

  /** Two tasks count separately. */
  lemma {:induction false} TotalOfTwo<T>(ts: seq<T>, i: nat, j: nat, f: T -> nat)
    requires i < j < |ts|
    ensures f(ts[i]) + f(ts[j]) <= Total(ts, f)
  {
    if i == 0 {
      TotalAtLeast(ts[1..], j - 1, f);
    } else {
      TotalOfTwo(ts[1..], i - 1, j - 1, f);
    }
  }

  // ---------- who holds a buffer ----------

  datatype Pool = BLOCKS | ZBLOCKS

  function Holding<T>(holds: (T, Pool, nat) -> nat, p: Pool, x: nat): T -> nat {
    t => holds(t, p, x)
  }

  /** How many tasks hold buffer `x` of the pool. */
  function Holders<T>(holds: (T, Pool, nat) -> nat, ts: seq<T>, p: Pool, x: nat): nat {
    Total(ts, Holding(holds, p, x))
  }

  lemma HoldersUpdate<T>(holds: (T, Pool, nat) -> nat, ts: seq<T>, i: nat, t: T, p: Pool, x: nat)
    requires i < |ts|
    ensures Holders(holds, ts[i := t], p, x) + holds(ts[i], p, x) == Holders(holds, ts, p, x) + holds(t, p, x)
  {
    TotalUpdate(ts, i, t, Holding(holds, p, x));
  }

  lemma HoldersSnoc<T>(holds: (T, Pool, nat) -> nat, ts: seq<T>, t: T, p: Pool, x: nat)
    ensures Holders(holds, ts + [t], p, x) == Holders(holds, ts, p, x) + holds(t, p, x)
  {
    TotalSnoc(ts, t, Holding(holds, p, x));
  }

  lemma HoldersAtLeast<T>(holds: (T, Pool, nat) -> nat, ts: seq<T>, i: nat, p: Pool, x: nat)
    requires i < |ts|
    ensures holds(ts[i], p, x) <= Holders(holds, ts, p, x)
  {
    TotalAtLeast(ts, i, Holding(holds, p, x));
  }

  lemma HoldersOfTwo<T>(holds: (T, Pool, nat) -> nat, ts: seq<T>, i: nat, j: nat, p: Pool, x: nat)
    requires i < |ts| && j < |ts| && i != j
    ensures holds(ts[i], p, x) + holds(ts[j], p, x) <= Holders(holds, ts, p, x)
  {
    TotalOfTwo(ts, if i < j then i else j, if i < j then j else i, Holding(holds, p, x));
  }
}
