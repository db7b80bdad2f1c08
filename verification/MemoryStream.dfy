/** The in-memory streams: a writer over a buffer that grows by doubling, and a reader over a fixed input. */
module MemoryStream {
  import opened Bytes

  const INITIAL_CAPACITY: nat := 1024
  const HALF_OF_SIZE_T: nat := 0x7FFF_FFFF_FFFF_FFFF

  function Doubled(grown: nat, required: nat): nat
    requires grown > 0
    decreases required - grown
  {
    if grown >= required then grown
    else if grown > HALF_OF_SIZE_T then required
    else Doubled(2 * grown, required)
  }

  /** The capacity after `required` bytes have been asked for. */
  function Grown(size: nat, required: nat): nat {
    if required <= size then size
    else Doubled(if size > 0 then size else INITIAL_CAPACITY, required)
  }

  lemma {:induction false} DoubledBounds(grown: nat, required: nat)
    requires grown > 0
    ensures required <= Doubled(grown, required)
    ensures grown < required ==> grown < Doubled(grown, required) < 2 * required
    decreases required - grown
  {
    if grown >= required || grown > HALF_OF_SIZE_T {
    } else {
      DoubledBounds(2 * grown, required);
    }
  }

  /** Enough room, and never as much as twice what is needed unless it is the first kilobyte. */
  lemma GrownBounds(size: nat, required: nat)
    ensures size <= Grown(size, required) && required <= Grown(size, required)
    ensures required <= size ==> Grown(size, required) == size
    ensures required > size ==> Grown(size, required) < 2 * required || Grown(size, required) == INITIAL_CAPACITY
  {
    if required > size {
      DoubledBounds(if size > 0 then size else INITIAL_CAPACITY, required);
    }
  }

  function Zeros(n: nat): (z: bytes)
    ensures |z| == n
  {
    seq(n, _ => 0)
  }

  /** erased_memory_writer and the buffer behind it. */
  class MemoryWriter {
    var buffer: array<byte>
    var position: nat

    ghost predicate Valid()
      reads this
    {
      position <= buffer.Length
    }

    constructor ()
      ensures Valid() && fresh(buffer) && position == 0 && buffer.Length == 0
    {
      buffer := new byte[0];
      position := 0;
    }

    method EnsureCapacity(additional: nat)
      requires Valid()
      modifies this
      ensures position == old(position)
      ensures buffer.Length == Grown(old(buffer.Length), position + additional)
      ensures position + additional <= buffer.Length
      ensures if position + additional <= old(buffer.Length) then buffer == old(buffer) else fresh(buffer)
      ensures buffer[..] == old(buffer[..]) + Zeros(buffer.Length - old(buffer.Length))
    {
      var required := position + additional;
      GrownBounds(buffer.Length, required);
      if required > buffer.Length {
        var grown := if buffer.Length > 0 then buffer.Length else INITIAL_CAPACITY;
        while grown < required
          invariant grown > 0
          invariant Doubled(grown, required) == Grown(buffer.Length, required)
          decreases required - grown
        {
          if grown > HALF_OF_SIZE_T {
            grown := required;
            break;
          }
          grown := grown * 2;
        }
        Resize(grown);
      } else {
        assert buffer[..] == buffer[..] + Zeros(0);
      }
    }

    /** What resizing a vector of bytes does. */
    method Resize(size: nat)
      modifies this
      ensures position == old(position) && fresh(buffer)
      ensures buffer.Length == size
      ensures size >= old(buffer.Length) ==> buffer[..] == old(buffer[..]) + Zeros(size - old(buffer.Length))
      ensures size <= old(buffer.Length) ==> buffer[..] == old(buffer[..size])
    {
      var kept := buffer;
      buffer := new byte[size](i requires 0 <= i reads kept => if i < kept.Length then kept[i] else 0);
      assert size >= kept.Length ==> buffer[..] == kept[..] + Zeros(size - kept.Length);
      assert size <= kept.Length ==> buffer[..] == kept[..size];
    }

    method Write(data: bytes)
      requires Valid()
      modifies this, buffer
      ensures Valid() && position == old(position) + |data|
      ensures if position <= old(buffer.Length) then buffer == old(buffer) else fresh(buffer)
      ensures buffer.Length == Grown(old(buffer.Length), position)
      ensures buffer.Length >= old(buffer.Length)
      ensures buffer[..] == Overlay(old(buffer[..]) + Zeros(buffer.Length - old(buffer.Length)), old(position), data)
    {
      EnsureCapacity(|data|);
      GrownBounds(old(buffer.Length), position + |data|);
      ghost var before := buffer[..];
      if |data| > 0 {
        var at := position;
        CopyIn(buffer, at, data);
        position := position + |data|;
      } else {
        assert before == Overlay(before, position, data);
      }
    }

    /** False for a position behind the end of the buffer, where the source throws. */
    method SeekP(pos: nat) returns (ok: bool)
      requires Valid()
      modifies this
      ensures Valid() && buffer == old(buffer)
      ensures ok == (pos <= buffer.Length)
      ensures position == if ok then pos else old(position)
    {
      ok := pos <= buffer.Length;
      if ok {
        position := pos;
      }
    }
  }

  /** Everything in front of the position, and what a write does to it. */
  lemma WrittenPrefix(buffer: bytes, pad: nat, at: nat, data: bytes)
    requires at + |data| <= |buffer| + pad && at <= |buffer|
    ensures Overlay(buffer + Zeros(pad), at, data)[..at + |data|] == buffer[..at] + data
  {
  }

  /** memory_reader */
  class MemoryReader {
    const buffer: bytes
    var position: nat

    ghost predicate Valid()
      reads this
    {
      position <= |buffer|
    }

    /** What has not been read yet. */
    function Unread(): bytes
      requires Valid()
      reads this
    {
      buffer[position..]
    }

    constructor (data: bytes)
      ensures Valid() && buffer == data && position == 0
    {
      buffer := data;
      position := 0;
    }

    /** As many of the wanted bytes as there are. */
    method Read(n: nat) returns (data: bytes)
      requires Valid()
      modifies this
      ensures Valid()
      ensures |data| == if n <= |old(Unread())| then n else |old(Unread())|
      ensures data + Unread() == old(Unread())
    {
      var available := |buffer| - position;
      var actual := if n < available then n else available;
      data := [];
      if actual > 0 {
        data := buffer[position..position + actual];
        position := position + actual;
      }
    }

    method SeekG(pos: nat)
      requires Valid()
      modifies this
      ensures Valid() && position == if pos < |buffer| then pos else |buffer|
    {
      position := if pos < |buffer| then pos else |buffer|;
    }
  }
}
