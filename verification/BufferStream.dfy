/** The growable in-memory stream (streams.cpp:163-228, streams.h:70-113). */
module BufferStream {
  import opened Bytes

  datatype Whence = SeekSet | SeekCur | SeekEnd

  /** What a stream is to its users: the bytes and a cursor. */
  datatype Model = Model(bytes: seq<byte>, cursor: nat) {
    predicate Valid() { cursor <= |bytes| }
  }

  datatype Op =
    | Write(data: seq<byte>)
    | Read(count: nat)
    | Seek(offset: int, whence: Whence)
    | Replace(contents: Option<seq<byte>>)
    | Truncate

  /** Overwrite what is behind the cursor, then extend. */
  function Written(m: Model, data: seq<byte>): (r: Model)
    requires m.Valid()
    ensures r.Valid()
  {
    var end := m.cursor + |data|;
    Model(m.bytes[..m.cursor] + data + (if end < |m.bytes| then m.bytes[end..] else []), end)
  }

  function Taken(m: Model, count: nat): seq<byte>
    requires m.Valid()
  {
    m.bytes[m.cursor..Min(m.cursor + count, |m.bytes|)]
  }

  /** Where a seek is meant to go. */
  function Target(m: Model, offset: int, whence: Whence): int {
    match whence
    case SeekSet => offset
    case SeekCur => m.cursor + offset
    case SeekEnd => |m.bytes| - offset
  }

  /** Where it goes: the position is a 64-bit number of which the low 32 bits are tested for a sign. */
  function Sought(m: Model, offset: int, whence: Whence): (p: nat)
    ensures p <= |m.bytes|
  {
    var position := Target(m, offset, whence) % 0x1_0000_0000_0000_0000;
    if position % 0x1_0000_0000 >= 0x8000_0000 then 0
    else Min(position, |m.bytes|)
  }

  /** The nearest position of the stream. */
  function Clamped(m: Model, target: int): nat {
    if target < 0 then 0 else Min(target, |m.bytes|)
  }

  /** The exact condition: a seek goes to the position nearest to its target if and only if the target
      is negative, the stream is empty, or bit 31 of the target is clear. */
  lemma SeekClampsIff(m: Model, offset: int, whence: Whence)
    requires m.Valid() && Int32(offset) && |m.bytes| < 0x1_0000_0000_0000
    ensures var target := Target(m, offset, whence);
            Sought(m, offset, whence) == Clamped(m, target)
            <==> target < 0 || |m.bytes| == 0 || target % 0x1_0000_0000 < 0x8000_0000
  {
    var target := Target(m, offset, whence);
    if target >= 0 {
      assert target % 0x1_0000_0000_0000_0000 == target;
    }
  }

  /** Witness: from the end of a stream of one byte, the largest step forward ends at its start. */
  lemma SeekForwardGoesBack()
    ensures Sought(Model([0], 1), 0x7FFF_FFFF, SeekCur) == 0
    ensures Clamped(Model([0], 1), Target(Model([0], 1), 0x7FFF_FFFF, SeekCur)) == 1
  {
  }

  /** A seek to a position within a stream of less than 2^31 bytes is exact. */
  lemma SeekWithin(m: Model, offset: int, whence: Whence)
    requires m.Valid() && Int32(offset) && |m.bytes| < 0x8000_0000
    requires 0 <= Target(m, offset, whence) <= |m.bytes|
    ensures Sought(m, offset, whence) == Target(m, offset, whence)
  {
  }

  function Step(m: Model, op: Op): (r: Model)
    requires m.Valid()
    ensures r.Valid()
  {
    match op
    case Write(data) => Written(m, data)
    case Read(count) => m.(cursor := m.cursor + |Taken(m, count)|)
    case Seek(offset, whence) => m.(cursor := Sought(m, offset, whence))
    case Replace(data) => Model(if data.Some? then data.value else [], 0)
    case Truncate => Model([], 0)
  }

  function Steps(m: Model, ops: seq<Op>): (r: Model)
    requires m.Valid()
    ensures r.Valid()
    decreases |ops|
  {
    if ops == [] then m else Steps(Step(m, ops[0]), ops[1..])
  }

  /** Two writes in a row are one write of the concatenation. */
  lemma WriteTwice(m: Model, a: seq<byte>, b: seq<byte>)
    requires m.Valid()
    ensures Written(Written(m, a), b) == Written(m, a + b)
  {
    var m1, m2 := Written(Written(m, a), b), Written(m, a + b);
    var mid := m.bytes[..m.cursor] + a;
    assert Written(m, a).bytes[..m.cursor + |a|] == mid;
    assert mid + b == m.bytes[..m.cursor] + (a + b);
    assert m1.bytes == m2.bytes;
  }

  /** What was written is read back after seeking to where it was written. */
  lemma WriteSeekRead(m: Model, data: seq<byte>)
    requires m.Valid() && |Written(m, data).bytes| < 0x8000_0000
    ensures var w := Step(Step(m, Write(data)), Seek(m.cursor, SeekSet));
            w.cursor == m.cursor && Taken(w, |data|) == data
  {
    SeekWithin(Written(m, data), m.cursor, SeekSet);
  }

  /** The bytes after a write, told by their parts. */
  lemma WrittenIs(m: Model, data: seq<byte>, bytes: seq<byte>)
    requires m.Valid() && |bytes| == if m.cursor + |data| > |m.bytes| then m.cursor + |data| else |m.bytes|
    requires bytes[..m.cursor] == m.bytes[..m.cursor] && bytes[m.cursor..m.cursor + |data|] == data
    requires forall i :: m.cursor + |data| <= i < |m.bytes| ==> bytes[i] == m.bytes[i]
    ensures bytes == Written(m, data).bytes
  {
    var end := m.cursor + |data|;
    assert bytes == bytes[..m.cursor] + bytes[m.cursor..end] + bytes[end..];
    assert bytes[end..] == if end < |m.bytes| then m.bytes[end..] else [];
  }

  const FIRST_ALLOC := 4096

  class BufferStream {
    var buffer: array<byte>
    var position: nat
    var size: nat
    /** The bytes copied by reallocations since the buffer was last replaced. */
    ghost var copied: nat

    ghost predicate Valid()
      reads this, buffer
    {
      position <= size <= buffer.Length && copied <= buffer.Length
    }

    ghost function Contents(): (m: Model)
      requires Valid()
      reads this, buffer
      ensures m.Valid()
    {
      Model(buffer[..size], position)
    }

    constructor ()
      ensures Valid() && fresh(buffer) && Contents() == Model([], 0)
    {
      buffer := new byte[0];
      position, size, copied := 0, 0, 0;
    }

    method ReadBytes(count: nat) returns (data: seq<byte>)
      requires Valid()
      modifies this
      ensures Valid() && buffer == old(buffer)
      ensures data == Taken(old(Contents()), count)
      ensures Contents() == Step(old(Contents()), Read(count))
    {
      var n := if position + count > size then size - position else count;
      data := buffer[position..position + n];
      assert data == Taken(Contents(), count);
      position := position + n;
    }

    /** Make room for `needed` bytes by doubling. */
    method Grow(needed: nat)
      requires Valid() && needed > buffer.Length
      modifies this
      ensures Valid() && fresh(buffer) && buffer.Length >= needed
      ensures Contents() == old(Contents())
    {
      var bigger := if buffer.Length > 0 then buffer.Length else FIRST_ALLOC;
      while needed > bigger
        invariant bigger > 0
        invariant buffer.Length == 0 || bigger == buffer.Length || bigger >= 2 * buffer.Length
        decreases needed - bigger
      {
        bigger := bigger * 2;
      }
      var newBuffer := new byte[bigger];
      forall i | 0 <= i < size {
        newBuffer[i] := buffer[i];
      }
      assert newBuffer[..size] == buffer[..size];
      copied := copied + size;
      buffer := newBuffer;
    }

    method WriteBytes(data: seq<byte>)
      requires Valid()
      modifies this, buffer
      ensures Valid() && (buffer == old(buffer) || fresh(buffer))
      ensures Contents() == Written(old(Contents()), data)
    {
      hide Written;
      if position + |data| > buffer.Length {
        Grow(position + |data|);
      }
      Overwrite(data);
    }

    /** The write proper, when there is room. */
    method Overwrite(data: seq<byte>)
      requires Valid() && position + |data| <= buffer.Length
      modifies this, buffer
      ensures Valid() && buffer == old(buffer)
      ensures Contents() == Written(old(Contents()), data)
    {
      ghost var before := Contents();
      forall i | 0 <= i < |data| {
        buffer[position + i] := data[i];
      }
      assert buffer[..position] == before.bytes[..position];
      assert buffer[position..position + |data|] == data;
      position := position + |data|;
      if position > size {
        size := position;
      }
      WrittenIs(before, data, buffer[..size]);
    }

    method SeekTo(offset: int, whence: Whence)
      requires Valid() && Int32(offset)
      modifies this
      ensures Valid() && buffer == old(buffer)
      ensures Contents() == Step(old(Contents()), Seek(offset, whence))
    {
      var p := match whence {
        case SeekSet => offset
        case SeekCur => position + offset
        case SeekEnd => size - offset
      };
      position := p % 0x1_0000_0000_0000_0000;
      if position % 0x1_0000_0000 >= 0x8000_0000 {
        position := 0;
      } else if position > size {
        position := size;
      }
    }

    /** set; None is a null pointer. */
    method Set(data: Option<seq<byte>>)
      requires Valid()
      modifies this
      ensures Valid() && fresh(buffer)
      ensures Contents() == Step(old(Contents()), Replace(data))
    {
      if data.Some? {
        var d := data.value;
        buffer := new byte[|d|](i requires 0 <= i < |d| => d[i]);
        assert buffer[..|d|] == d;
        size := |d|;
      } else {
        buffer := new byte[0];
        size := 0;
      }
      position, copied := 0, 0;
    }

    /** steal: the caller's buffer becomes the stream's own. */
    method Steal(data: array<byte>)
      requires Valid()
      modifies this
      ensures Valid() && buffer == data
      ensures Contents() == Step(old(Contents()), Replace(Some(data[..])))
    {
      buffer, size, position, copied := data, data.Length, 0, 0;
      assert buffer[..size] == data[..];
    }

    method Clear()
      requires Valid()
      modifies this
      ensures Valid() && buffer == old(buffer)
      ensures Contents() == Step(old(Contents()), Truncate)
    {
      size, position := 0, 0;
    }

    /** Every run of operations does to the stream what it does to the bytes and the cursor. */
    method Run(ops: seq<Op>)
      requires Valid() && forall k :: 0 <= k < |ops| && ops[k].Seek? ==> Int32(ops[k].offset)
      modifies this, buffer
      ensures Valid() && Contents() == Steps(old(Contents()), ops)
    {
      assert ops[0..] == ops;
      for k := 0 to |ops|
        invariant Valid() && (buffer == old(buffer) || fresh(buffer))
        invariant Steps(Contents(), ops[k..]) == Steps(old(Contents()), ops)
      {
        assert ops[k..][0] == ops[k] && ops[k..][1..] == ops[k + 1..];
        match ops[k] {
          case Write(data) => WriteBytes(data);
          case Read(count) => var data := ReadBytes(count);
          case Seek(offset, whence) => SeekTo(offset, whence);
          case Replace(data) => Set(data);
          case Truncate => Clear();
        }
      }
    }
  }
}
