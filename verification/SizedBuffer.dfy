/** The growing buffer that packets are kept in. */
module SizedBuffers {
  import opened Common

  /** What a write leaves: the bytes given from `offset` on, everything else that was there, and a gap
      of unknown bytes when it starts behind the end. */
  ghost predicate IsWritten(before: seq<Byte>, after: seq<Byte>, offset: nat, bytes: seq<Byte>) {
    && |after| == (if offset + |bytes| > |before| then offset + |bytes| else |before|)
    && after[offset..offset + |bytes|] == bytes
    && forall i | 0 <= i < |before| && !(offset <= i < offset + |bytes|) :: after[i] == before[i]
  }

  lemma WriteAtEndAppends(before: seq<Byte>, after: seq<Byte>, bytes: seq<Byte>)
    requires IsWritten(before, after, |before|, bytes)
    ensures after == before + bytes
  {
    assert after == after[..|before|] + after[|before|..|before| + |bytes|];
  }

  /** A write leaves the bytes of an earlier one that it does not overlap. */
  lemma WritesElsewhereKeep(a: seq<Byte>, b: seq<Byte>, c: seq<Byte>, at: nat, x: seq<Byte>, to: nat, y: seq<Byte>)
    requires IsWritten(a, b, at, x) && IsWritten(b, c, to, y)
    requires at + |x| <= to || to + |y| <= at
    ensures c[at..at + |x|] == x
  {
    assert b[at..at + |x|] == x;
    forall i | 0 <= i < |x| ensures c[at + i] == x[i] {
      assert b[at..at + |x|][i] == b[at + i];
    }
  }

  class SizedBuffer {
    var buffer: array<Byte>
    var size: nat

    ghost predicate Valid()
      reads this
    {
      size == buffer.Length
    }

    ghost function Contents(): (b: seq<Byte>)
      requires Valid()
      reads this, buffer
    {
      buffer[..]
    }

    constructor ()
      ensures Valid() && Contents() == [] && fresh(buffer)
    {
      buffer, size := new Byte[0], 0;
    }

    /** realloc: as much of the old bytes as fits. */
    method Resize(newSize: nat)
      requires Valid()
      modifies this
      ensures Valid() && fresh(buffer) && size == newSize
      ensures forall i | 0 <= i < newSize && i < |old(Contents())| :: Contents()[i] == old(Contents())[i]
    {
      var newBuf := new Byte[newSize];
      var i := 0;
      while i < newSize && i < size
        invariant i <= newSize && i <= size && buffer == old(buffer) && size == old(size)
        invariant newBuf[..i] == buffer[..i]
        invariant buffer[..] == old(buffer[..])
      {
        newBuf[i] := buffer[i];
        i := i + 1;
      }
      ghost var kept := buffer[..i];
      assert newBuf[..i] == kept;
      buffer, size := newBuf, newSize;
    }

    method Write(offset: nat, bytes: seq<Byte>)
      requires Valid()
      modifies this, buffer
      ensures Valid() && (buffer == old(buffer) || fresh(buffer))
      ensures IsWritten(old(Contents()), Contents(), offset, bytes)
    {
      if offset + |bytes| > size {
        Resize(offset + |bytes|);
      }
      ghost var sized := Contents();
      var i := 0;
      while i < |bytes|
        invariant i <= |bytes| && Valid() && size == |sized|
        invariant buffer == old(buffer) || fresh(buffer)
        invariant forall k | 0 <= k < i :: buffer[offset + k] == bytes[k]
        invariant forall k | 0 <= k < size && !(offset <= k < offset + i) :: buffer[k] == sized[k]
      {
        buffer[offset + i] := bytes[i];
        i := i + 1;
      }
    }

    method Append(bytes: seq<Byte>)
      requires Valid()
      modifies this, buffer
      ensures Valid() && (buffer == old(buffer) || fresh(buffer))
      ensures Contents() == old(Contents()) + bytes
    {
      ghost var before := Contents();
      Write(size, bytes);
      WriteAtEndAppends(before, Contents(), bytes);
    }

    /** Only a buffer that exists is emptied first; then it has the bytes given and no others. */
    method Reset(bytes: seq<Byte>)
      requires Valid()
      modifies this
      ensures Valid() && fresh(buffer) && Contents() == bytes
    {
      buffer, size := new Byte[0], 0;
      ghost var before := Contents();
      Write(0, bytes);
      WriteAtEndAppends(before, Contents(), bytes);
    }
  }
}
