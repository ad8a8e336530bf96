/** A growing byte buffer that always carries one zero byte behind its contents. */
module SafeBuffers {
  import opened Common

  class SafeBuffer {
    var buffer: array<Byte>
    var size: nat

    ghost predicate Valid()
      reads this, buffer
    {
      size > 0 ==> buffer.Length == size + 1 && buffer[size] == 0
    }

    ghost function Contents(): (r: seq<Byte>)
      reads this, buffer
      requires Valid()
      ensures |r| == size
    {
      if size == 0 then [] else buffer[..size]
    }

    constructor ()
      ensures Valid() && Contents() == []
    {
      buffer := new Byte[0];
      size := 0;
    }

    method Store(bytes: seq<Byte>)
      modifies this
      ensures Valid() && Contents() == bytes && fresh(buffer)
    {
      var n := |bytes|;
      buffer := new Byte[n + 1](i => if 0 <= i < n then bytes[i] else 0);
      size := n;
      assert buffer[..n] == bytes;
    }

    method Add(bytes: seq<Byte>)
      requires Valid()
      modifies this
      ensures Valid() && Contents() == old(Contents()) + bytes && fresh(buffer)
    {
      if size == 0 {
        Store(bytes);
        return;
      }
      var newBuffer := new Byte[size + |bytes| + 1](_ => 0);
      forall i | 0 <= i < size {
        newBuffer[i] := buffer[i];
      }
      forall i | 0 <= i < |bytes| {
        newBuffer[size + i] := bytes[i];
      }
      assert newBuffer[..size + |bytes|] == buffer[..size] + bytes;
      buffer := newBuffer;
      size := size + |bytes|;
    }
  }
}
