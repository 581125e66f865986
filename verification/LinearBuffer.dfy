/** A buffer that is appended to at its end and consumed from its start, in one allocation. */
module LinearBuffers {
  newtype Byte = b: int | 0 <= b < 256

  const INITIAL_SIZE := 8 * 1024
  const MOVE_THRESHOLD := 256 * 1024

  class LinearBuffer {
    var buffer: array<Byte>
    var dataStart: nat
    var length: nat

    ghost predicate Valid()
      reads this
    {
      dataStart + length <= buffer.Length
    }

    ghost function Contents(): (s: seq<Byte>)
      requires Valid()
      reads this, buffer
      ensures |s| == length
    {
      buffer[dataStart..dataStart + length]
    }

    constructor ()
      ensures Valid() && fresh(buffer) && Contents() == []
    {
      buffer := new Byte[INITIAL_SIZE](_ => 0);
      dataStart, length := 0, 0;
    }

    /** Make room behind the data: move it to the front if it starts far in, then grow at least twofold. */
    method EnsureSpace(howmuch: nat)
      requires Valid()
      modifies this, buffer
      ensures Valid() && Contents() == old(Contents()) && length == old(length)
      ensures buffer == old(buffer) || fresh(buffer)
      ensures dataStart + length + howmuch <= buffer.Length
      ensures old(buffer.Length) <= buffer.Length && dataStart <= old(dataStart)
    {
      ghost var data := Contents();
      if dataStart > MOVE_THRESHOLD {
        forall i | 0 <= i < length {
          buffer[i] := buffer[dataStart + i];
        }
        assert buffer[0..length] == data;
        dataStart := 0;
      }
      var neededSize := dataStart + length + howmuch;
      if buffer.Length < neededSize {
        var size := if neededSize > buffer.Length * 2 then neededSize else buffer.Length * 2;
        var grown := new Byte[size](_ => 0);
        forall i | 0 <= i < buffer.Length {
          grown[i] := buffer[i];
        }
        assert grown[dataStart..dataStart + length] == buffer[dataStart..dataStart + length];
        buffer := grown;
      }
    }

    /** Append bytes for which there is room; what read() does with what it received. */
    method Put(data: seq<Byte>)
      requires Valid() && dataStart + length + |data| <= buffer.Length
      modifies this, buffer
      ensures Valid() && Contents() == old(Contents()) + data
      ensures buffer == old(buffer) && dataStart == old(dataStart)
    {
      ghost var before := Contents();
      forall i | 0 <= i < |data| {
        buffer[dataStart + length + i] := data[i];
      }
      length := length + |data|;
      assert buffer[dataStart..dataStart + length] == before + data;
    }

    /** Append bytes, making room for them first. */
    method Add(data: seq<Byte>)
      requires Valid()
      modifies this, buffer
      ensures Valid() && Contents() == old(Contents()) + data
      ensures buffer == old(buffer) || fresh(buffer)
    {
      EnsureSpace(|data|);
      Put(data);
    }

    /**
     * Read as much as the descriptor gives: one large read, and if that was a full one, a second of
     * the size that is then readable. `incoming` is readable now, `more` arrives between the reads,
     * and the second read may fail.
     */
    method ReadAll(incoming: seq<Byte>, more: seq<Byte>, secondFails: bool)
      returns (received: nat, ghost data: seq<Byte>)
      requires Valid()
      modifies this, buffer
      ensures Valid() && Contents() == old(Contents()) + data && |data| == received
      ensures data <= incoming || data == incoming + more
      ensures received == 0 <==> incoming == []
      ensures received < |incoming| ==> secondFails && received >= 8 * 1024
      ensures buffer == old(buffer) || fresh(buffer)
    {
      EnsureSpace(8 * 1024);
      var attempt1 := buffer.Length - dataStart - length;
      var chunk := if |incoming| <= attempt1 then incoming else incoming[..attempt1];
      Put(chunk);
      received, data := |chunk|, chunk;
      if received == attempt1 && !secondFails {
        Add(incoming[received..] + more);
        received, data := received + |incoming[received..] + more|, incoming + more;
      }
    }

    /** The bytes that were added last. */
    method Last(howmuch: nat) returns (data: seq<Byte>)
      requires Valid() && howmuch <= length
      ensures data == Contents()[length - howmuch..]
    {
      data := buffer[dataStart + length - howmuch..dataStart + length];
    }

    /** Consume the first bytes. */
    method Discard(howmuch: nat)
      requires Valid() && howmuch <= length
      modifies this
      ensures Valid() && buffer == old(buffer) && Contents() == old(Contents())[howmuch..]
    {
      length := length - howmuch;
      dataStart := if length == 0 then 0 else dataStart + howmuch;
    }
  }
}
