/** The recorders of what the processes below an exec point write to a pipe. */
module Recorders {
  import opened LinearBuffers
  import opened Options

  class PipeRecorder {
    const forProc: int
    const maxInlineBlobSize: nat
    var deactivated: bool
    var abandoned: bool
    var useMemory: bool
    /** The allocation; its length is the capacity. */
    var memBuffer: seq<Byte>
    /** The backing file, once it is open. */
    var file: Option<seq<Byte>>
    var offset: nat

    predicate Active()
      reads this
    {
      !deactivated && !abandoned
    }

    /** Nothing of what was appended is lost. */
    ghost predicate Intact()
      reads this
    {
      if useMemory then file.None? && offset <= |memBuffer|
      else file.Some? && |file.value| == offset
    }

    ghost function Contents(): (s: seq<Byte>)
      requires Intact()
      reads this
      ensures |s| == offset
    {
      if useMemory then memBuffer[..offset] else file.value
    }

    constructor (forProc: int, maxInlineBlobSize: nat)
      ensures this.forProc == forProc && this.maxInlineBlobSize == maxInlineBlobSize
      ensures Active() && Intact() && Contents() == []
    {
      this.forProc, this.maxInlineBlobSize := forProc, maxInlineBlobSize;
      deactivated, abandoned, useMemory, memBuffer, file, offset := false, false, true, [], None, 0;
    }

    /** The reallocation is asked for only below the threshold, and only for a buffer that is too small. */
    predicate Reallocates(len: nat)
      reads this
    {
      useMemory && offset + len <= maxInlineBlobSize && |memBuffer| < offset + len
    }

    /**
     * Chooses between memory and file. If a reallocation fails, the buffer is freed before it is
     * written to the file: what was recorded survives exactly if it did not fail or there was nothing.
     */
    method PrepareForAppend(len: nat, reallocSucceeds: bool) returns (toMemory: bool)
      requires Active() && Intact() && len > 0
      modifies this
      ensures Active() && offset == old(offset)
      ensures Intact() <==> reallocSucceeds || !old(Reallocates(len)) || offset == 0
      ensures Intact() ==> Contents() == old(Contents())
      ensures toMemory == useMemory && (toMemory ==> offset + len <= |memBuffer|)
      ensures toMemory <==>
        old(useMemory) && offset + len <= maxInlineBlobSize && (reallocSucceeds || !old(Reallocates(len)))
      ensures file.Some? || toMemory
    {
      if useMemory {
        if offset + len <= maxInlineBlobSize {
          var needed := offset + len;
          if |memBuffer| < needed {
            if !reallocSucceeds {
              useMemory, memBuffer := false, [];
            } else {
              memBuffer := memBuffer + seq(needed - |memBuffer|, _ => 0);
            }
          }
          if useMemory {
            return true;
          }
        } else {
          useMemory := false;
        }
      }
      if file.None? {
        file := Some([]);
        if memBuffer != [] && offset > 0 {
          file, memBuffer := Some(memBuffer[..offset]), [];
        }
      }
      return false;
    }

    /** All three ways to add data end here, once the bytes are at hand. */
    method AddData(data: seq<Byte>)
      requires Active() && Intact() && data != []
      modifies this
      ensures Active() && Intact() && Contents() == old(Contents()) + data
      ensures useMemory ==> offset <= maxInlineBlobSize
    {
      var toMemory := PrepareForAppend(|data|, true);
      if toMemory {
        memBuffer := memBuffer[..offset] + data + memBuffer[offset + |data|..];
      } else {
        file := Some(file.value + data);
      }
      offset := offset + |data|;
    }

    /** Copy from another recorder, or from a cached file, at an offset. */
    method AddDataFromRegularFd(source: seq<Byte>, at: nat, len: nat)
      requires Active() && Intact() && len > 0 && at + len <= |source|
      modifies this
      ensures Active() && Intact() && Contents() == old(Contents()) + source[at..at + len]
    {
      AddData(source[at..at + len]);
    }

    method Deactivate()
      requires !deactivated
      modifies this
      ensures deactivated && abandoned == old(abandoned)
    {
      file, memBuffer, deactivated := None, [], true;
    }

    /** What is stored: nothing if nothing was seen, the bytes inline if they stayed in memory, else a blob. */
    method Store() returns (isEmpty: bool, inlined: Option<seq<Byte>>, blob: Option<seq<Byte>>)
      requires Active() && Intact()
      modifies this
      ensures abandoned
      ensures isEmpty ==> old(Contents()) == [] && inlined.None? && blob.None?
      ensures !isEmpty ==> inlined.Some? != blob.Some?
      ensures inlined.Some? ==> inlined.value == old(Contents()) && old(useMemory)
      ensures blob.Some? ==> blob.value == old(Contents()) && !old(useMemory)
    {
      isEmpty, inlined, blob := false, None, None;
      if useMemory && offset > 0 {
        inlined := Some(memBuffer[..offset]);
      } else if file.Some? {
        blob, file := file, None;
      } else {
        isEmpty := true;
      }
      abandoned := true;
    }
  }

  // ------------------------------------------------------------------------------------------
  // Recording to several recorders at once.
  // ------------------------------------------------------------------------------------------

  predicate Distinct(rs: seq<PipeRecorder>) {
    forall i, j :: 0 <= i < j < |rs| ==> rs[i] != rs[j]
  }

  /** Every recorder that is still active is intact, and none is abandoned. */
  ghost predicate AllIntact(rs: seq<PipeRecorder>)
    reads rs
  {
    forall i :: 0 <= i < |rs| && !rs[i].deactivated ==> rs[i].Active() && rs[i].Intact()
  }

  method HasActiveRecorder(rs: seq<PipeRecorder>) returns (found: bool)
    ensures found <==> exists i :: 0 <= i < |rs| && !rs[i].deactivated
  {
    for i := 0 to |rs|
      invariant forall j :: 0 <= j < i ==> rs[j].deactivated
    {
      if !rs[i].deactivated {
        return true;
      }
    }
    return false;
  }

  /** What recording does to one recorder. */
  twostate predicate Appended(r: PipeRecorder, data: seq<Byte>)
    reads r
  {
    && r.deactivated == old(r.deactivated)
    && (!r.deactivated ==> old(r.Intact()) && r.Active() && r.Intact() && r.Contents() == old(r.Contents()) + data)
  }

  twostate predicate Same(r: PipeRecorder)
    reads r
  {
    && r.deactivated == old(r.deactivated) && r.abandoned == old(r.abandoned)
    && r.useMemory == old(r.useMemory) && r.memBuffer == old(r.memBuffer)
    && r.file == old(r.file) && r.offset == old(r.offset)
  }

  method RecordDataFromBuffer(rs: seq<PipeRecorder>, data: seq<Byte>)
    requires Distinct(rs) && AllIntact(rs) && data != []
    modifies rs
    ensures forall i :: 0 <= i < |rs| ==> Appended(rs[i], data)
  {
    for i := 0 to |rs|
      invariant forall j :: 0 <= j < i ==> Appended(rs[j], data)
      invariant forall j :: i <= j < |rs| ==> Same(rs[j])
    {
      if !rs[i].deactivated {
        rs[i].AddData(data);
      }
    }
  }

  /** The last bytes a recorder holds. */
  ghost predicate EndsWith(r: PipeRecorder, data: seq<Byte>)
    reads r
  {
    r.Intact() && |data| <= r.offset && r.Contents()[r.offset - |data|..] == data
  }

  method CopyFrom(first: PipeRecorder, r: PipeRecorder, len: nat, ghost data: seq<Byte>)
    requires first != r && len == |data| > 0 && EndsWith(first, data) && r.Active() && r.Intact()
    modifies r
    ensures Appended(r, data)
  {
    if first.useMemory {
      assert first.Contents()[first.offset - len..] == first.memBuffer[first.offset - len..first.offset];
      r.AddData(first.memBuffer[first.offset - len..first.offset]);
    } else {
      r.AddDataFromRegularFd(first.file.value, first.offset - len, len);
    }
  }

  /** The first active recorder takes the data from the pipe; the others copy what it has just recorded. */
  method RecordDataFromUnixPipe(rs: seq<PipeRecorder>, data: seq<Byte>)
    requires Distinct(rs) && AllIntact(rs) && data != []
    requires exists i :: 0 <= i < |rs| && !rs[i].deactivated
    modifies rs
    ensures forall i :: 0 <= i < |rs| ==> Appended(rs[i], data)
  {
    var firstActive := 0;
    while rs[firstActive].deactivated
      invariant 0 <= firstActive < |rs| && forall j :: 0 <= j < firstActive ==> rs[j].deactivated
      modifies {}
      decreases |rs| - firstActive
    {
      firstActive := firstActive + 1;
    }
    rs[firstActive].AddData(data);
    CopyToRest(rs, firstActive, data);
  }

  method CopyToRest(rs: seq<PipeRecorder>, firstActive: nat, data: seq<Byte>)
    requires Distinct(rs) && AllIntact(rs) && data != []
    requires firstActive < |rs| && EndsWith(rs[firstActive], data)
    modifies rs[firstActive + 1..]
    ensures forall i :: firstActive < i < |rs| ==> Appended(rs[i], data)
  {
    var first := rs[firstActive];
    for i := firstActive + 1 to |rs|
      invariant EndsWith(first, data)
      invariant forall j :: firstActive < j < i ==> Appended(rs[j], data)
      invariant forall j :: i <= j < |rs| ==> Same(rs[j])
    {
      if !rs[i].deactivated {
        CopyFrom(first, rs[i], |data|, data);
      }
    }
  }
}
