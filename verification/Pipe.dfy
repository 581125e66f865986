/** Who wrote what: the history of a pipe, and the part of it that comes from below an exec point. */
module PipeLogs {
  import opened LinearBuffers
  import opened ProcTree

  /** Bytes taken from one process; `recorded` is false if the recorders were not told. */
  datatype Chunk = Chunk(proc: int, data: seq<Byte>, recorded: bool)

  function Bytes(log: seq<Chunk>): seq<Byte> {
    if log == [] then [] else Bytes(log[..|log| - 1]) + log[|log| - 1].data
  }

  lemma BytesNext(log: seq<Chunk>, c: Chunk)
    ensures Bytes(log + [c]) == Bytes(log) + c.data
  {
    assert (log + [c])[..|log|] == log;
  }

  /** Of `incoming`, all but `rest` was taken from process `p`, in order, and the recorders were told. */
  ghost predicate Took(before: seq<Chunk>, now: seq<Chunk>, p: int, incoming: seq<Byte>, rest: seq<Byte>) {
    && before <= now && |rest| <= |incoming| && incoming[|incoming| - |rest|..] == rest
    && Bytes(now) == Bytes(before) + incoming[..|incoming| - |rest|]
    && forall i :: |before| <= i < |now| ==> now[i].proc == p && now[i].recorded
  }

  lemma TookNothing(log: seq<Chunk>, p: int, incoming: seq<Byte>)
    ensures Took(log, log, p, incoming, incoming)
  {
  }

  lemma TookOne(log: seq<Chunk>, p: int, incoming: seq<Byte>, k: nat)
    requires k <= |incoming|
    ensures Took(log, log + [Chunk(p, incoming[..k], true)], p, incoming, incoming[k..])
  {
    BytesNext(log, Chunk(p, incoming[..k], true));
  }

  lemma TookMore(a: seq<Chunk>, b: seq<Chunk>, c: seq<Chunk>, p: int, incoming: seq<Byte>, rest: seq<Byte>,
                 last: seq<Byte>)
    requires Took(a, b, p, incoming, rest) && Took(b, c, p, rest, last)
    ensures Took(a, c, p, incoming, last)
  {
    var k, m := |incoming| - |rest|, |rest| - |last|;
    assert incoming[..k] + rest[..m] == incoming[..k + m];
  }

  ghost predicate InTree(parent: seq<int>, log: seq<Chunk>) {
    Tree(parent) && forall i :: 0 <= i < |log| ==> IsProc(parent, log[i].proc)
  }

  /** What the processes at or below `q` wrote, in order. */
  ghost function Below(parent: seq<int>, log: seq<Chunk>, q: int): seq<Byte>
    requires InTree(parent, log)
  {
    if log == [] then []
    else
      var c := log[|log| - 1];
      Below(parent, log[..|log| - 1], q) + if AtOrAbove(parent, q, c.proc) then c.data else []
  }

  /** The same, without what the recorders were not told. */
  ghost function Told(parent: seq<int>, log: seq<Chunk>, q: int): seq<Byte>
    requires InTree(parent, log)
  {
    if log == [] then []
    else
      var c := log[|log| - 1];
      Told(parent, log[..|log| - 1], q) + if c.recorded && AtOrAbove(parent, q, c.proc) then c.data else []
  }

  ghost predicate Untold(parent: seq<int>, log: seq<Chunk>, q: int, i: nat)
    requires InTree(parent, log) && i < |log|
  {
    !log[i].recorded && log[i].data != [] && AtOrAbove(parent, q, log[i].proc)
  }

  /** The recorders know all that was written below them exactly if everything there was told. */
  lemma {:induction false} ToldIsBelowIff(parent: seq<int>, log: seq<Chunk>, q: int)
    requires InTree(parent, log)
    ensures Told(parent, log, q) == Below(parent, log, q) <==> forall i :: 0 <= i < |log| ==> !Untold(parent, log, q, i)
    ensures |Told(parent, log, q)| <= |Below(parent, log, q)|
  {
    if log != [] {
      var n := |log| - 1;
      ToldIsBelowIff(parent, log[..n], q);
      assert forall i :: 0 <= i < n ==> Untold(parent, log[..n], q, i) == Untold(parent, log, q, i);
      var t, b := Told(parent, log[..n], q), Below(parent, log[..n], q);
      if Untold(parent, log, q, n) {
        assert |Told(parent, log, q)| < |Below(parent, log, q)|;
      } else {
        var x := if AtOrAbove(parent, q, log[n].proc) then log[n].data else [];
        assert Told(parent, log, q) == t + x && Below(parent, log, q) == b + x;
        assert t == (t + x)[..|t|] && b == (b + x)[..|b|];
      }
    }
  }

  lemma ToldNext(parent: seq<int>, log: seq<Chunk>, c: Chunk, q: int)
    requires InTree(parent, log) && IsProc(parent, c.proc)
    ensures InTree(parent, log + [c])
    ensures Told(parent, log + [c], q) ==
      Told(parent, log, q) + if c.recorded && AtOrAbove(parent, q, c.proc) then c.data else []
  {
    assert (log + [c])[..|log|] == log;
  }

  lemma {:induction false} GrowTold(parent: seq<int>, log: seq<Chunk>, q: int, r: int)
    requires InTree(parent, log) && Tree(parent + [q])
    ensures InTree(parent + [q], log)
    ensures Told(parent + [q], log, r) == Told(parent, log, r)
  {
    if log != [] {
      GrowTold(parent, log[..|log| - 1], q, r);
      AboveInLargerTree(parent, parent + [q], r, log[|log| - 1].proc);
    }
  }

  /** Nothing was written below a process that is new. */
  lemma {:induction false} NewHasWrittenNothing(parent: seq<int>, log: seq<Chunk>, r: int)
    requires InTree(parent, log) && forall i :: 0 <= i < |log| ==> log[i].proc < r
    ensures Told(parent, log, r) == []
  {
    if log != [] {
      NewHasWrittenNothing(parent, log[..|log| - 1], r);
      var p := log[|log| - 1].proc;
      if AtOrAbove(parent, r, p) { AboveIsOlder(parent, r, p); }
    }
  }
}

/**
 * A pipe of the intercepted programs, routed through the supervisor: data from several fd1 ends is
 * recorded and forwarded to fd0, with a buffer in between when fd0 would block.
 */
module Pipes {
  import opened LinearBuffers
  import opened PipeLogs
  import opened ProcTree
  import opened Recorders

  datatype PipeOpResult = WouldBlock | Fd0Epipe | Fd1Eof | Success | Finished

  /** An fd1 end, reopened for one exec'ed process. */
  datatype PipeEnd = PipeEnd(proc: int, recorders: seq<PipeRecorder>)

  class Pipe {
    const buf: LinearBuffer
    const maxInlineBlobSize: nat
    var finished: bool
    var ends: map<int, PipeEnd>
    var proc2recorders: map<int, seq<PipeRecorder>>
    var sendOnlyMode: bool
    /** A process still holds a reference to the fd1 side. */
    var fd1Held: bool
    /** What epoll watches: fd1 ends for reading, fd0 for writing. */
    var watchedFd1s: set<int>
    var fd0Watched: bool

    /** The exec tree. */
    var parent: seq<int>

    /** The history, what reached fd0, all recorders ever created, and those still in use. */
    ghost var log: seq<Chunk>
    ghost var delivered: seq<Byte>
    ghost var all: set<PipeRecorder>
    ghost var inUse: set<PipeRecorder>

    /** What reached fd0 and then the buffer is all that was taken, in order; what finish() could not send stays. */
    ghost predicate Conserved()
      reads `log, `delivered, buf, buf.buffer
    {
      buf.Valid() && delivered + buf.Contents() == Bytes(log)
    }

    ghost predicate WatchesRightEnds()
      reads `finished, `ends, `sendOnlyMode, `watchedFd1s, `fd0Watched, buf
    {
      if finished then watchedFd1s == {} && !fd0Watched && ends == map[]
      else
        && (sendOnlyMode ==> buf.length > 0)
        && fd0Watched == sendOnlyMode
        && watchedFd1s == if sendOnlyMode then {} else ends.Keys
    }

    // ----------------------------------------------------------------------------------------
    // Recording.
    // ----------------------------------------------------------------------------------------

    /** The recorders of a process are those of the exec points at or above it. */
    ghost predicate RecordersOf(p: int, rs: seq<PipeRecorder>)
      requires Tree(parent) && IsProc(parent, p)
      reads `parent, `all
    {
      && Distinct(rs)
      && (forall r :: r in rs ==> r in all)
      && forall r :: r in all ==> (r in rs <==> AtOrAbove(parent, r.forProc, p))
    }

    /** A recorder that was never deactivated holds exactly what was written below its exec point. */
    ghost predicate Holds(r: PipeRecorder)
      requires InTree(parent, log)
      reads `parent, `log, `inUse, r
    {
      if r in inUse then r.Active() && r.Intact() && r.Contents() == Told(parent, log, r.forProc) else r.deactivated
    }

    /** The recorders of every end and process are the right ones. */
    ghost predicate Entered()
      reads `parent, `log, `proc2recorders, `ends, `all, `inUse
    {
      && InTree(parent, log) && inUse <= all
      && (forall p :: p in proc2recorders ==> IsProc(parent, p) && RecordersOf(p, proc2recorders[p]))
      && (forall fd :: fd in ends ==>
           ends[fd].proc in proc2recorders && ends[fd].recorders == proc2recorders[ends[fd].proc])
      && (forall r :: r in all ==> IsProc(parent, r.forProc))
    }

    ghost predicate Nested()
      reads `parent, `log, `proc2recorders, `ends, `all, `inUse, all
    {
      Entered() && forall r :: r in all ==> Holds(r)
    }

    constructor (maxInlineBlobSize: nat, parent: seq<int>)
      requires Tree(parent)
      ensures Conserved() && WatchesRightEnds() && Nested() && fresh(buf) && fresh(buf.buffer)
      ensures !finished && !sendOnlyMode && fd1Held && log == [] && delivered == [] && buf.length == 0
      ensures this.parent == parent && ends == map[] && proc2recorders == map[] && all == {} && inUse == {}
    {
      buf := new LinearBuffer();
      this.maxInlineBlobSize, this.parent := maxInlineBlobSize, parent;
      finished, sendOnlyMode, fd1Held, watchedFd1s, fd0Watched := false, false, true, {}, false;
      ends, proc2recorders, log, delivered, all, inUse := map[], map[], [], [], {}, {};
    }

    method SetSendOnlyMode(mode: bool)
      requires !finished && (mode ==> buf.length > 0)
      requires fd0Watched == sendOnlyMode && watchedFd1s == if sendOnlyMode then {} else ends.Keys
      modifies `sendOnlyMode, `watchedFd1s, `fd0Watched
      ensures sendOnlyMode == mode && WatchesRightEnds()
    {
      if mode != sendOnlyMode {
        if mode {
          watchedFd1s := watchedFd1s - ends.Keys;
          fd0Watched := true;
        } else {
          watchedFd1s := watchedFd1s + ends.Keys;
          fd0Watched := false;
        }
        sendOnlyMode := mode;
      }
    }

    /** One write(), which may take any part of the buffer, block, or fail. */
    method WriteOnce() returns (r: PipeOpResult)
      requires !finished && Conserved() && WatchesRightEnds() && buf.length > 0
      modifies `sendOnlyMode, `watchedFd1s, `fd0Watched, `delivered, buf
      ensures Conserved() && WatchesRightEnds() && old(delivered) <= delivered
      ensures buf.buffer == old(buf.buffer) && buf.length <= old(buf.length)
      ensures r == Success || r == WouldBlock || r == Fd0Epipe
      ensures r == Success ==> buf.length < old(buf.length)
      ensures r == WouldBlock ==> sendOnlyMode
    {
      var sent: int :| -1 <= sent <= buf.length && sent != 0;
      if sent == -1 {
        if * {
          SetSendOnlyMode(true);
          return WouldBlock;
        }
        return Fd0Epipe;
      }
      Sent(sent);
      if buf.length == 0 && sendOnlyMode {
        SetSendOnlyMode(false);
      }
      return Success;
    }

    method Sent(n: nat)
      requires !finished && Conserved() && 0 < n <= buf.length
      modifies `delivered, buf
      ensures Conserved() && old(delivered) <= delivered
      ensures buf.buffer == old(buf.buffer) && buf.length == old(buf.length) - n
    {
      delivered := delivered + buf.Contents()[..n];
      buf.Discard(n);
    }

    method WriteAll() returns (r: PipeOpResult)
      requires !finished && Conserved() && WatchesRightEnds()
      modifies `sendOnlyMode, `watchedFd1s, `fd0Watched, `delivered, buf
      ensures Conserved() && WatchesRightEnds() && old(delivered) <= delivered
      ensures buf.buffer == old(buf.buffer)
      ensures r == Success || r == WouldBlock || r == Fd0Epipe
      ensures r == Success ==> buf.length == 0 && !sendOnlyMode
      ensures r == WouldBlock ==> sendOnlyMode
    {
      while buf.length > 0
        invariant Conserved() && WatchesRightEnds() && buf.buffer == old(buf.buffer) && old(delivered) <= delivered
        decreases buf.length
      {
        r := WriteOnce();
        if r != Success {
          return;
        }
      }
      return Success;
    }

    /** Send what is buffered. */
    method SendBuf() returns (r: PipeOpResult)
      requires !finished && Conserved() && WatchesRightEnds() && Nested()
      modifies `sendOnlyMode, `watchedFd1s, `fd0Watched, `delivered, buf
      ensures Conserved() && WatchesRightEnds() && Nested() && old(delivered) <= delivered
      ensures buf.buffer == old(buf.buffer)
      ensures r == Success || r == WouldBlock || r == Fd0Epipe
      ensures r == Success ==> buf.length == 0 && !sendOnlyMode
      ensures r == WouldBlock ==> sendOnlyMode
    {
      r := WriteAll();
    }

    // ----------------------------------------------------------------------------------------
    // Taking data.
    // ----------------------------------------------------------------------------------------

    /** The recorder already holds what the next chunk brings. */
    ghost predicate HoldsNext(r: PipeRecorder, c: Chunk)
      requires InTree(parent, log) && IsProc(parent, c.proc)
      reads `parent, `log, `inUse, r
    {
      if r in inUse then
        r.Active() && r.Intact() && r.Contents() == Told(parent, log, r.forProc) +
          if c.recorded && AtOrAbove(parent, r.forProc, c.proc) then c.data else []
      else r.deactivated
    }

    ghost method Advance(c: Chunk)
      requires Entered() && IsProc(parent, c.proc) && forall r :: r in all ==> HoldsNext(r, c)
      modifies `log
      ensures Nested() && log == old(log) + [c]
    {
      forall r | r in all ensures Told(parent, log + [c], r.forProc) ==
        Told(parent, log, r.forProc) + if c.recorded && AtOrAbove(parent, r.forProc, c.proc) then c.data else []
      {
        ToldNext(parent, log, c, r.forProc);
      }
      log := log + [c];
    }

    /** Record data that came from process `p`. */
    method Record(p: int, rs: seq<PipeRecorder>, data: seq<Byte>, fromUnixPipe: bool)
      requires Nested() && IsProc(parent, p) && RecordersOf(p, rs) && data != []
      requires fromUnixPipe ==> exists i :: 0 <= i < |rs| && !rs[i].deactivated
      modifies `log, all
      ensures Nested() && log == old(log) + [Chunk(p, data, true)]
    {
      assert forall i :: 0 <= i < |rs| ==> rs[i] in rs && Holds(rs[i]);
      if fromUnixPipe {
        RecordDataFromUnixPipe(rs, data);
      } else {
        RecordDataFromBuffer(rs, data);
      }
      forall r | r in all ensures HoldsNext(r, Chunk(p, data, true)) {
        assert old(Holds(r)) && if r in rs then Appended(r, data) else Same(r);
      }
      Advance(Chunk(p, data, true));
    }

    ghost method Unrecorded(p: int, rs: seq<PipeRecorder>, data: seq<Byte>)
      requires Nested() && IsProc(parent, p) && RecordersOf(p, rs) && forall i :: 0 <= i < |rs| ==> rs[i].deactivated
      modifies `log
      ensures Nested() && log == old(log) + [Chunk(p, data, true)]
    {
      Advance(Chunk(p, data, true));
    }

    /** tee() leaves the data on fd1 for the recorders to take; without recorders splice() takes it. */
    method PassOn(fd1: int, data: seq<Byte>, active: bool)
      requires !finished && fd1 in ends && buf.length == 0 && Conserved() && Nested() && data != []
      requires active <==> exists i :: 0 <= i < |ends[fd1].recorders| && !ends[fd1].recorders[i].deactivated
      modifies `log, `delivered, all
      ensures Conserved() && Nested()
      ensures log == old(log) + [Chunk(ends[fd1].proc, data, true)] && delivered == old(delivered) + data
    {
      BytesNext(log, Chunk(ends[fd1].proc, data, true));
      delivered := delivered + data;
      if active {
        Record(ends[fd1].proc, ends[fd1].recorders, data, true);
      } else {
        Unrecorded(ends[fd1].proc, ends[fd1].recorders, data);
      }
    }

    /** With an empty buffer, pass data on until tee() or splice() give up. */
    method FastForward(fd1: int, incoming: seq<Byte>) returns (rest: seq<Byte>)
      requires !finished && fd1 in ends && buf.length == 0 && Conserved() && WatchesRightEnds() && Nested()
      modifies `log, `delivered, all
      ensures Conserved() && WatchesRightEnds() && Nested() && old(delivered) <= delivered
      ensures Took(old(log), log, ends[fd1].proc, incoming, rest)
    {
      rest := incoming;
      TookNothing(log, ends[fd1].proc, incoming);
      while rest != []
        invariant Conserved() && Nested() && old(delivered) <= delivered
        invariant Took(old(log), log, ends[fd1].proc, incoming, rest)
        decreases |rest|
      {
        var active := HasActiveRecorder(ends[fd1].recorders);
        var sent: int :| 0 <= sent <= |rest|;
        if sent == 0 {
          break;
        }
        ghost var before := log;
        TookOne(log, ends[fd1].proc, rest, sent);
        PassOn(fd1, rest[..sent], active);
        TookMore(old(log), before, log, ends[fd1].proc, incoming, rest, rest[sent..]);
        rest := rest[sent..];
      }
    }

    /** Read from what is incoming; any part of it may be there for the first read. */
    method ReadToBuffer(incoming: seq<Byte>) returns (received: nat, data: seq<Byte>)
      requires buf.Valid() && incoming != [] && Nested()
      modifies buf, buf.buffer
      ensures 0 < received <= |incoming| && data == incoming[..received] && Nested()
      ensures buf.Valid() && buf.Contents() == old(buf.Contents()) + data
      ensures buf.buffer == old(buf.buffer) || fresh(buf.buffer)
    {
      var secondFails: bool := *;
      var there: int :| 0 < there <= |incoming|;
      ghost var taken;
      received, taken := buf.ReadAll(incoming[..there], incoming[there..], secondFails);
      assert incoming[..there] + incoming[there..] == incoming;
      data := buf.Last(received);
    }

    /** Read what there is into the buffer, and record it. */
    method ReadAndRecord(fd1: int, incoming: seq<Byte>) returns (rest: seq<Byte>)
      requires !finished && fd1 in ends && incoming != [] && Conserved() && WatchesRightEnds() && Nested()
      modifies `log, buf, buf.buffer, all
      ensures Conserved() && WatchesRightEnds() && Nested()
      ensures buf.buffer == old(buf.buffer) || fresh(buf.buffer)
      ensures |rest| < |incoming| && Took(old(log), log, ends[fd1].proc, incoming, rest)
    {
      ghost var before := buf.Contents();
      var received, data := ReadToBuffer(incoming);
      assert delivered + (before + data) == (delivered + before) + data;
      TookOne(log, ends[fd1].proc, incoming, received);
      Record(ends[fd1].proc, ends[fd1].recorders, data, false);
      rest := incoming[received..];
    }

    /** Pass on what can be, then read one round to the buffer. */
    method TakeRound(fd1: int, incoming: seq<Byte>) returns (rest: seq<Byte>, over: bool)
      requires !finished && fd1 in ends && Conserved() && WatchesRightEnds() && Nested()
      modifies `delivered, `log, buf, buf.buffer, all
      ensures Conserved() && WatchesRightEnds() && Nested() && old(delivered) <= delivered
      ensures buf.buffer == old(buf.buffer) || fresh(buf.buffer)
      ensures Took(old(log), log, ends[fd1].proc, incoming, rest)
      ensures if over then rest == [] else |rest| < |incoming|
    {
      rest := incoming;
      TookNothing(log, ends[fd1].proc, incoming);
      if buf.length == 0 {
        rest := FastForward(fd1, incoming);
      }
      over := rest == [];
      if !over {
        ghost var before, left := log, rest;
        rest := ReadAndRecord(fd1, rest);
        TookMore(old(log), before, log, ends[fd1].proc, incoming, left, rest);
      }
    }

    /** Take one round of data and try to send it. */
    method ForwardRound(fd1: int, incoming: seq<Byte>) returns (rest: seq<Byte>, over: bool, r: PipeOpResult)
      requires !finished && fd1 in ends && Conserved() && WatchesRightEnds() && Nested()
      modifies `sendOnlyMode, `watchedFd1s, `fd0Watched, `delivered, `log, buf, buf.buffer, all
      ensures Conserved() && WatchesRightEnds() && Nested() && old(delivered) <= delivered
      ensures buf.buffer == old(buf.buffer) || fresh(buf.buffer)
      ensures Took(old(log), log, ends[fd1].proc, incoming, rest)
      ensures if over then rest == [] else |rest| < |incoming| && r != Fd1Eof
      ensures r != Finished && (r == Success ==> buf.length == 0 && !sendOnlyMode) && (r == WouldBlock ==> sendOnlyMode)
    {
      rest, over := TakeRound(fd1, incoming);
      r := SendBuf();
      if over {
        var wouldBlock: bool := *;
        r := if wouldBlock then r else Fd1Eof;
      }
    }

    /**
     * Forward from one fd1 end.  `incoming` is all that can be read there before the read reports
     * that there is nothing, or the end; what was not read is returned.
     */
    method Forward(fd1: int, drain: bool, incoming: seq<Byte>) returns (r: PipeOpResult, rest: seq<Byte>)
      requires Conserved() && WatchesRightEnds() && Nested() && (finished || fd1 in ends)
      modifies `sendOnlyMode, `watchedFd1s, `fd0Watched, `delivered, `log, buf, buf.buffer, all
      ensures Conserved() && WatchesRightEnds() && Nested() && old(delivered) <= delivered
      ensures buf.buffer == old(buf.buffer) || fresh(buf.buffer)
      ensures r == Finished <==> finished
      ensures if finished then log == old(log) && rest == incoming
        else Took(old(log), log, ends[fd1].proc, incoming, rest)
      ensures !finished ==> rest == [] || |rest| < |incoming|
      ensures !finished && (r == Fd1Eof || (drain && r != Fd0Epipe)) ==> rest == []
      ensures r == Success ==> buf.length == 0 && !sendOnlyMode
      ensures r == WouldBlock ==> sendOnlyMode
    {
      if finished {
        return Finished, incoming;
      }
      var over;
      rest, over, r := ForwardRound(fd1, incoming);
      while !over && drain && r != Fd0Epipe
        invariant Conserved() && WatchesRightEnds() && Nested() && old(delivered) <= delivered
        invariant buf.buffer == old(buf.buffer) || fresh(buf.buffer)
        invariant r != Finished && (r == Success ==> buf.length == 0 && !sendOnlyMode) &&
          (r == WouldBlock ==> sendOnlyMode)
        invariant Took(old(log), log, ends[fd1].proc, incoming, rest) && (rest == [] || |rest| < |incoming|)
        invariant if over then rest == [] else r != Fd1Eof
        decreases |rest|, !over
      {
        ghost var before, left := log, rest;
        rest, over, r := ForwardRound(fd1, rest);
        TookMore(old(log), before, log, ends[fd1].proc, incoming, left, rest);
      }
    }

    // ----------------------------------------------------------------------------------------
    // Closing.
    // ----------------------------------------------------------------------------------------

    method DropAllEnds()
      requires !finished && Conserved() && WatchesRightEnds() && Nested()
      modifies `ends, `watchedFd1s
      ensures Conserved() && WatchesRightEnds() && Nested() && ends == map[]
    {
      watchedFd1s, ends := watchedFd1s - ends.Keys, map[];
    }

    /** Close all ends after a last attempt to send; sending is retried only while that succeeds. */
    method Finish()
      requires Conserved() && WatchesRightEnds() && Nested()
      modifies `finished, `ends, `sendOnlyMode, `watchedFd1s, `fd0Watched, `delivered, buf
      ensures finished && Conserved() && WatchesRightEnds() && Nested()
      ensures buf.buffer == old(buf.buffer) && old(delivered) <= delivered
      ensures old(finished) ==>
        sendOnlyMode == old(sendOnlyMode) && delivered == old(delivered) && buf.Contents() == old(buf.Contents())
    {
      if finished {
        return;
      }
      DropAllEnds();
      var r := SendBuf();
      CloseFd0();
    }

    method CloseFd0()
      requires !finished && WatchesRightEnds() && ends == map[]
      modifies `finished, `fd0Watched
      ensures finished && WatchesRightEnds()
    {
      fd0Watched, finished := false, true;
    }

    method DropEnd(fd: int)
      requires !finished && Conserved() && WatchesRightEnds() && Nested()
      modifies `ends, `watchedFd1s
      ensures Conserved() && WatchesRightEnds() && Nested() && ends == old(ends) - {fd}
    {
      ends, watchedFd1s := ends - {fd}, watchedFd1s - {fd};
    }

    method CloseOneFd1(fd: int)
      requires !finished && Conserved() && WatchesRightEnds() && Nested()
      modifies `finished, `ends, `sendOnlyMode, `watchedFd1s, `fd0Watched, `delivered, buf
      ensures Conserved() && WatchesRightEnds() && Nested() && buf.buffer == old(buf.buffer)
      ensures ends == old(ends) - {fd} && old(delivered) <= delivered
      ensures finished ==> ends == map[] && old(buf.length) == 0
    {
      if fd !in ends {
        return;
      }
      DropEnd(fd);
      if ends == map[] {
        if buf.length == 0 {
          if !fd1Held {
            Finish();
          }
        } else {
          SetSendOnlyMode(true);
        }
      }
    }

    // ----------------------------------------------------------------------------------------
    // Events.
    // ----------------------------------------------------------------------------------------

    /** What was taken in one event is a part of `incoming`, from process `p`: some of it, or there was none. */
    ghost predicate TookSome(before: seq<Chunk>, p: int, incoming: seq<Byte>)
      reads `log
    {
      exists rest :: Took(before, log, p, incoming, rest) && (rest == [] || |rest| < |incoming|)
    }

    /** An fd1 end became readable or was hung up. */
    method Fd1ReadCb(fd1: int, ready: bool, incoming: seq<Byte>)
      requires !finished && fd1 in watchedFd1s && Conserved() && WatchesRightEnds() && Nested()
      modifies `finished, `ends, `sendOnlyMode, `watchedFd1s, `fd0Watched, `delivered, `log, buf, buf.buffer, all
      ensures Conserved() && WatchesRightEnds() && Nested() && old(delivered) <= delivered
      ensures buf.buffer == old(buf.buffer) || fresh(buf.buffer)
      ensures if ready then TookSome(old(log), old(ends[fd1].proc), incoming) else log == old(log)
      ensures finished || ends == old(ends) || ends == old(ends) - {fd1}
      ensures fd1 in ends ==> ready
      ensures ready && !finished && fd1 !in ends ==> Took(old(log), log, old(ends[fd1].proc), incoming, [])
    {
      if !ready {
        CloseOneFd1(fd1);
        return;
      }
      var r, rest := Forward(fd1, false, incoming);
      match r {
        case WouldBlock => assert sendOnlyMode;
        case Fd0Epipe => Finish();
        case Fd1Eof => CloseOneFd1(fd1);
        case Success => assert !sendOnlyMode;
      }
    }

    /** The last descriptor of an end was closed by the process: read all that is left there. */
    method DrainFd1End(fd1: int, incoming: seq<Byte>)
      requires Conserved() && WatchesRightEnds() && Nested()
      modifies `finished, `ends, `sendOnlyMode, `watchedFd1s, `fd0Watched, `delivered, `log, buf, buf.buffer, all
      ensures Conserved() && WatchesRightEnds() && Nested() && old(delivered) <= delivered
      ensures buf.buffer == old(buf.buffer) || fresh(buf.buffer)
      ensures finished || ends == old(ends) || ends == old(ends) - {fd1}
      ensures if old(!finished && fd1 in ends)
        then TookSome(old(log), old(ends[fd1].proc), incoming) &&
             (!finished ==> Took(old(log), log, old(ends[fd1].proc), incoming, []))
        else finished == old(finished) && sendOnlyMode == old(sendOnlyMode) && ends == old(ends) && log == old(log) &&
             delivered == old(delivered) && buf.Contents() == old(buf.Contents())
    {
      if finished || fd1 !in ends {
        return;
      }
      var r, rest := Forward(fd1, true, incoming);
      match r {
        case Fd1Eof => CloseOneFd1(fd1);
        case Fd0Epipe => Finish();
        case _ =>
      }
    }

    /** Fd0 became writable, or its reader is gone. */
    method Fd0WriteCb(ready: bool)
      requires !finished && fd0Watched && Conserved() && WatchesRightEnds() && Nested()
      modifies `finished, `ends, `sendOnlyMode, `watchedFd1s, `fd0Watched, `delivered, buf
      ensures Conserved() && WatchesRightEnds() && Nested() && buf.buffer == old(buf.buffer)
      ensures old(delivered) <= delivered && (finished || ends == old(ends)) && (!ready ==> finished)
    {
      if !ready {
        Finish();
        return;
      }
      var r := SendBuf();
      match r {
        case WouldBlock => assert sendOnlyMode;
        case Fd0Epipe => Finish();
        case Success =>
          if ends == map[] && !fd1Held {
            Finish();
          }
      }
    }

    /** The last process that could write is gone; the reference is dropped after the attempt to finish. */
    method ReleaseFd1()
      requires Conserved() && WatchesRightEnds() && Nested()
      modifies `finished, `ends, `sendOnlyMode, `watchedFd1s, `fd0Watched, `delivered, `fd1Held, buf
      ensures Conserved() && WatchesRightEnds() && Nested() && buf.buffer == old(buf.buffer) && !fd1Held
      ensures old(delivered) <= delivered && ends == old(ends)
      ensures finished <==> old(finished) || (old(ends) == map[] && old(buf.length) == 0)
      ensures old(!finished && ends == map[] && buf.length > 0) ==> sendOnlyMode
      ensures old(finished || ends != map[]) ==> sendOnlyMode == old(sendOnlyMode)
      ensures old(finished || ends != map[] || buf.length > 0) ==>
        delivered == old(delivered) && buf.Contents() == old(buf.Contents())
    {
      if !finished && ends == map[] {
        if buf.length == 0 {
          Finish();
        } else {
          SetSendOnlyMode(true);
        }
      }
      fd1Held := false;
    }

    // ----------------------------------------------------------------------------------------
    // Processes.
    // ----------------------------------------------------------------------------------------

    /** The exec tree grows. */
    method NewProcess(up: int)
      requires Ref(parent, up) && Nested()
      modifies `parent
      ensures Nested() && parent == old(parent) + [up]
    {
      ghost var before := parent;
      parent := parent + [up];
      forall r | r in all ensures InTree(parent, log) && Told(parent, log, r.forProc) == Told(before, log, r.forProc) {
        GrowTold(before, log, up, r.forProc);
      }
      forall r, p | r in all && p in proc2recorders
        ensures AtOrAbove(parent, r.forProc, p) == AtOrAbove(before, r.forProc, p)
      {
        AboveInLargerTree(before, parent, r.forProc, p);
      }
    }

    /**
     * A pipe reaches a process through its exec parent: that one has it reopened too, or is the
     * creator's side, with no recorders at or above it.
     */
    ghost predicate CanInheritFrom(up: int)
      requires Tree(parent) && Ref(parent, up)
      reads `parent, `proc2recorders, `all
    {
      up == NONE || up in proc2recorders || forall r :: r in all ==> !AtOrAbove(parent, r.forProc, up)
    }

    /** Every recorder is the last one in the entry of its process. */
    ghost predicate Known()
      reads `proc2recorders, `all
    {
      AllKnown(all, proc2recorders)
    }

    static ghost predicate AllKnown(all: set<PipeRecorder>, entries: map<int, seq<PipeRecorder>>) {
      forall r :: r in all ==> r.forProc in entries && IsOwn(r, entries[r.forProc])
    }

    static predicate IsOwn(r: PipeRecorder, rs: seq<PipeRecorder>) {
      rs != [] && rs[|rs| - 1] == r
    }

    /** Decide whether the process can have inherited the pipe. */
    method CanReach(up: int) returns (ok: bool)
      requires Nested() && Known() && Ref(parent, up)
      ensures ok <==> CanInheritFrom(up)
    {
      if up in proc2recorders {
        return true;
      }
      var q := up;
      while q != NONE
        invariant Ref(parent, q) && AtOrAbove(parent, q, up)
        invariant forall r :: r in all && AtOrAbove(parent, r.forProc, up) ==> AtOrAbove(parent, r.forProc, q)
        decreases q
      {
        if q in proc2recorders && proc2recorders[q] != [] {
          ghost var r := proc2recorders[q][0];
          AboveTransitive(parent, r.forProc, q, up);
          return false;
        }
        NextAbove(q, up);
        q := parent[q];
      }
      return true;
    }

    lemma NextAbove(q: int, up: int)
      requires Nested() && Known() && Ref(parent, up) && IsProc(parent, q) && AtOrAbove(parent, q, up)
      requires q in proc2recorders ==> proc2recorders[q] == []
      ensures AtOrAbove(parent, parent[q], up)
      ensures forall r :: r in all && AtOrAbove(parent, r.forProc, q) ==> AtOrAbove(parent, r.forProc, parent[q])
    {
      assert AtOrAbove(parent, parent[q], q);
      AboveTransitive(parent, parent[q], q, up);
    }

    /** A lookup adds an empty entry if there is none. */
    static function WithEntry(entries: map<int, seq<PipeRecorder>>, up: int): map<int, seq<PipeRecorder>> {
      if up == NONE || up in entries then entries else entries[up := []]
    }

    static lemma NewIsKnown(all: set<PipeRecorder>, own: set<PipeRecorder>, entries: map<int, seq<PipeRecorder>>,
                            up: int, p: int, rs: seq<PipeRecorder>)
      requires AllKnown(all, entries) && p !in WithEntry(entries, up)
      requires forall r :: r in own ==> r.forProc == p && IsOwn(r, rs)
      ensures AllKnown(all, WithEntry(entries, up)) && AllKnown(all + own, WithEntry(entries, up)[p := rs])
    {
    }

    /** The recorders of the exec parent. */
    method RecordersOfParent(up: int) returns (rs: seq<PipeRecorder>)
      requires Nested() && Ref(parent, up) && CanInheritFrom(up)
      modifies `proc2recorders
      ensures Nested() && Distinct(rs) && (up != NONE ==> RecordersOf(up, rs))
      ensures proc2recorders == WithEntry(old(proc2recorders), up)
      ensures forall r :: r in rs <==> r in all && AtOrAbove(parent, r.forProc, up)
    {
      if up == NONE {
        rs := [];
      } else {
        if up !in proc2recorders {
          proc2recorders := proc2recorders[up := []];
        }
        rs := proc2recorders[up];
      }
    }

    /** A recorder for the newest process, below which nothing was written yet. */
    method StartRecorder(p: int) returns (r: PipeRecorder)
      requires Nested() && 0 <= p == |parent| - 1 && p !in proc2recorders
      requires forall i :: 0 <= i < |log| ==> log[i].proc < p
      modifies `all, `inUse
      ensures Nested() && fresh(r) && r.forProc == p && all == old(all) + {r} && inUse == old(inUse) + {r}
    {
      r := new PipeRecorder(p, maxInlineBlobSize);
      NewHasWrittenNothing(parent, log, p);
      forall q | q in proc2recorders ensures !AtOrAbove(parent, p, q) {
        if AtOrAbove(parent, p, q) { AboveIsOlder(parent, p, q); }
      }
      all, inUse := all + {r}, inUse + {r};
      forall x | x in all ensures Holds(x) {
        assert x != r ==> x in old(all) && old(Holds(x));
      }
    }

    method AddFd1AndProc(fd1: int, p: int, rs: seq<PipeRecorder>)
      requires !finished && WatchesRightEnds() && Nested() && fd1 !in ends
      requires IsProc(parent, p) && p !in proc2recorders && RecordersOf(p, rs)
      modifies `proc2recorders, `ends, `watchedFd1s
      ensures WatchesRightEnds() && Nested()
      ensures ends == old(ends)[fd1 := PipeEnd(p, rs)] && proc2recorders == old(proc2recorders)[p := rs]
    {
      ends := ends[fd1 := PipeEnd(p, rs)];
      if !sendOnlyMode {
        watchedFd1s := watchedFd1s + {fd1};
      }
      proc2recorders := proc2recorders[p := rs];
    }

    /** The recorders of a new process: those of its exec parent, and its own unless it can not be shortcut. */
    method RecordersOfNew(p: int, up: int, canShortcut: bool) returns (rs: seq<PipeRecorder>)
      requires Nested() && p == |parent| && Ref(parent, up) && CanInheritFrom(up)
      modifies `parent, `proc2recorders, `all, `inUse
      ensures Nested() && parent == old(parent) + [up] && p !in proc2recorders && RecordersOf(p, rs)
      ensures canShortcut ==> rs != [] && fresh(rs[|rs| - 1]) && rs[|rs| - 1].forProc == p
      ensures all == old(all) + (if canShortcut then {rs[|rs| - 1]} else {})
      ensures inUse == old(inUse) + (if canShortcut then {rs[|rs| - 1]} else {})
      ensures proc2recorders == WithEntry(old(proc2recorders), up)
    {
      rs := RecordersOfParent(up);
      NewProcess(up);
      forall r | r in all ensures AtOrAbove(parent, r.forProc, p) <==> r in rs {
        AboveInLargerTree(old(parent), parent, r.forProc, up);
      }
      if canShortcut {
        var r := StartRecorder(p);
        rs := rs + [r];
      }
    }

    /** Reopen the pipe for a new process. */
    method AcceptExecChild(p: int, up: int, canShortcut: bool, fd1: int)
      returns (ghost rs: seq<PipeRecorder>, ghost own: set<PipeRecorder>)
      requires !finished && Conserved() && WatchesRightEnds() && Nested() && Known() && fd1 !in ends
      requires p == |parent| && Ref(parent, up) && CanInheritFrom(up)
      modifies `parent, `proc2recorders, `ends, `watchedFd1s, `all, `inUse
      ensures Conserved() && WatchesRightEnds() && Nested() && Known()
      ensures parent == old(parent) + [up] && ends == old(ends)[fd1 := PipeEnd(p, rs)]
      ensures proc2recorders == WithEntry(old(proc2recorders), up)[p := rs]
      ensures all == old(all) + own && inUse == old(inUse) + own
      ensures (own == {} <==> !canShortcut) && forall r :: r in own ==> fresh(r) && r.forProc == p
    {
      var recorders := RecordersOfNew(p, up, canShortcut);
      rs := recorders;
      own := if canShortcut then {rs[|rs| - 1]} else {};
      NewIsKnown(old(all), own, old(proc2recorders), up, p, rs);
      AddFd1AndProc(fd1, p, recorders);
    }

    // ----------------------------------------------------------------------------------------
    // Replayed data.
    // ----------------------------------------------------------------------------------------

    /** Data that did not come through an fd1 end; the recorders have not been told yet. */
    method Enqueue(p: int, data: seq<Byte>)
      requires !finished && Conserved() && WatchesRightEnds() && Nested() && IsProc(parent, p)
      modifies `log, buf, buf.buffer
      ensures Conserved() && WatchesRightEnds() && Nested()
      ensures buf.buffer == old(buf.buffer) || fresh(buf.buffer)
      ensures log == old(log) + [Chunk(p, data, false)]
    {
      BytesNext(log, Chunk(p, data, false));
      assert delivered + (buf.Contents() + data) == (delivered + buf.Contents()) + data;
      Advance(Chunk(p, data, false));
      if data != [] {
        buf.Add(data);
      }
    }

    method AddDataFromBuffer(p: int, data: seq<Byte>)
      requires !finished && Conserved() && WatchesRightEnds() && Nested() && IsProc(parent, p)
      modifies `sendOnlyMode, `watchedFd1s, `fd0Watched, `delivered, `log, buf, buf.buffer
      ensures Conserved() && WatchesRightEnds() && Nested() && old(delivered) <= delivered
      ensures buf.buffer == old(buf.buffer) || fresh(buf.buffer)
      ensures log == old(log) + [Chunk(p, data, false)]
    {
      Enqueue(p, data);
      if data != [] {
        var r := SendBuf();
      }
    }

    /** Tell the recorders of a process what was replayed for it. */
    method RecordReplayed(p: int, rs: seq<PipeRecorder>, data: seq<Byte>)
      requires Nested() && IsProc(parent, p) && RecordersOf(p, rs) && data != []
      requires log != [] && log[|log| - 1] == Chunk(p, data, false)
      modifies `log, all
      ensures Nested() && log == old(log)[|old(log)| - 1 := Chunk(p, data, true)]
    {
      ghost var before := log[..|log| - 1];
      forall r | r in all ensures Told(parent, log, r.forProc) == Told(parent, before, r.forProc) {}
      log := before;
      Record(p, rs, data, false);
    }

    /** What a process wrote is replayed, and bubbled up except when it was stored compressed. */
    method ReplayData(p: int, rs: seq<PipeRecorder>, data: seq<Byte>, compressed: bool)
      requires !finished && Conserved() && WatchesRightEnds() && Nested() && data != []
      requires IsProc(parent, p) && RecordersOf(p, rs)
      modifies `sendOnlyMode, `watchedFd1s, `fd0Watched, `delivered, `log, buf, buf.buffer, all
      ensures Conserved() && WatchesRightEnds() && Nested() && old(delivered) <= delivered
      ensures buf.buffer == old(buf.buffer) || fresh(buf.buffer)
      ensures log == old(log) + [Chunk(p, data, !compressed)]
    {
      AddDataFromBuffer(p, data);
      if !compressed {
        RecordReplayed(p, rs, data);
      }
    }

    /** A process is shortcut. */
    method ReplayOutput(p: int, up: int, data: seq<Byte>, compressed: bool)
      requires !finished && Conserved() && WatchesRightEnds() && Nested() && data != []
      requires p == |parent| && Ref(parent, up) && CanInheritFrom(up) && Known()
      modifies `parent, `proc2recorders, `all, `inUse, `sendOnlyMode, `watchedFd1s, `fd0Watched, `delivered, `log,
        buf, buf.buffer, all
      ensures Conserved() && WatchesRightEnds() && Nested() && Known() && old(delivered) <= delivered
      ensures parent == old(parent) + [up] && log == old(log) + [Chunk(p, data, !compressed)]
      ensures buf.buffer == old(buf.buffer) || fresh(buf.buffer)
      ensures all == old(all) && inUse == old(inUse) && proc2recorders == WithEntry(old(proc2recorders), up)
    {
      var rs := RecordersOfNew(p, up, false);
      NewIsKnown(all, {}, old(proc2recorders), up, p, rs);
      ReplayData(p, rs, data, compressed);
    }

    /** The exec point of a recorder can not be shortcut any more. */
    method DeactivateRecorder(r: PipeRecorder)
      requires Nested() && r in inUse
      modifies `inUse, r
      ensures Nested() && inUse == old(inUse) - {r}
    {
      assert Holds(r);
      r.Deactivate();
      inUse := inUse - {r};
    }

    /** What a recorder in use holds is all that its subtree wrote, exactly if all of that was told. */
    lemma RecorderIsExactIff(r: PipeRecorder)
      requires Nested() && r in inUse
      ensures r.Intact()
      ensures r.Contents() == Below(parent, log, r.forProc) <==>
        forall i :: 0 <= i < |log| ==> !Untold(parent, log, r.forProc, i)
    {
      assert Holds(r);
      ToldIsBelowIff(parent, log, r.forProc);
    }
  }
}
