/** A pipe under every schedule of what can happen to it. */
module PipeRuns {
  import opened LinearBuffers
  import opened PipeLogs
  import opened Pipes
  import opened ProcTree
  import opened Recorders

  /** `Readable` and `Writable` come from epoll, `Exec`, `Replayed`, `LastClosed` and `Released` from the
      processes; `Over` is the timeout or the end of the creator. */
  datatype Event =
    | Readable(fd1: int, ready: bool, incoming: seq<Byte>)
    | Writable(ready: bool)
    | Exec(up: int, canShortcut: bool, fd1: int)
    | Replayed(up: int, data: seq<Byte>, compressed: bool)
    | LastClosed(fd1: int, incoming: seq<Byte>)
    | Released
    | Disabled(p: int)
    | Over

  // ------------------------------------------------------------------------------------------
  // What an event does.
  // ------------------------------------------------------------------------------------------

  /** The state of a pipe: its mode, the process of each end, the exec tree, the processes that the pipe was reopened
      or looked up for, those with a recorder and those whose recorder is in use, what reached fd0, what is buffered,
      and the history. */
  datatype View = View(finished: bool, sending: bool, held: bool, ends: map<int, int>, parent: seq<int>,
                       reopened: set<int>, recorded: set<int>, inUse: set<int>,
                       delivered: seq<Byte>, buffered: seq<Byte>, log: seq<Chunk>)

  function Start(parent: seq<int>): View {
    View(false, false, true, map[], parent, {}, {}, {}, [], [], [])
  }

  /** Nothing is lost or reordered, and only a pipe with data waits for its reader. */
  ghost predicate Sane(v: View) {
    && InTree(v.parent, v.log) && v.inUse <= v.recorded
    && v.delivered + v.buffered == Bytes(v.log)
    && if v.finished then v.ends == map[] else v.sending ==> v.buffered != []
  }

  /** The ends that are read from. */
  function Watched(v: View): set<int> {
    if v.finished || v.sending then {} else v.ends.Keys
  }

  /** The pipe reaches a process through its exec parent: that one has it too, or no recorder is at or above it. */
  ghost predicate Reaches(v: View, up: int) {
    && Tree(v.parent) && Ref(v.parent, up)
    && (up == NONE || up in v.reopened || forall q :: q in v.recorded ==> !AtOrAbove(v.parent, q, up))
  }

  ghost predicate Accepts(v: View, e: Event) {
    e.Exec? && !v.finished && Reaches(v, e.up) && e.fd1 !in v.ends
  }

  ghost predicate Replays(v: View, e: Event) {
    e.Replayed? && !v.finished && Reaches(v, e.up) && e.data != []
  }

  function Entry(up: int): set<int> {
    if up == NONE then {} else {up}
  }

  /** Data may have been read and sent, and the one end or the whole pipe closed. */
  ghost predicate Moved(v: View, v': View, fd1: int) {
    && v' == v.(finished := v'.finished, sending := v'.sending, ends := v'.ends, delivered := v'.delivered,
                buffered := v'.buffered, log := v'.log)
    && v.delivered <= v'.delivered && (v'.finished || v'.ends == v.ends || v'.ends == v.ends - {fd1})
  }

  /** A part of `incoming` was taken from process `p`: some of it, or there was none. */
  ghost predicate Takes(v: View, v': View, p: int, incoming: seq<Byte>) {
    exists rest :: Took(v.log, v'.log, p, incoming, rest) && (rest == [] || |rest| < |incoming|)
  }

  ghost predicate TakesAll(v: View, v': View, p: int, incoming: seq<Byte>) {
    Took(v.log, v'.log, p, incoming, [])
  }

  /** Data may have been sent. */
  ghost predicate Sends(v: View, v': View) {
    v' == v.(sending := v'.sending, delivered := v'.delivered, buffered := v'.buffered) && v.delivered <= v'.delivered
  }

  ghost predicate ReadStep(v: View, fd1: int, ready: bool, incoming: seq<Byte>, v': View) {
    if fd1 !in Watched(v) then v' == v
    else
      && Moved(v, v', fd1)
      && if ready then
           && Takes(v, v', v.ends[fd1], incoming)
           && (!v'.finished && fd1 !in v'.ends ==> TakesAll(v, v', v.ends[fd1], incoming))
         else v'.log == v.log && fd1 !in v'.ends
  }

  ghost predicate CloseStep(v: View, fd1: int, incoming: seq<Byte>, v': View) {
    if v.finished || fd1 !in v.ends then v' == v
    else
      && Moved(v, v', fd1) && Takes(v, v', v.ends[fd1], incoming)
      && (!v'.finished ==> TakesAll(v, v', v.ends[fd1], incoming))
  }

  ghost predicate WriteStep(v: View, ready: bool, v': View) {
    if v.finished || !v.sending then v' == v
    else if v'.finished then Sends(v.(finished := true, ends := map[]), v')
    else ready && Sends(v, v')
  }

  /** A new process with an end of its own, and a recorder if it can be shortcut. */
  function Reopened(v: View, up: int, canShortcut: bool, fd1: int): View {
    var p := |v.parent|;
    var own := if canShortcut then {p} else {};
    v.(parent := v.parent + [up], ends := v.ends[fd1 := p], reopened := v.reopened + Entry(up) + {p},
       recorded := v.recorded + own, inUse := v.inUse + own)
  }

  ghost predicate ExecStep(v: View, e: Event, v': View)
    requires e.Exec?
  {
    v' == if Accepts(v, e) then Reopened(v, e.up, e.canShortcut, e.fd1) else v
  }

  ghost predicate ReplayStep(v: View, e: Event, v': View)
    requires e.Replayed?
  {
    if !Replays(v, e) then v' == v
    else
      Sends(v.(parent := v.parent + [e.up], reopened := v.reopened + Entry(e.up),
               log := v.log + [Chunk(|v.parent|, e.data, !e.compressed)]), v')
  }

  ghost predicate ReleaseStep(v: View, v': View) {
    if v.finished || v.ends != map[] then v' == v.(held := false)
    else if v.buffered != [] then v' == v.(held := false, sending := true)
    else Sends(v.(held := false, finished := true), v')
  }

  ghost predicate Step(v: View, e: Event, v': View) {
    match e
    case Readable(fd1, ready, incoming) => ReadStep(v, fd1, ready, incoming, v')
    case Writable(ready) => WriteStep(v, ready, v')
    case Exec(_, _, _) => ExecStep(v, e, v')
    case Replayed(_, _, _) => ReplayStep(v, e, v')
    case LastClosed(fd1, incoming) => CloseStep(v, fd1, incoming, v')
    case Released => ReleaseStep(v, v')
    case Disabled(p) => v' == v.(inUse := v.inUse - {p})
    case Over => if v.finished then v' == v else Sends(v.(finished := true, ends := map[]), v')
  }

  // ------------------------------------------------------------------------------------------
  // The objects do that.
  // ------------------------------------------------------------------------------------------

  ghost function ProcsOf(ends: map<int, PipeEnd>): map<int, int> {
    map fd | fd in ends :: ends[fd].proc
  }

  ghost function ForProcs(rs: set<PipeRecorder>): set<int> {
    set r | r in rs :: r.forProc
  }

  ghost predicate Inv(pipe: Pipe)
    reads pipe, pipe.buf, pipe.buf.buffer, pipe.all
  {
    pipe.Conserved() && pipe.WatchesRightEnds() && pipe.Nested() && pipe.Known()
  }

  ghost function Seen(pipe: Pipe): View
    requires pipe.buf.Valid()
    reads pipe, pipe.buf, pipe.buf.buffer
  {
    View(pipe.finished, pipe.sendOnlyMode, pipe.fd1Held, ProcsOf(pipe.ends), pipe.parent, pipe.proc2recorders.Keys,
         ForProcs(pipe.all), ForProcs(pipe.inUse), pipe.delivered, pipe.buf.Contents(), pipe.log)
  }

  lemma SeenIsSane(pipe: Pipe)
    requires Inv(pipe)
    ensures Sane(Seen(pipe)) && Watched(Seen(pipe)) == pipe.watchedFd1s
  {
    assert ProcsOf(pipe.ends).Keys == pipe.ends.Keys;
  }

  lemma SeenReaches(pipe: Pipe, up: int)
    requires Inv(pipe)
    ensures Reaches(Seen(pipe), up) <==> Ref(pipe.parent, up) && pipe.CanInheritFrom(up)
  {
    assert forall r :: r in pipe.all ==> r.forProc in ForProcs(pipe.all);
  }

  lemma WithoutEnd(ends: map<int, PipeEnd>, fd: int)
    ensures ProcsOf(ends - {fd}) == ProcsOf(ends) - {fd}
  {
  }

  lemma WithEnd(ends: map<int, PipeEnd>, fd: int, end: PipeEnd)
    ensures ProcsOf(ends[fd := end]) == ProcsOf(ends)[fd := end.proc]
  {
  }

  lemma WithRecorders(rs: set<PipeRecorder>, own: set<PipeRecorder>, p: int)
    requires forall r :: r in own ==> r.forProc == p
    ensures ForProcs(rs + own) == ForProcs(rs) + if own == {} then {} else {p}
  {
    assert forall r :: r in own ==> r in rs + own;
    if own != {} {
      var r :| r in own;
      assert r.forProc in ForProcs(rs + own);
    }
  }

  /** A process has one recorder. */
  lemma WithoutRecorder(pipe: Pipe, r: PipeRecorder)
    requires Inv(pipe) && r in pipe.inUse
    ensures ForProcs(pipe.inUse - {r}) == ForProcs(pipe.inUse) - {r.forProc}
  {
    forall x | x in pipe.inUse && x.forProc == r.forProc ensures x == r {
      assert Pipe.IsOwn(x, pipe.proc2recorders[r.forProc]) && Pipe.IsOwn(r, pipe.proc2recorders[r.forProc]);
    }
  }

  method HandleReadable(pipe: Pipe, fd1: int, ready: bool, incoming: seq<Byte>)
    requires Inv(pipe)
    modifies pipe`finished, pipe`ends, pipe`sendOnlyMode, pipe`watchedFd1s, pipe`fd0Watched, pipe`delivered, pipe`log,
             pipe.buf, pipe.buf.buffer, pipe.all
    ensures Inv(pipe) && ReadStep(old(Seen(pipe)), fd1, ready, incoming, Seen(pipe))
    ensures pipe.buf.buffer == old(pipe.buf.buffer) || fresh(pipe.buf.buffer)
  {
    SeenIsSane(pipe);
    WithoutEnd(pipe.ends, fd1);
    if !pipe.finished && fd1 in pipe.watchedFd1s {
      pipe.Fd1ReadCb(fd1, ready, incoming);
    }
  }

  method HandleWritable(pipe: Pipe, ready: bool)
    requires Inv(pipe)
    modifies pipe`finished, pipe`ends, pipe`sendOnlyMode, pipe`watchedFd1s, pipe`fd0Watched, pipe`delivered, pipe.buf
    ensures Inv(pipe) && WriteStep(old(Seen(pipe)), ready, Seen(pipe)) && pipe.buf.buffer == old(pipe.buf.buffer)
  {
    if !pipe.finished && pipe.fd0Watched {
      pipe.Fd0WriteCb(ready);
    }
  }

  method HandleClosed(pipe: Pipe, fd1: int, incoming: seq<Byte>)
    requires Inv(pipe)
    modifies pipe`finished, pipe`ends, pipe`sendOnlyMode, pipe`watchedFd1s, pipe`fd0Watched, pipe`delivered, pipe`log,
             pipe.buf, pipe.buf.buffer, pipe.all
    ensures Inv(pipe) && CloseStep(old(Seen(pipe)), fd1, incoming, Seen(pipe))
    ensures pipe.buf.buffer == old(pipe.buf.buffer) || fresh(pipe.buf.buffer)
  {
    WithoutEnd(pipe.ends, fd1);
    pipe.DrainFd1End(fd1, incoming);
  }

  /** The pipe is reopened for a new process. */
  method Reopen(pipe: Pipe, up: int, canShortcut: bool, fd1: int)
    requires Inv(pipe) && !pipe.finished && Ref(pipe.parent, up) && pipe.CanInheritFrom(up) && fd1 !in pipe.ends
    modifies pipe`parent, pipe`proc2recorders, pipe`ends, pipe`all, pipe`inUse, pipe`watchedFd1s
    ensures Inv(pipe) && Seen(pipe) == Reopened(old(Seen(pipe)), up, canShortcut, fd1)
    ensures forall r :: r in pipe.all ==> r in old(pipe.all) || fresh(r)
  {
    ghost var p := |pipe.parent|;
    ghost var rs, own := pipe.AcceptExecChild(|pipe.parent|, up, canShortcut, fd1);
    WithEnd(old(pipe.ends), fd1, PipeEnd(p, rs));
    WithRecorders(old(pipe.all), own, p);
    WithRecorders(old(pipe.inUse), own, p);
  }

  method HandleExec(pipe: Pipe, e: Event)
    requires Inv(pipe) && e.Exec?
    modifies pipe`parent, pipe`proc2recorders, pipe`ends, pipe`all, pipe`inUse, pipe`watchedFd1s
    ensures Inv(pipe) && ExecStep(old(Seen(pipe)), e, Seen(pipe))
    ensures forall r :: r in pipe.all ==> r in old(pipe.all) || fresh(r)
  {
    SeenReaches(pipe, e.up);
    if pipe.finished || !Ref(pipe.parent, e.up) || e.fd1 in pipe.ends {
      return;
    }
    var ok := pipe.CanReach(e.up);
    if ok {
      Reopen(pipe, e.up, e.canShortcut, e.fd1);
    }
  }

  method HandleReplay(pipe: Pipe, e: Event)
    requires Inv(pipe) && e.Replayed?
    modifies pipe`parent, pipe`proc2recorders, pipe`all, pipe`inUse, pipe`sendOnlyMode, pipe`watchedFd1s,
      pipe`fd0Watched, pipe`delivered, pipe`log, pipe.buf, pipe.buf.buffer, pipe.all
    ensures Inv(pipe) && ReplayStep(old(Seen(pipe)), e, Seen(pipe)) && pipe.all == old(pipe.all)
    ensures pipe.buf.buffer == old(pipe.buf.buffer) || fresh(pipe.buf.buffer)
  {
    SeenReaches(pipe, e.up);
    if pipe.finished || !Ref(pipe.parent, e.up) || e.data == [] {
      return;
    }
    var ok := pipe.CanReach(e.up);
    if ok {
      pipe.ReplayOutput(|pipe.parent|, e.up, e.data, e.compressed);
    }
  }

  method HandleDisabled(pipe: Pipe, p: int)
    requires Inv(pipe)
    modifies pipe`inUse, pipe.all
    ensures Inv(pipe) && Step(old(Seen(pipe)), Disabled(p), Seen(pipe))
  {
    if p in pipe.proc2recorders {
      var rs := pipe.proc2recorders[p];
      if rs != [] && rs[|rs| - 1].forProc == p && !rs[|rs| - 1].deactivated {
        var r := rs[|rs| - 1];
        assert r in rs && pipe.Holds(r);
        WithoutRecorder(pipe, r);
        pipe.DeactivateRecorder(r);
        return;
      }
    }
    NotInUse(pipe, p);
  }

  lemma NotInUse(pipe: Pipe, p: int)
    requires Inv(pipe)
    requires p in pipe.proc2recorders ==>
      var rs := pipe.proc2recorders[p];
      rs == [] || rs[|rs| - 1].forProc != p || rs[|rs| - 1].deactivated
    ensures p !in ForProcs(pipe.inUse)
  {
    forall r | r in pipe.inUse ensures r.forProc != p {
      assert pipe.Holds(r) && Pipe.IsOwn(r, pipe.proc2recorders[r.forProc]);
    }
  }

  method HandleEnd(pipe: Pipe, e: Event)
    requires Inv(pipe) && (e.Released? || e.Over?)
    modifies pipe`finished, pipe`ends, pipe`sendOnlyMode, pipe`watchedFd1s, pipe`fd0Watched, pipe`delivered,
      pipe`fd1Held, pipe.buf
    ensures Inv(pipe) && Step(old(Seen(pipe)), e, Seen(pipe)) && pipe.buf.buffer == old(pipe.buf.buffer)
  {
    assert ProcsOf(pipe.ends).Keys == pipe.ends.Keys;
    if e.Released? {
      pipe.ReleaseFd1();
    } else {
      pipe.Finish();
    }
  }

  method Handle(pipe: Pipe, e: Event)
    requires Inv(pipe)
    modifies pipe, pipe.buf, pipe.buf.buffer, pipe.all
    ensures Inv(pipe) && Step(old(Seen(pipe)), e, Seen(pipe))
    ensures pipe.buf.buffer == old(pipe.buf.buffer) || fresh(pipe.buf.buffer)
    ensures forall r :: r in pipe.all ==> r in old(pipe.all) || fresh(r)
  {
    match e
    case Exec(_, _, _) => HandleExec(pipe, e);
    case Replayed(_, _, _) => HandleReplay(pipe, e);
    case Disabled(p) => HandleDisabled(pipe, p);
    case Released => HandleEnd(pipe, e);
    case Over => HandleEnd(pipe, e);
    case Readable(fd1, ready, incoming) => HandleReadable(pipe, fd1, ready, incoming);
    case Writable(ready) => HandleWritable(pipe, ready);
    case LastClosed(fd1, incoming) => HandleClosed(pipe, fd1, incoming);
  }

  // ------------------------------------------------------------------------------------------
  // Runs.
  // ------------------------------------------------------------------------------------------

  ghost predicate StepAt(events: seq<Event>, views: seq<View>, i: int)
    requires 0 <= i < |events| < |views|
  {
    Step(views[i], events[i], views[i + 1])
  }

  ghost predicate SaneAt(views: seq<View>, i: int)
    requires 0 <= i < |views|
  {
    Sane(views[i])
  }

  /** The states of a pipe: before every event, and after the last. */
  ghost predicate Chronicle(parent: seq<int>, events: seq<Event>, views: seq<View>) {
    && |views| == |events| + 1 && views[0] == Start(parent)
    && (forall i :: 0 <= i < |events| ==> StepAt(events, views, i))
    && (forall i :: 0 <= i < |views| ==> SaneAt(views, i))
  }

  lemma ChronicleNext(parent: seq<int>, events: seq<Event>, views: seq<View>, e: Event, v: View)
    requires Chronicle(parent, events, views) && Step(views[|events|], e, v) && Sane(v)
    ensures Chronicle(parent, events + [e], views + [v])
  {
    forall i | 0 <= i <= |events| ensures StepAt(events + [e], views + [v], i) {
      assert i < |events| ==> StepAt(events, views, i);
    }
    forall i | 0 <= i <= |views| ensures SaneAt(views + [v], i) {
      assert i < |views| ==> SaneAt(views, i);
    }
  }

  /** A new recorder is put to use. */
  ghost predicate Records(v: View, e: Event) {
    Accepts(v, e) && e.canShortcut
  }

  /** Which recorders are in use: those of the processes that could be shortcut when the pipe was reopened for them,
      and have not been disabled since. */
  lemma {:induction false} InUseIff(parent: seq<int>, events: seq<Event>, views: seq<View>, n: nat, q: int)
    requires Chronicle(parent, events, views) && n <= |events|
    ensures q in views[n].inUse <==> exists i :: 0 <= i < n && KeepsRecording(events, views, i, n, q)
    decreases n
  {
    if n > 0 {
      var v, e := views[n - 1], events[n - 1];
      InUseIff(parent, events, views, n - 1, q);
      assert StepAt(events, views, n - 1);
      StepInUse(v, e, views[n], q);
      if q in views[n].inUse {
        if q in v.inUse && e != Disabled(q) {
          var i :| 0 <= i < n - 1 && KeepsRecording(events, views, i, n - 1, q);
          assert KeepsRecording(events, views, i, n, q);
        } else {
          assert KeepsRecording(events, views, n - 1, n, q);
        }
      }
      forall i | 0 <= i < n && KeepsRecording(events, views, i, n, q) ensures q in views[n].inUse {
        if i < n - 1 { assert KeepsRecording(events, views, i, n - 1, q) && e != Disabled(q); }
      }
    }
  }

  lemma StepInUse(v: View, e: Event, v': View, q: int)
    requires Step(v, e, v')
    ensures q in v'.inUse <==> (q in v.inUse && e != Disabled(q)) || (Records(v, e) && |v.parent| == q)
  {
  }

  /** The pipe was reopened for `q` in event `i`, and up to event `n` it was not disabled. */
  ghost predicate KeepsRecording(events: seq<Event>, views: seq<View>, i: int, n: int, q: int)
    requires 0 <= i < n <= |events| < |views|
  {
    && Records(views[i], events[i]) && |views[i].parent| == q
    && forall j :: i < j < n ==> events[j] != Disabled(q)
  }

  /** Data of process `p` that the recorders were not told. */
  predicate NotTold(c: Chunk, p: int) {
    !c.recorded && c.data != [] && c.proc == p
  }

  ghost predicate AnyNotTold(log: seq<Chunk>, p: int) {
    exists k :: 0 <= k < |log| && NotTold(log[k], p)
  }

  /** Replayed data is kept from the recorders. */
  ghost predicate KeepsBack(v: View, e: Event) {
    Replays(v, e) && e.compressed
  }

  lemma TookIsTold(before: seq<Chunk>, now: seq<Chunk>, p: int, incoming: seq<Byte>, rest: seq<Byte>, q: int)
    requires Took(before, now, p, incoming, rest)
    ensures AnyNotTold(now, q) <==> AnyNotTold(before, q)
  {
    if AnyNotTold(before, q) {
      var k :| 0 <= k < |before| && NotTold(before[k], q);
      assert now[k] == before[k];
    }
    if AnyNotTold(now, q) {
      var k :| 0 <= k < |now| && NotTold(now[k], q);
      assert k < |before| && before[k] == now[k];
    }
  }

  lemma ReplayIsTold(log: seq<Chunk>, c: Chunk, q: int)
    ensures AnyNotTold(log + [c], q) <==> AnyNotTold(log, q) || NotTold(c, q)
  {
    if AnyNotTold(log, q) {
      var k :| 0 <= k < |log| && NotTold(log[k], q);
      assert (log + [c])[k] == log[k];
    }
    if NotTold(c, q) { assert (log + [c])[|log|] == c; }
  }

  lemma StepTells(v: View, e: Event, v': View, q: int)
    requires Step(v, e, v')
    ensures AnyNotTold(v'.log, q) <==> AnyNotTold(v.log, q) || (KeepsBack(v, e) && |v.parent| == q)
  {
    if (e.Readable? && e.ready && e.fd1 in Watched(v)) || (e.LastClosed? && !v.finished && e.fd1 in v.ends) {
      var rest :| Took(v.log, v'.log, v.ends[e.fd1], e.incoming, rest) && (rest == [] || |rest| < |e.incoming|);
      TookIsTold(v.log, v'.log, v.ends[e.fd1], e.incoming, rest, q);
    } else if Replays(v, e) {
      ReplayIsTold(v.log, Chunk(|v.parent|, e.data, !e.compressed), q);
    }
  }

  /** What the recorders were not told is exactly what was replayed from compressed data. */
  lemma {:induction false} NotToldIff(parent: seq<int>, events: seq<Event>, views: seq<View>, n: nat, q: int)
    requires Chronicle(parent, events, views) && n <= |events|
    ensures AnyNotTold(views[n].log, q) <==> exists i :: 0 <= i < n && KeptBackAt(events, views, i, q)
    decreases n
  {
    if n > 0 {
      NotToldIff(parent, events, views, n - 1, q);
      assert StepAt(events, views, n - 1);
      StepTells(views[n - 1], events[n - 1], views[n], q);
      assert KeptBackAt(events, views, n - 1, q) <==>
        KeepsBack(views[n - 1], events[n - 1]) && |views[n - 1].parent| == q;
    }
  }

  ghost predicate KeptBackAt(events: seq<Event>, views: seq<View>, i: int, q: int)
    requires 0 <= i < |events| < |views|
  {
    KeepsBack(views[i], events[i]) && |views[i].parent| == q
  }

  /** Compressed data was replayed for a process at or below `q`. */
  ghost predicate KeptFrom(v: View, e: Event, parent: seq<int>, q: int) {
    && KeepsBack(v, e) && Tree(parent) && IsProc(parent, |v.parent|) && AtOrAbove(parent, q, |v.parent|)
  }

  /** The recorder holds what was written below its exec point exactly if no compressed data was replayed there. */
  ghost predicate ExactIffTold(pipe: Pipe, events: seq<Event>, views: seq<View>, r: PipeRecorder)
    requires pipe.Nested() && |views| > |events|
    reads pipe, pipe.all, r
  {
    && r.Intact()
    && (r.Contents() == Below(pipe.parent, pipe.log, r.forProc) <==>
        forall i :: 0 <= i < |events| ==> !KeptFrom(views[i], events[i], pipe.parent, r.forProc))
  }

  lemma RecorderInRun(pipe: Pipe, parent: seq<int>, events: seq<Event>, views: seq<View>, r: PipeRecorder)
    requires Inv(pipe) && Chronicle(parent, events, views) && views[|events|] == Seen(pipe) && r in pipe.inUse
    ensures ExactIffTold(pipe, events, views, r)
  {
    var q := r.forProc;
    pipe.RecorderIsExactIff(r);
    forall k | 0 <= k < |pipe.log| && Untold(pipe.parent, pipe.log, q, k)
      ensures exists i :: 0 <= i < |events| && KeptFrom(views[i], events[i], pipe.parent, q)
    {
      var p := pipe.log[k].proc;
      assert NotTold(pipe.log[k], p);
      NotToldIff(parent, events, views, |events|, p);
      var i :| 0 <= i < |events| && KeptBackAt(events, views, i, p);
      assert KeptFrom(views[i], events[i], pipe.parent, q);
    }
    forall i | 0 <= i < |events| && KeptFrom(views[i], events[i], pipe.parent, q)
      ensures exists k :: 0 <= k < |pipe.log| && Untold(pipe.parent, pipe.log, q, k)
    {
      var p := |views[i].parent|;
      assert KeptBackAt(events, views, i, p);
      NotToldIff(parent, events, views, |events|, p);
      var k :| 0 <= k < |pipe.log| && NotTold(pipe.log[k], p);
      assert Untold(pipe.parent, pipe.log, q, k);
    }
  }

  /** Whatever happens, in whatever order: every event does exactly what it should, at every time what reached
      the reader and then the buffer is all that was taken, in order, and every recorder in use holds exactly what
      the processes below its exec point wrote, if and only if nothing was replayed there from compressed data. */
  method Run(maxInlineBlobSize: nat, parent: seq<int>, events: seq<Event>)
    returns (pipe: Pipe, ghost views: seq<View>)
    requires Tree(parent)
    ensures fresh(pipe) && Inv(pipe) && Chronicle(parent, events, views) && views[|events|] == Seen(pipe)
    ensures forall r :: r in pipe.inUse ==> ExactIffTold(pipe, events, views, r)
  {
    pipe := new Pipe(maxInlineBlobSize, parent);
    views := [Seen(pipe)];
    SeenIsSane(pipe);
    for n := 0 to |events|
      invariant fresh(pipe) && fresh(pipe.buf) && fresh(pipe.buf.buffer) && Inv(pipe)
      invariant forall r :: r in pipe.all ==> fresh(r)
      invariant Chronicle(parent, events[..n], views) && views[n] == Seen(pipe)
    {
      Handle(pipe, events[n]);
      SeenIsSane(pipe);
      ChronicleNext(parent, events[..n], views, events[n], Seen(pipe));
      views := views + [Seen(pipe)];
      assert events[..n + 1] == events[..n] + [events[n]];
    }
    assert events[..|events|] == events;
    forall r | r in pipe.inUse ensures ExactIffTold(pipe, events, views, r) {
      RecorderInRun(pipe, parent, events, views, r);
    }
  }
}
