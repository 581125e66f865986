/**
 * The meeting of the two messages that a new process takes: "fork_parent" with "fork_child", and
 * "popen_parent" with "scproc_query".  Either may come first, and other processes' messages may come
 * in between; the supervisor queues the first one and answers both sides when the second one comes.
 */
module Rendezvous {
  import opened Options

  /** A process is named by the indices of the actions that created it and its ancestors. */
  type Path = seq<nat>

  datatype Edit = Changed(change: int) | PopenStream(fd: int) | PopenedStdio

  /** A descriptor table, as the edits that led to it. */
  type Table = seq<Edit>

  /** What a process does, as far as the supervisor is told. */
  datatype Action = Do(change: int) | Fork(child: seq<Action>) | Popen(fd: int, child: seq<Action>)

  /** pending_popen_t: the descriptors at the "popen" message, and which of the two messages came. */
  datatype PendingPopen = PendingPopen(fds: Table, fd: Option<int>, childArrived: bool)

  /**
   * A process, with what is queued under its pid: its child's "fork_child", its own "fork_parent",
   * its pending popen.  `waiting`: its own "scproc_query" is not answered yet.
   */
  datatype Proc = Proc(script: seq<Action>, at: nat, initial: Table, table: Table,
                       forkChildQueued: bool, parentAckQueued: bool, popen: Option<PendingPopen>, waiting: bool,
                       asked: nat, answered: nat)

  type State = map<Path, Proc>

  /** The next message: one of the process itself, or the first one of the child it is creating. */
  datatype Choice = Own(p: Path) | Child(p: Path)

  function ForkedChild(script: seq<Action>, table: Table): Proc {
    Proc(script, 0, table, table, false, false, None, false, 1, 1)
  }

  function PopenedChild(script: seq<Action>, fds: Table): Proc {
    Proc(script, 0, fds + [PopenedStdio], fds, false, false, None, true, 1, 0)
  }

  /** The next action that makes the process wait is a fork. */
  predicate ForkIsNext(script: seq<Action>, at: nat)
    decreases |script| - at
  {
    at < |script| && (script[at].Fork? || (script[at].Do? && ForkIsNext(script, at + 1)))
  }

  predicate OwnReady(l: Proc) {
    && l.at < |l.script| && !l.waiting && !l.parentAckQueued
    && !(l.popen.Some? && l.popen.value.fd.Some?)
  }

  predicate ChildReady(l: Proc) {
    && !l.waiting
    && if l.popen.Some? then l.at < |l.script| && l.script[l.at].Popen? && !l.popen.value.childArrived
       else !l.forkChildQueued && ForkIsNext(l.script, l.at)
  }

  predicate Ready(s: State, c: Choice) {
    c.p in s && if c.Own? then OwnReady(s[c.p]) else ChildReady(s[c.p])
  }

  /** accept_fork_child(): the child gets the table of its parent, both are answered. */
  function AcceptFork(p: Path, l: Proc): State
    requires l.at < |l.script| && l.script[l.at].Fork?
  {
    map[p := l.(at := l.at + 1, forkChildQueued := false, parentAckQueued := false, answered := l.answered + 1),
        p + [l.at] := ForkedChild(l.script[l.at].child, l.table)]
  }

  /** accept_popen_child(): both get their ends of the pipe and an answer. */
  function AcceptPopen(p: Path, l: Proc, child: Proc, fd: int): State {
    map[p := l.(at := l.at + 1, table := l.table + [PopenStream(fd)], popen := None, answered := l.answered + 1),
        p + [l.at] := child.(table := child.table + [PopenedStdio], waiting := false, answered := child.answered + 1)]
  }

  /** A message of the process itself. */
  function OwnPatch(p: Path, l: Proc, child: Option<Proc>): State {
    if l.at >= |l.script| then map[]
    else
      match l.script[l.at]
      case Do(change) =>
        map[p := l.(at := l.at + 1, table := l.table + [Changed(change)])]
      case Fork(_) =>
        // "fork_parent"
        if l.forkChildQueued then AcceptFork(p, l.(asked := l.asked + 1))
        else map[p := l.(parentAckQueued := true, asked := l.asked + 1)]
      case Popen(fd, _) =>
        // "popen", then "popen_parent"
        if l.popen.None? then map[p := l.(popen := Some(PendingPopen(l.table, None, false)))]
        else if l.popen.value.childArrived && child.Some? then AcceptPopen(p, l.(asked := l.asked + 1), child.value, fd)
        else map[p := l.(popen := Some(l.popen.value.(fd := Some(fd))), asked := l.asked + 1)]
  }

  /** The first message of the child that the process is creating. */
  function ChildPatch(p: Path, l: Proc): State {
    if l.at >= |l.script| then map[]
    else
      match l.script[l.at]
      case Popen(fd, script) =>
        if l.popen.None? then map[]
        else
          // "scproc_query"
          var arrived := PopenedChild(script, l.popen.value.fds);
          if l.popen.value.fd.Some? then AcceptPopen(p, l, arrived, fd)
          else map[p := l.(popen := Some(l.popen.value.(childArrived := true))), p + [l.at] := arrived]
      case Fork(_) =>
        // "fork_child"
        if l.parentAckQueued then AcceptFork(p, l) else map[p := l.(forkChildQueued := true)]
      case Do(_) =>
        map[p := l.(forkChildQueued := true)]
  }

  /** What a message changes, given the process it concerns and, for a popen, the child that has arrived. */
  function Patch(c: Choice, l: Proc, child: Option<Proc>): State {
    if c.Own? then OwnPatch(c.p, l, child) else ChildPatch(c.p, l)
  }

  function ChildOf(s: State, p: Path): Option<Proc>
    requires p in s
  {
    if p + [s[p].at] in s then Some(s[p + [s[p].at]]) else None
  }

  // ------------------------------------------------------------------------------------------
  // The invariant.
  // ------------------------------------------------------------------------------------------

  /** The table after some actions; the descriptor of a popen stream appears when popen returns. */
  function Applied(t: Table, acts: seq<Action>): Table {
    if acts == [] then t
    else
      var before := Applied(t, acts[..|acts| - 1]);
      match acts[|acts| - 1]
      case Do(change) => before + [Changed(change)]
      case Fork(_) => before
      case Popen(fd, _) => before + [PopenStream(fd)]
  }

  /** One process: its flags fit its script, its table is that of its actions, and every question has one answer. */
  predicate Sound(l: Proc) {
    && l.at <= |l.script|
    && (if l.waiting then l.at == 0 && l.initial == l.table + [PopenedStdio]
         else l.table == Applied(l.initial, l.script[..l.at]))
    && (l.waiting ==> l.popen.None? && !l.parentAckQueued && !l.forkChildQueued)
    && (l.popen.Some? ==> l.at < |l.script| && l.script[l.at].Popen? && l.popen.value.fds == l.table)
    && (l.popen.Some? && l.popen.value.fd.Some? ==>
         !l.popen.value.childArrived && l.popen.value.fd.value == l.script[l.at].fd)
    && (l.parentAckQueued ==> l.at < |l.script| && l.script[l.at].Fork? && !l.forkChildQueued)
    && (l.forkChildQueued ==> ForkIsNext(l.script, l.at))
    && l.asked == l.answered + if OwnOutstanding(l) then 1 else 0
  }

  /** The process waits for an answer. */
  predicate OwnOutstanding(l: Proc) {
    l.waiting || l.parentAckQueued || (l.popen.Some? && l.popen.value.fd.Some?)
  }

  /** The child that action `i` of `l` creates. */
  predicate RightChild(l: Proc, i: nat, child: Proc) {
    && i < |l.script| && Creates(l.script[i])
    && child.script == l.script[i].child
    && child.initial == Applied(l.initial, l.script[..i]) + if l.script[i].Popen? then [PopenedStdio] else []
  }

  predicate Creates(a: Action) {
    a.Fork? || a.Popen?
  }

  predicate Created(l: Proc, i: nat) {
    && i < |l.script| && Creates(l.script[i])
    && (i < l.at || (i == l.at && l.popen.Some? && l.popen.value.childArrived))
  }

  /** The child that action `i` creates exists exactly if that action is done, or its popen child has arrived. */
  ghost predicate ChildAt(s: State, p: Path, i: nat)
    requires p in s
  {
    var l := s[p];
    && (p + [i] in s <==> Created(l, i))
    && (Created(l, i) ==> RightChild(l, i, s[p + [i]]) && (s[p + [i]].waiting <==> i == l.at))
  }

  ghost predicate Inv(s: State) {
    && (forall p :: p in s ==> Sound(s[p]))
    && (forall p, i: nat :: p in s ==> ChildAt(s, p, i))
    && (forall p :: p in s && p != [] ==> p[..|p| - 1] in s)
    && ([] in s && !s[[]].waiting)
  }

  function Delta(s: State, c: Choice): State {
    if c.p in s then Patch(c, s[c.p], ChildOf(s, c.p)) else map[]
  }

  /** The supervisor handles a message. */
  function Step(s: State, c: Choice): State {
    s + Delta(s, c)
  }

  // ------------------------------------------------------------------------------------------
  // Every step keeps it.
  // ------------------------------------------------------------------------------------------

  lemma AppliedNext(l: Proc)
    requires l.at < |l.script|
    ensures l.script[..l.at + 1] == l.script[..l.at] + [l.script[l.at]]
    ensures
      var before := Applied(l.initial, l.script[..l.at]);
      Applied(l.initial, l.script[..l.at + 1]) ==
        match l.script[l.at]
        case Do(change) => before + [Changed(change)]
        case Fork(_) => before
        case Popen(fd, _) => before + [PopenStream(fd)]
  {
    var acts := l.script[..l.at + 1];
    assert acts == l.script[..l.at] + [l.script[l.at]];
    assert acts[..|acts| - 1] == l.script[..l.at];
  }

  /** The preconditions of a patch hold in every sound state. */
  predicate Fits(c: Choice, l: Proc, child: Option<Proc>) {
    && Sound(l) && (if c.Own? then OwnReady(l) else ChildReady(l))
    && (l.popen.Some? && l.popen.value.childArrived ==>
         child.Some? && Sound(child.value) && child.value.waiting && RightChild(l, l.at, child.value))
  }

  lemma AcceptForkIsSound(p: Path, l: Proc, m: Proc)
    requires Sound(l) && !l.waiting && l.popen.None? && l.at < |l.script| && l.script[l.at].Fork?
    requires m == l.(asked := l.answered + 1)
    ensures
      var u := AcceptFork(p, m);
      u.Keys == {p, p + [l.at]} && Sound(u[p]) && Sound(u[p + [l.at]])
  {
    AppliedNext(l);
    assert p + [l.at] != p;
  }

  lemma AcceptPopenIsSound(p: Path, l: Proc, m: Proc, child: Proc)
    requires Sound(l) && !l.waiting && !l.parentAckQueued && !l.forkChildQueued && l.at < |l.script| &&
      l.script[l.at].Popen?
    requires m == l.(asked := l.answered + 1, popen := m.popen)
    requires Sound(child) && child.waiting
    ensures
      var u := AcceptPopen(p, m, child, l.script[l.at].fd);
      u.Keys == {p, p + [l.at]} && Sound(u[p]) && Sound(u[p + [l.at]])
  {
    AppliedNext(l);
    assert p + [l.at] != p && child.script[..0] == [];
  }

  predicate SoundPatch(c: Choice, l: Proc, u: State) {
    && c.p in u && Sound(u[c.p]) && u[c.p].script == l.script && u[c.p].initial == l.initial && !u[c.p].waiting
    && l.at <= u[c.p].at <= l.at + 1
    && (u.Keys == {c.p} || (u.Keys == {c.p, c.p + [l.at]} && Sound(u[c.p + [l.at]])))
  }

  lemma OwnPatchIsSound(c: Choice, l: Proc, child: Option<Proc>)
    requires c.Own? && Fits(c, l, child)
    ensures SoundPatch(c, l, Patch(c, l, child))
  {
    AppliedNext(l);
    match l.script[l.at]
    case Do(_) =>
    case Fork(_) =>
      if l.forkChildQueued { AcceptForkIsSound(c.p, l, l.(asked := l.asked + 1)); }
    case Popen(_, _) =>
      if l.popen.Some? && l.popen.value.childArrived {
        AcceptPopenIsSound(c.p, l, l.(asked := l.asked + 1), child.value);
      }
  }

  lemma ChildPatchIsSound(c: Choice, l: Proc, child: Option<Proc>)
    requires c.Child? && Fits(c, l, child)
    ensures SoundPatch(c, l, Patch(c, l, child))
  {
    assert c.p + [l.at] != c.p;
    if l.popen.Some? {
      var arrived := PopenedChild(l.script[l.at].child, l.popen.value.fds);
      assert Sound(arrived);
      if l.popen.value.fd.Some? { AcceptPopenIsSound(c.p, l, l, arrived); }
    } else if l.parentAckQueued {
      AcceptForkIsSound(c.p, l, l);
    }
  }

  lemma PatchIsSound(c: Choice, l: Proc, child: Option<Proc>)
    requires Fits(c, l, child)
    ensures SoundPatch(c, l, Patch(c, l, child))
  {
    if c.Own? { OwnPatchIsSound(c, l, child); } else { ChildPatchIsSound(c, l, child); }
  }

  /** The child in a patch is the right one, and it is there exactly if its action is done or it has arrived. */
  lemma PatchHasRightChild(c: Choice, l: Proc, child: Option<Proc>)
    requires Fits(c, l, child)
    ensures
      var u, q := Patch(c, l, child), c.p + [l.at];
      && c.p in u && u[c.p].script == l.script && u[c.p].initial == l.initial
      && (q in u ==> Created(u[c.p], l.at) && RightChild(l, l.at, u[q]))
      && (q in u ==> (u[q].waiting <==> u[c.p].at == l.at) && u[q].at == 0 && u[q].popen.None?)
      && (q !in u ==> Created(u[c.p], l.at) == Created(l, l.at))
      && (q !in u ==> (u[c.p].at == l.at || !Creates(l.script[l.at])))
  {
  }

  lemma StepFits(s: State, c: Choice)
    requires Inv(s) && Ready(s, c)
    ensures Fits(c, s[c.p], ChildOf(s, c.p))
  {
    assert Sound(s[c.p]) && ChildAt(s, c.p, s[c.p].at);
  }

  lemma StepKeepsSound(s: State, c: Choice)
    requires Inv(s) && Ready(s, c)
    ensures forall p :: p in Step(s, c) ==> Sound(Step(s, c)[p])
  {
    StepFits(s, c);
    PatchIsSound(c, s[c.p], ChildOf(s, c.p));
  }

  lemma StepKeepsParents(s: State, c: Choice)
    requires Inv(s) && Ready(s, c)
    ensures forall p :: p in Step(s, c) && p != [] ==> p[..|p| - 1] in Step(s, c)
    ensures [] in Step(s, c) && !Step(s, c)[[]].waiting
  {
    StepFits(s, c);
    PatchIsSound(c, s[c.p], ChildOf(s, c.p));
    assert (c.p + [s[c.p].at])[..|c.p|] == c.p;
  }

  /** The process that a message concerns: ... */
  lemma ChildAtSame(s: State, c: Choice, i: nat)
    requires Inv(s) && Ready(s, c)
    ensures c.p in Step(s, c) && ChildAt(Step(s, c), c.p, i)
  {
    var l := s[c.p];
    StepFits(s, c);
    PatchIsSound(c, l, ChildOf(s, c.p));
    PatchHasRightChild(c, l, ChildOf(s, c.p));
    assert ChildAt(s, c.p, i);
    assert c.p + [i] != c.p;
    assert i != l.at ==> (c.p + [i])[|c.p|] != (c.p + [l.at])[|c.p|];
  }

  /** ... its child, ... */
  lemma ChildAtChild(s: State, c: Choice, i: nat)
    requires Inv(s) && Ready(s, c) && c.p + [s[c.p].at] in Delta(s, c)
    ensures
      var q := c.p + [s[c.p].at];
      q in Step(s, c) && ChildAt(Step(s, c), q, i)
  {
    var l := s[c.p];
    var q := c.p + [l.at];
    StepFits(s, c);
    PatchIsSound(c, l, ChildOf(s, c.p));
    PatchHasRightChild(c, l, ChildOf(s, c.p));
    assert |q + [i]| == |c.p| + 2 && (q + [i])[..|q + [i]| - 1] == q;
    assert ChildAt(s, c.p, l.at);
    if q in s { assert ChildAt(s, q, i); }
  }

  /** ... and all others. */
  lemma ChildAtOther(s: State, c: Choice, p: Path, i: nat)
    requires Inv(s) && Ready(s, c) && p in s && p != c.p && p !in Delta(s, c)
    ensures p in Step(s, c) && ChildAt(Step(s, c), p, i)
  {
    var l := s[c.p];
    StepFits(s, c);
    PatchIsSound(c, l, ChildOf(s, c.p));
    assert ChildAt(s, p, i);
    assert (p + [i])[..|p|] == p && (c.p + [l.at])[..|c.p|] == c.p;
    assert p + [i] != c.p + [l.at];
  }

  lemma StepKeepsInv(s: State, c: Choice)
    requires Inv(s) && Ready(s, c)
    ensures Inv(Step(s, c))
  {
    StepKeepsSound(s, c);
    StepKeepsParents(s, c);
    forall p, i: nat | p in Step(s, c) ensures ChildAt(Step(s, c), p, i) {
      StepFits(s, c);
      PatchIsSound(c, s[c.p], ChildOf(s, c.p));
      if p == c.p {
        ChildAtSame(s, c, i);
      } else if p in Delta(s, c) {
        ChildAtChild(s, c, i);
      } else {
        ChildAtOther(s, c, p, i);
      }
    }
  }

  // ------------------------------------------------------------------------------------------
  // Confluence.
  // ------------------------------------------------------------------------------------------

  /** Messages that concern different processes: neither changes what the other one sees. */
  lemma OthersUntouched(s: State, c: Choice, d: Choice)
    requires Inv(s) && Ready(s, c) && Ready(s, d) && c.p != d.p
    ensures Delta(s, c).Keys !! Delta(s, d).Keys
    ensures d.p !in Delta(s, c) && d.p + [s[d.p].at] !in Delta(s, c)
  {
    StepFits(s, c);
    StepFits(s, d);
    PatchIsSound(c, s[c.p], ChildOf(s, c.p));
    PatchIsSound(d, s[d.p], ChildOf(s, d.p));
    NotItsChild(s, c, d);
    NotItsChild(s, d, c);
    assert (c.p + [s[c.p].at])[..|c.p|] == c.p && (d.p + [s[d.p].at])[..|d.p|] == d.p;
  }

  /** A process that has the word is not the child that another one is just creating. */
  lemma NotItsChild(s: State, c: Choice, d: Choice)
    requires Inv(s) && Ready(s, c) && Ready(s, d)
    ensures d.p != c.p + [s[c.p].at]
  {
    assert ChildAt(s, c.p, s[c.p].at) && Sound(s[d.p]);
  }

  lemma DeltaUnchanged(s: State, c: Choice, d: Choice)
    requires Inv(s) && Ready(s, c) && Ready(s, d) && c.p != d.p
    ensures Ready(Step(s, c), d) && Delta(Step(s, c), d) == Delta(s, d)
  {
    OthersUntouched(s, c, d);
    var s' := Step(s, c);
    assert s'[d.p] == s[d.p] && ChildOf(s', d.p) == ChildOf(s, d.p);
  }

  lemma MergesCommute(s: State, a: State, b: State)
    requires a.Keys !! b.Keys
    ensures s + a + b == s + b + a
  {
  }

  lemma DiamondApart(s: State, c: Choice, d: Choice)
    requires Inv(s) && Ready(s, c) && Ready(s, d) && c.p != d.p
    ensures Ready(Step(s, c), d) && Ready(Step(s, d), c) && Step(Step(s, c), d) == Step(Step(s, d), c)
  {
    DeltaUnchanged(s, c, d);
    DeltaUnchanged(s, d, c);
    OthersUntouched(s, c, d);
    MergesCommute(s, Delta(s, c), Delta(s, d));
  }

  ghost predicate Meet(s: State, p: Path) {
    && Ready(Step(s, Own(p)), Child(p)) && Ready(Step(s, Child(p)), Own(p))
    && Step(Step(s, Own(p)), Child(p)) == Step(Step(s, Child(p)), Own(p))
  }

  /** "fork_child" comes while messages of the parent from before the fork are still unread. */
  lemma MeetBeforeFork(s: State, p: Path)
    requires Ready(s, Own(p)) && Ready(s, Child(p)) && Sound(s[p]) && s[p].script[s[p].at].Do?
    ensures Meet(s, p)
  {
    var l := s[p];
    var change := l.script[l.at].change;
    assert Step(s, Own(p)) == s[p := l.(at := l.at + 1, table := l.table + [Changed(change)])];
    assert Step(s, Child(p)) == s[p := l.(forkChildQueued := true)];
    var last := l.(at := l.at + 1, table := l.table + [Changed(change)], forkChildQueued := true);
    assert ForkIsNext(l.script, l.at + 1);
    assert Delta(Step(s, Own(p)), Child(p)) == map[p := last] == Delta(Step(s, Child(p)), Own(p));
    assert Step(Step(s, Own(p)), Child(p)) == s[p := last];
    assert Step(Step(s, Child(p)), Own(p)) == s[p := last];
  }

  /** "fork_parent" and "fork_child". */
  lemma MeetAtFork(s: State, p: Path)
    requires Ready(s, Own(p)) && Ready(s, Child(p)) && Sound(s[p]) && s[p].script[s[p].at].Fork?
    ensures Meet(s, p)
  {
    var l := s[p];
    assert Step(s, Own(p)) == s[p := l.(parentAckQueued := true, asked := l.asked + 1)];
    assert Step(s, Child(p)) == s[p := l.(forkChildQueued := true)];
    var last := AcceptFork(p, l.(asked := l.asked + 1));
    assert Step(Step(s, Own(p)), Child(p)) == s + last == Step(Step(s, Child(p)), Own(p));
  }

  /** "popen_parent" and "scproc_query". */
  lemma MeetAtPopen(s: State, p: Path)
    requires Ready(s, Own(p)) && Ready(s, Child(p)) && Sound(s[p]) && s[p].script[s[p].at].Popen?
    ensures Meet(s, p)
  {
    var l := s[p];
    var q, arrived, fd := p + [l.at], PopenedChild(l.script[l.at].child, l.popen.value.fds), l.script[l.at].fd;
    assert q != p;
    assert Step(s, Own(p)) == s[p := l.(popen := Some(l.popen.value.(fd := Some(fd))), asked := l.asked + 1)];
    assert Step(s, Child(p)) == s[p := l.(popen := Some(l.popen.value.(childArrived := true)))][q := arrived];
    var last := AcceptPopen(p, l.(asked := l.asked + 1), arrived, fd);
    assert Step(Step(s, Own(p)), Child(p)) == s + last == Step(Step(s, Child(p)), Own(p));
  }

  /** One step: whichever of two messages comes first, the other one can still come, and the result is the same. */
  lemma Diamond(s: State, c: Choice, d: Choice)
    requires Inv(s) && Ready(s, c) && Ready(s, d) && c != d
    ensures Ready(Step(s, c), d) && Ready(Step(s, d), c) && Step(Step(s, c), d) == Step(Step(s, d), c)
  {
    if c.p != d.p {
      DiamondApart(s, c, d);
    } else {
      var p := c.p;
      assert Sound(s[p]);
      match s[p].script[s[p].at]
      case Do(_) => MeetBeforeFork(s, p);
      case Fork(_) => MeetAtFork(s, p);
      case Popen(_, _) => MeetAtPopen(s, p);
    }
  }

  // ------------------------------------------------------------------------------------------
  // Schedules.
  // ------------------------------------------------------------------------------------------

  /** The schedule can be followed from this state. */
  ghost predicate Follows(s: State, schedule: seq<Choice>)
    decreases |schedule|
  {
    schedule == [] || (Ready(s, schedule[0]) && Follows(Step(s, schedule[0]), schedule[1..]))
  }

  ghost function End(s: State, schedule: seq<Choice>): State
    decreases |schedule|
  {
    if schedule == [] then s else End(Step(s, schedule[0]), schedule[1..])
  }

  /** No message is left that could be handled. */
  ghost predicate Quiet(s: State) {
    forall c :: !Ready(s, c)
  }

  /** A message that can be handled now can be handled first. */
  lemma {:induction false} Advance(s: State, schedule: seq<Choice>, c: Choice) returns (rest: seq<Choice>)
    requires Inv(s) && Follows(s, schedule) && Quiet(End(s, schedule)) && Ready(s, c)
    ensures Follows(Step(s, c), rest) && End(Step(s, c), rest) == End(s, schedule)
    decreases |schedule|
  {
    var d := schedule[0];
    if d == c {
      rest := schedule[1..];
    } else {
      Diamond(s, c, d);
      StepKeepsInv(s, d);
      var rest' := Advance(Step(s, d), schedule[1..], c);
      rest := [d] + rest';
      assert rest[1..] == rest';
    }
  }

  /** All complete schedules lead to the same state. */
  lemma {:induction false} Confluence(s: State, a: seq<Choice>, b: seq<Choice>)
    requires Inv(s) && Follows(s, a) && Quiet(End(s, a)) && Follows(s, b) && Quiet(End(s, b))
    ensures End(s, a) == End(s, b)
    decreases |b|
  {
    if b != [] {
      StepKeepsInv(s, b[0]);
      var rest := Advance(s, a, b[0]);
      Confluence(Step(s, b[0]), rest, b[1..]);
    }
  }

  // ------------------------------------------------------------------------------------------
  // What is left at the end.
  // ------------------------------------------------------------------------------------------

  /** One process, nothing queued. */
  function Initial(script: seq<Action>, table: Table): State {
    map[[] := Proc(script, 0, table, table, false, false, None, false, 0, 0)]
  }

  lemma InitialIsSound(script: seq<Action>, table: Table)
    ensures Inv(Initial(script, table))
  {
    var s := Initial(script, table);
    assert script[..0] == [];
    forall p, i: nat | p in s ensures ChildAt(s, p, i) {
      assert [] + [i] != [];
    }
  }

  lemma {:induction false} EndKeepsInv(s: State, schedule: seq<Choice>)
    requires Inv(s) && Follows(s, schedule)
    ensures Inv(End(s, schedule))
    decreases |schedule|
  {
    if schedule != [] {
      StepKeepsInv(s, schedule[0]);
      EndKeepsInv(Step(s, schedule[0]), schedule[1..]);
    }
  }

  /** Nothing is queued or unanswered, and the process has done all it was to do. */
  predicate Done(l: Proc) {
    && l.at == |l.script| && !l.waiting && !l.parentAckQueued && !l.forkChildQueued && l.popen.None?
    && l.asked == l.answered && l.table == Applied(l.initial, l.script)
  }

  /** A process that is not done can have a message handled, or its parent can. */
  lemma SomeoneCanGoOn(s: State, p: Path) returns (c: Choice)
    requires Inv(s) && p in s && !Done(s[p])
    ensures Ready(s, c)
  {
    var l := s[p];
    assert Sound(l);
    if l.at == |l.script| { assert l.script[..l.at] == l.script; }
    if l.waiting {
      var up := p[..|p| - 1];
      assert p == up + [p[|p| - 1]];
      assert ChildAt(s, up, p[|p| - 1]) && Sound(s[up]);
      c := Own(up);
    } else if OwnReady(l) {
      c := Own(p);
    } else {
      c := Child(p);
    }
  }

  /**
   * After any complete schedule every process is done, with as many answers as questions; each child
   * was created exactly once, from the table its parent had at that point; and nothing is queued.
   */
  lemma CompleteRunsSettle(script: seq<Action>, table: Table, schedule: seq<Choice>)
    requires Follows(Initial(script, table), schedule) && Quiet(End(Initial(script, table), schedule))
    ensures
      var e := End(Initial(script, table), schedule);
      && (forall p :: p in e ==> Done(e[p]))
      && (forall p, i: nat :: p in e ==>
           (p + [i] in e <==> i < |e[p].script| && Creates(e[p].script[i])) &&
           (p + [i] in e ==> RightChild(e[p], i, e[p + [i]])))
  {
    var s := Initial(script, table);
    var e := End(s, schedule);
    InitialIsSound(script, table);
    EndKeepsInv(s, schedule);
    forall p | p in e ensures Done(e[p]) {
      if !Done(e[p]) {
        var c := SomeoneCanGoOn(e, p);
        assert false;
      }
    }
    forall p, i: nat | p in e
      ensures p + [i] in e <==> i < |e[p].script| && Creates(e[p].script[i])
      ensures p + [i] in e ==> RightChild(e[p], i, e[p + [i]])
    {
      assert ChildAt(e, p, i);
    }
  }

  /** The answer to a fork: the child starts with the table of its parent, which is blocked meanwhile. */
  lemma ForkCopiesTable(s: State, p: Path)
    requires p in s && s[p].at < |s[p].script| && s[p].script[s[p].at].Fork? && s[p].popen.None?
    requires s[p].parentAckQueued != s[p].forkChildQueued
    ensures
      var c := if s[p].parentAckQueued then Child(p) else Own(p);
      var s', q := Step(s, c), p + [s[p].at];
      q in s' && s'[q].table == s[p].table == s'[p].table && s'[p].answered == s[p].answered + 1
  {
    assert p + [s[p].at] != p;
  }
}
