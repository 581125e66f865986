/**
 * Orphans and the cache.  An orphan keeps every exec point above it from being shortcut, so no stored process has
 * an orphan below it; the lemmas say how finalizing, marking orphans and new processes keep that.
 */
module Orphans {
  import opened ProcTree
  import opened ProcessNodes

  datatype Marks = Marks(nodes: seq<Node>, state: seq<State>, waited: seq<bool>, orphan: seq<bool>,
                         canShortcut: seq<bool>, stored: set<int>)

  ghost predicate WellMarked(m: Marks) {
    && Shaped(m.nodes) && |m.state| == |m.waited| == |m.orphan| == |m.canShortcut| == |m.nodes|
    && ClosedDownwards(m.nodes, m.state)
  }

  /** The exec point `e` and all exec points above it can not be shortcut. */
  ghost predicate PathDisabled(nodes: seq<Node>, canShortcut: seq<bool>, e: int)
    requires Shaped(nodes) && |canShortcut| == |nodes| && NONE <= e < |nodes|
  {
    forall q :: 0 <= q < |nodes| && OnExecPath(nodes, e, q) ==> !canShortcut[q]
  }

  ghost predicate OrphanAt(m: Marks, late: set<int>, c: int)
    requires WellMarked(m) && IsNode(m.nodes, c)
  {
    assert Placed(m.nodes, c);
    && (m.orphan[c] && c !in late ==> PathDisabled(m.nodes, m.canShortcut, m.nodes[c].execPoint))
    && (m.state[c] == Finalized && m.nodes[c].forkPoint == c && c > 0 && !m.waited[c] ==> m.orphan[c])
  }

  /** Outside the root's exec chain, a stored process is finalized and there is no orphan at or below it. */
  ghost predicate StoredAt(m: Marks, p: int)
    requires WellMarked(m)
  {
    && IsNode(m.nodes, p)
    && (!InRootChain(m.nodes, p) ==>
         m.state[p] == Finalized && forall c :: 0 <= c < |m.nodes| && m.orphan[c] ==> !AtOrBelow(m.nodes, p, c))
  }

  /** Orphans, except `late`, keep what is above them from being shortcut; nothing stored has orphans. */
  ghost predicate Blameless(m: Marks, late: set<int>) {
    && WellMarked(m)
    && (forall c :: 0 <= c < |m.nodes| ==> OrphanAt(m, late, c))
    && forall p :: p in m.stored ==> StoredAt(m, p)
  }

  /** Every process at or below a stored one is finalized and no orphan, and was waited for if it was forked. */
  lemma StoredMeansAllWaitedFor(m: Marks, p: int, c: int)
    requires Blameless(m, {}) && p in m.stored && IsNode(m.nodes, p) && !InRootChain(m.nodes, p)
    requires IsNode(m.nodes, c) && AtOrBelow(m.nodes, p, c)
    ensures m.state[c] == Finalized && !m.orphan[c] && (m.nodes[c].kind == Forked ==> m.waited[c])
  {
    assert StoredAt(m, p) && OrphanAt(m, {}, c) && Placed(m.nodes, c);
    SubtreeIsFinalized(m.nodes, m.state, p, c);
  }

  // ------------------------------------------------------------------------------------------
  // Paths.
  // ------------------------------------------------------------------------------------------

  /** An exec'ed process is on the exec path of everything below it. */
  lemma {:induction false} ExecPathFromBelow(nodes: seq<Node>, p: int, c: int)
    requires Shaped(nodes) && IsNode(nodes, p) && nodes[p].kind == Execed && IsNode(nodes, c) && AtOrBelow(nodes, p, c)
    ensures NONE <= nodes[c].execPoint < |nodes| && OnExecPath(nodes, nodes[c].execPoint, p)
    decreases c
  {
    assert Placed(nodes, c);
    if c != p { ExecPathFromBelow(nodes, p, nodes[c].parent); }
  }

  /** The exec path of the parent is part of the exec path. */
  lemma PathOfParent(nodes: seq<Node>, canShortcut: seq<bool>, p: int)
    requires Shaped(nodes) && 0 < p < |nodes| && |canShortcut| == |nodes|
    ensures NONE <= nodes[p].execPoint < |nodes| && NONE <= nodes[nodes[p].parent].execPoint < |nodes|
    ensures PathDisabled(nodes, canShortcut, nodes[p].execPoint) ==>
      PathDisabled(nodes, canShortcut, nodes[nodes[p].parent].execPoint)
  {
    assert Placed(nodes, p) && Placed(nodes, nodes[p].parent);
  }

  lemma {:induction false} PathOfForkPoint(nodes: seq<Node>, canShortcut: seq<bool>, p: int)
    requires Shaped(nodes) && IsNode(nodes, p) && |canShortcut| == |nodes|
    ensures 0 <= nodes[p].forkPoint < |nodes|
    ensures NONE <= nodes[p].execPoint < |nodes| && NONE <= nodes[nodes[p].forkPoint].execPoint < |nodes|
    ensures PathDisabled(nodes, canShortcut, nodes[p].execPoint) ==>
      PathDisabled(nodes, canShortcut, nodes[nodes[p].forkPoint].execPoint)
    decreases p
  {
    assert Placed(nodes, p);
    if nodes[p].kind == Execed {
      PathOfParent(nodes, canShortcut, p);
      PathOfForkPoint(nodes, canShortcut, nodes[p].parent);
    }
  }

  /** A process is below its fork point, and below what is above that. */
  lemma {:induction false} BelowForkPoint(nodes: seq<Node>, p: int, q: int)
    requires Shaped(nodes) && IsNode(nodes, p)
    ensures 0 <= nodes[p].forkPoint < |nodes|
    ensures AtOrBelow(nodes, q, nodes[p].forkPoint) ==> AtOrBelow(nodes, q, p)
    decreases p
  {
    assert Placed(nodes, p);
    if nodes[p].kind == Execed { BelowForkPoint(nodes, nodes[p].parent, q); }
  }

  // ------------------------------------------------------------------------------------------
  // Marking.
  // ------------------------------------------------------------------------------------------

  ghost predicate OnlyDisables(before: seq<bool>, now: seq<bool>) {
    |before| == |now| && forall q :: 0 <= q < |before| && now[q] ==> before[q]
  }

  /** Nothing that is stored is above a process that is not finalized, or that is an orphan already. */
  lemma NewOrphanIsNotStored(m: Marks, late: set<int>, c: int, p: int)
    requires Blameless(m, late) && IsNode(m.nodes, c) && p in m.stored && IsNode(m.nodes, p) && !InRootChain(m.nodes, p)
    requires m.state[c] != Finalized || m.orphan[c]
    ensures !AtOrBelow(m.nodes, p, c)
  {
    assert StoredAt(m, p);
    if m.state[c] != Finalized && AtOrBelow(m.nodes, p, c) {
      SubtreeIsFinalized(m.nodes, m.state, p, c);
      assert false;
    }
  }

  /** A fork child that was not waited for becomes an orphan; what is above it is yet to be disabled. */
  lemma OrphanIsLate(m: Marks, late: set<int>, c: int)
    requires Blameless(m, late) && 0 < c < |m.nodes| && m.nodes[c].forkPoint == c && !m.waited[c] && c in late
    ensures Blameless(m.(orphan := m.orphan[c := true]), late)
  {
    var now := m.(orphan := m.orphan[c := true]);
    forall d | 0 <= d < |m.nodes| ensures OrphanAt(now, late, d) {
      assert OrphanAt(m, late, d);
    }
    forall p | p in m.stored ensures StoredAt(now, p) {
      assert StoredAt(m, p) && OrphanAt(m, late, c);
      if !InRootChain(m.nodes, p) { NewOrphanIsNotStored(m, late, c, p); }
    }
  }

  /** Disabling a path settles all orphans that share it. */
  lemma DisablingSettles(m: Marks, now: Marks, late: set<int>, settled: set<int>, e: int)
    requires Blameless(m, late + settled) && now == m.(canShortcut := now.canShortcut)
    requires OnlyDisables(m.canShortcut, now.canShortcut) && NONE <= e < |m.nodes| &&
      PathDisabled(m.nodes, now.canShortcut, e)
    requires forall c :: c in settled && IsNode(m.nodes, c) ==> m.nodes[c].execPoint == e
    ensures Blameless(now, late)
  {
    forall d | 0 <= d < |m.nodes| ensures OrphanAt(now, late, d) {
      assert OrphanAt(m, late + settled, d);
    }
    forall p | p in m.stored ensures StoredAt(now, p) {
      assert StoredAt(m, p);
    }
  }

  lemma MoreMayBeLate(m: Marks, late: set<int>, more: set<int>)
    requires Blameless(m, late) && late <= more
    ensures Blameless(m, more)
  {
    forall d | 0 <= d < |m.nodes| ensures OrphanAt(m, more, d) {
      assert OrphanAt(m, late, d);
    }
  }

  // ------------------------------------------------------------------------------------------
  // Finalizing.
  // ------------------------------------------------------------------------------------------

  /** The exec point of `p`, and all above it, can not be shortcut. */
  ghost predicate AllDisabledAbove(m: Marks, p: int)
    requires WellMarked(m) && IsNode(m.nodes, p)
  {
    assert Placed(m.nodes, p);
    PathDisabled(m.nodes, m.canShortcut, m.nodes[p].execPoint)
  }

  /** ... or will be, because its parent did not wait for it. */
  ghost predicate WillNotBeStored(m: Marks, p: int)
    requires WellMarked(m) && IsNode(m.nodes, p)
  {
    AllDisabledAbove(m, p) || (m.nodes[p].forkPoint > 0 && !m.waited[m.nodes[p].forkPoint])
  }

  ghost predicate MayStore(m: Marks, now: Marks, p: int)
    requires IsNode(now.nodes, p) && |now.canShortcut| == |now.nodes|
  {
    now.stored == m.stored || (now.stored == m.stored + {p} && now.nodes[p].kind == Execed && now.canShortcut[p])
  }

  /** What an attempt to finalize `p` did. */
  ghost predicate Tried(m: Marks, now: Marks, p: int, done: bool) {
    && WellMarked(m) && WellMarked(now) && IsNode(m.nodes, p) && now.nodes == m.nodes && now.waited == m.waited
    && (!done ==> now == m)
    && (done ==>
         var f := m.nodes[p].forkPoint;
         && m.state[p] == Terminated && now.state == m.state[p := Finalized]
         && OnlyDisables(m.canShortcut, now.canShortcut) && MayStore(m, now, p)
         && if m.waited[f] then now.orphan == m.orphan
            else f > 0 && now.orphan == m.orphan[f := true] && AllDisabledAbove(now, p))
  }

  /**
   * Once `orphans` are late, whatever happened keeps the others blameless, as long as nothing is stored
   * while there are late ones.
   */
  ghost predicate Kept(m: Marks, now: Marks, orphans: set<int>) {
    && WellMarked(m) && WellMarked(now) && now.nodes == m.nodes && now.waited == m.waited && m.stored <= now.stored
    && forall late :: orphans <= late && Blameless(m, late) && (late == {} || now.stored == m.stored) ==>
         Blameless(now, late)
  }

  lemma NothingHappened(m: Marks)
    requires WellMarked(m)
    ensures Kept(m, m, {})
  {
  }

  lemma KeptTwice(m: Marks, mid: Marks, now: Marks, one: set<int>, two: set<int>)
    requires Kept(m, mid, one) && Kept(mid, now, two)
    ensures Kept(m, now, one + two)
  {
    forall late | one + two <= late && Blameless(m, late) && (late == {} || now.stored == m.stored)
      ensures Blameless(now, late)
    {
      assert Blameless(mid, late);
    }
  }

  lemma TriedKeepsOrphans(m: Marks, now: Marks, p: int, late: set<int>)
    requires Tried(m, now, p, true) && Blameless(m, late)
    ensures forall c :: 0 <= c < |m.nodes| ==> OrphanAt(now, late, c)
  {
    forall c | 0 <= c < |m.nodes| ensures OrphanAt(now, late, c) {
      assert OrphanAt(m, late, c) && Placed(m.nodes, p);
      PathOfForkPoint(m.nodes, now.canShortcut, p);
    }
  }

  lemma TriedKeepsStored(m: Marks, now: Marks, p: int, late: set<int>, q: int)
    requires Tried(m, now, p, true) && Blameless(m, late) && q in m.stored
    ensures StoredAt(now, q)
  {
    assert StoredAt(m, q);
    if !InRootChain(m.nodes, q) {
      NewOrphanIsNotStored(m, late, p, q);
      BelowForkPoint(m.nodes, p, q);
    }
  }

  /** A process that is stored has no orphans, since they would have disabled it. */
  lemma StoredHasNoOrphans(now: Marks, p: int)
    requires WellMarked(now) && IsNode(now.nodes, p) && now.state[p] == Finalized
    requires now.nodes[p].kind == Execed && now.canShortcut[p]
    requires forall c :: 0 <= c < |now.nodes| ==> OrphanAt(now, {}, c)
    ensures StoredAt(now, p)
  {
    forall c | 0 <= c < |now.nodes| && now.orphan[c] ensures !AtOrBelow(now.nodes, p, c) {
      assert OrphanAt(now, {}, c);
      if AtOrBelow(now.nodes, p, c) {
        ExecPathFromBelow(now.nodes, p, c);
        assert false;
      }
    }
  }

  /** An attempt to finalize keeps everything blameless; nothing is stored on a disabled path. */
  lemma TriedIsKept(m: Marks, now: Marks, p: int, done: bool)
    requires Tried(m, now, p, done)
    ensures Kept(m, now, {})
    ensures WillNotBeStored(m, p) ==> now.stored == m.stored
    ensures WillNotBeStored(m, p) && done && p > 0 ==> WillNotBeStored(now, m.nodes[p].parent)
  {
    forall late | Blameless(m, late) && (late == {} || now.stored == m.stored) ensures Blameless(now, late) {
      if done {
        TriedKeepsOrphans(m, now, p, late);
        forall q | q in now.stored ensures StoredAt(now, q) {
          if q in m.stored { TriedKeepsStored(m, now, p, late, q); } else { StoredHasNoOrphans(now, p); }
        }
      }
    }
    assert Placed(m.nodes, p);
    assert m.nodes[p].kind == Execed ==> OnExecPath(m.nodes, p, p);
    if p > 0 { PathOfParent(m.nodes, now.canShortcut, p); }
  }

  lemma OrphanIsKept(m: Marks, c: int)
    requires WellMarked(m) && 0 < c < |m.nodes| && m.nodes[c].forkPoint == c && !m.waited[c]
    ensures Kept(m, m.(orphan := m.orphan[c := true]), {c})
  {
    forall late | {c} <= late && Blameless(m, late) ensures Blameless(m.(orphan := m.orphan[c := true]), late) {
      OrphanIsLate(m, late, c);
    }
  }

  lemma DisablingIsKept(m: Marks, now: Marks, p: int)
    requires WellMarked(m) && IsNode(m.nodes, p) && now == m.(canShortcut := now.canShortcut)
    requires OnlyDisables(m.canShortcut, now.canShortcut) && AllDisabledAbove(now, p)
    ensures Kept(m, now, {})
  {
    assert Placed(m.nodes, p);
    forall late | Blameless(m, late) ensures Blameless(now, late) {
      assert late + {} == late;
      DisablingSettles(m, now, late, {}, m.nodes[p].execPoint);
    }
  }

  ghost function ForkChildren(nodes: seq<Node>, p: int): set<int>
    requires IsNode(nodes, p)
  {
    set c | c in nodes[p].forkChildren
  }

  /** One more fork child became an orphan. */
  lemma OneMoreKept(m: Marks, mid: Marks, now: Marks, p: int, i: int)
    requires WellMarked(m) && IsNode(m.nodes, p) && 0 <= i < |m.nodes[p].forkChildren|
    requires Kept(m, mid, ForkChildren(m.nodes, p)) && Kept(mid, now, {m.nodes[p].forkChildren[i]})
    ensures Kept(m, now, ForkChildren(m.nodes, p))
  {
    var children, c := ForkChildren(m.nodes, p), m.nodes[p].forkChildren[i];
    assert c in m.nodes[p].forkChildren && children + {c} == children;
    KeptTwice(m, mid, now, children, {c});
  }

  /** Once what is above a process is disabled, its fork children may be orphans. */
  lemma ChildrenMayBeOrphans(m: Marks, mid: Marks, now: Marks, p: int)
    requires WellMarked(m) && IsNode(m.nodes, p) && Kept(m, mid, ForkChildren(m.nodes, p)) && mid.stored == m.stored
    requires now == mid.(canShortcut := now.canShortcut) && OnlyDisables(mid.canShortcut, now.canShortcut)
    requires AllDisabledAbove(now, p)
    ensures Kept(m, now, {})
  {
    var children := ForkChildren(m.nodes, p);
    assert Placed(m.nodes, p);
    forall c | c in children && IsNode(m.nodes, c) ensures m.nodes[c].execPoint == m.nodes[p].execPoint {
      assert IsChild(m.nodes, p, c, Forked) && Placed(m.nodes, c);
    }
    forall late | Blameless(m, late) ensures Blameless(now, late) {
      MoreMayBeLate(m, late, late + children);
      DisablingSettles(mid, now, late, children, m.nodes[p].execPoint);
    }
  }

  /** Terminating and waiting change nothing. */
  lemma LaterIsBlameless(m: Marks, now: Marks, late: set<int>)
    requires Blameless(m, late) && WellMarked(now) && now == m.(state := now.state, waited := now.waited)
    requires forall p :: 0 <= p < |m.nodes| ==>
      (m.state[p] == Finalized <==> now.state[p] == Finalized) && (m.waited[p] ==> now.waited[p])
    ensures Blameless(now, late)
  {
    forall c | 0 <= c < |m.nodes| ensures OrphanAt(now, late, c) {
      assert OrphanAt(m, late, c);
    }
    forall p | p in m.stored ensures StoredAt(now, p) {
      assert StoredAt(m, p);
    }
  }

  lemma EndedBlameless(m: Marks, terminated: Marks, mid: Marks, now: Marks)
    requires WellMarked(m) && terminated == m.(state := terminated.state) && Kept(terminated, mid, {}) &&
      Kept(mid, now, {})
    requires forall p :: 0 <= p < |m.nodes| ==> (m.state[p] == Finalized <==> terminated.state[p] == Finalized)
    ensures Blameless(m, {}) ==> Blameless(now, {})
  {
    if Blameless(m, {}) { LaterIsBlameless(m, terminated, {}); }
  }

  lemma WaitedBlameless(m: Marks, mid: Marks, now: Marks, f: int)
    requires WellMarked(m) && IsNode(m.nodes, f)
    requires Kept(m.(waited := m.waited[f := true]), mid, {}) && Kept(mid, now, {})
    ensures Blameless(m, {}) ==> Blameless(now, {})
  {
    if Blameless(m, {}) { LaterIsBlameless(m, m.(waited := m.waited[f := true]), {}); }
  }

  // ------------------------------------------------------------------------------------------
  // New processes.
  // ------------------------------------------------------------------------------------------

  lemma {:induction false} GrownKeepsExecPath(nodes: seq<Node>, up: int, kind: Kind, e: int, q: int)
    requires Shaped(nodes) && IsNode(nodes, up) && (kind == Execed ==> nodes[up].execChild == NONE) &&
      NONE <= e < |nodes|
    ensures Shaped(Grown(nodes, up, kind)) && OnExecPath(Grown(nodes, up, kind), e, q) == OnExecPath(nodes, e, q)
    decreases e
  {
    GrownIsShaped(nodes, up, kind);
    if e != NONE {
      assert Placed(nodes, e) && (e > 0 ==> Placed(nodes, nodes[e].parent));
      GrownKeeps(nodes, up, kind, e);
      if e > 0 { GrownKeeps(nodes, up, kind, nodes[e].parent); }
      GrownKeepsExecPath(nodes, up, kind, ParentExecPoint(nodes, e), q);
    }
  }

  ghost function WithNewMarks(m: Marks, up: int, kind: Kind, s: State): Marks
    requires IsNode(m.nodes, up)
  {
    Marks(Grown(m.nodes, up, kind), m.state + [s], m.waited + [false], m.orphan + [false],
          m.canShortcut + [kind == Execed], m.stored)
  }

  lemma NewKeepsOrphan(m: Marks, up: int, kind: Kind, s: State, c: int)
    requires Blameless(m, {}) && IsNode(m.nodes, up) && (kind == Execed ==> m.nodes[up].execChild == NONE) &&
      IsNode(m.nodes, c)
    requires WellMarked(WithNewMarks(m, up, kind, s))
    ensures OrphanAt(WithNewMarks(m, up, kind, s), {}, c)
  {
    var now := WithNewMarks(m, up, kind, s);
    assert OrphanAt(m, {}, c) && Placed(m.nodes, c);
    GrownKeeps(m.nodes, up, kind, c);
    var e := m.nodes[c].execPoint;
    forall q | 0 <= q < |now.nodes| && OnExecPath(now.nodes, e, q) ensures OnExecPath(m.nodes, e, q) && q < |m.nodes| {
      GrownKeepsExecPath(m.nodes, up, kind, e, q);
      if q == |m.nodes| { BelowIsNotAbove(now.nodes, e, q); }
    }
  }

  lemma NewKeepsStored(m: Marks, up: int, kind: Kind, s: State, p: int)
    requires Blameless(m, {}) && IsNode(m.nodes, up) && (kind == Execed ==> m.nodes[up].execChild == NONE) &&
      p in m.stored
    requires WellMarked(WithNewMarks(m, up, kind, s))
    ensures StoredAt(WithNewMarks(m, up, kind, s), p)
  {
    var now := WithNewMarks(m, up, kind, s);
    assert StoredAt(m, p);
    GrownKeepsRootChain(m.nodes, up, kind, p);
    forall c | 0 <= c < |now.nodes| && now.orphan[c] ensures !InRootChain(m.nodes, p) ==> !AtOrBelow(now.nodes, p, c) {
      GrownKeepsBelow(m.nodes, up, kind, p, c);
    }
  }

  lemma NewIsBlameless(m: Marks, up: int, kind: Kind, s: State)
    requires Blameless(m, {}) && IsNode(m.nodes, up) && (kind == Execed ==> m.nodes[up].execChild == NONE) &&
      s != Finalized
    requires WellMarked(WithNewMarks(m, up, kind, s))
    ensures Blameless(WithNewMarks(m, up, kind, s), {})
  {
    var now := WithNewMarks(m, up, kind, s);
    forall c | 0 <= c < |now.nodes| ensures OrphanAt(now, {}, c) {
      if c < |m.nodes| { NewKeepsOrphan(m, up, kind, s, c); }
    }
    forall p | p in m.stored ensures StoredAt(now, p) {
      NewKeepsStored(m, up, kind, s, p);
    }
  }
}
