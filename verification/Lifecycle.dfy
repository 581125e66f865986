/** How processes terminate, are waited for, are finalized and then stored; and when waits are acknowledged. */
module Lifecycle {
  import opened Options
  import opened ProcTree
  import opened ProcessNodes
  import opened Acknowledgements
  import opened Promptness
  import opened Orphans

  /** Orphans stay orphans. */
  ghost predicate OnlyOrphans(before: seq<bool>, now: seq<bool>) {
    |before| == |now| && forall p :: 0 <= p < |before| && before[p] ==> now[p]
  }

  /** The children of `q` that were not waited for are marked. */
  ghost predicate ChildrenSettled(nodes: seq<Node>, waited: seq<bool>, orphan: seq<bool>, q: int)
    requires IsNode(nodes, q) && |waited| == |orphan| == |nodes|
  {
    forall c :: 0 < c < |nodes| && nodes[c].kind == Forked && nodes[c].parent == q ==> waited[c] || orphan[c]
  }

  ghost predicate SettledAmong(waited: seq<bool>, orphan: seq<bool>, children: seq<int>)
    requires |waited| == |orphan|
  {
    forall c :: c in children && 0 <= c < |waited| ==> waited[c] || orphan[c]
  }

  lemma OneMoreSettled(waited: seq<bool>, before: seq<bool>, orphan: seq<bool>, children: seq<int>, i: int)
    requires |waited| == |orphan| && OnlyOrphans(before, orphan) && 0 <= i < |children| && 0 <= children[i] < |waited|
    requires SettledAmong(waited, before, children[..i]) && (waited[children[i]] || orphan[children[i]])
    ensures SettledAmong(waited, orphan, children[..i + 1])
  {
    assert children[..i + 1] == children[..i] + [children[i]];
  }

  lemma SettledAll(nodes: seq<Node>, waited: seq<bool>, orphan: seq<bool>, p: int)
    requires Shaped(nodes) && IsNode(nodes, p) && |waited| == |orphan| == |nodes|
    requires SettledAmong(waited, orphan, nodes[p].forkChildren)
    ensures ChildrenSettled(nodes, waited, orphan, p)
  {
    ForkChildrenAreKnown(nodes, p);
  }

  lemma ChildIsOrphan(t: Situation, p: int)
    requires Fits(t) && IsNode(t.nodes, p) && ChildrenSettled(t.nodes, t.waited, t.orphan, p)
    requires Lasts(t.nodes, t.waited, t.nodes[p].forkChildren) != {}
    ensures IsNode(t.nodes, t.nodes[p].forkPoint) && HasOrphanBelow(t, t.nodes[p].forkPoint)
  {
    var last :| last in Lasts(t.nodes, t.waited, t.nodes[p].forkChildren);
    var c :| c in t.nodes[p].forkChildren && IsNode(t.nodes, c) && !t.waited[c] && LastExec(t.nodes, c) == last;
    assert Placed(t.nodes, p) && IsChild(t.nodes, p, c, Forked);
    OrphanIsBelow(t, c);
  }

  /** The exec chain from `first` is done up to `curr`. */
  ghost predicate SettledBefore(nodes: seq<Node>, waited: seq<bool>, orphan: seq<bool>, first: int, curr: int)
    requires Shaped(nodes) && IsNode(nodes, first) && NONE <= curr < |nodes| && |waited| == |orphan| == |nodes|
  {
    forall q :: 0 <= q < |nodes| && OnExecChain(nodes, first, q) ==>
      ChildrenSettled(nodes, waited, orphan, q) || (curr != NONE && OnExecChain(nodes, curr, q))
  }

  /** The processes of an exec chain before `curr` were left by their children; `tried` may have been finalized. */
  ghost predicate Orphaned(v: View, now: View, m: Marks, marks: Marks, first: int, curr: int, tried: set<int>) {
    && Shaped(v.nodes) && now.nodes == v.nodes && now.waited == v.waited && marks.nodes == v.nodes
    && IsNode(v.nodes, first) && NONE <= curr < |v.nodes| && |v.waited| == |marks.orphan| == |v.nodes|
    && Tidied(v, now, tried) && Kept(m, marks, {})
    && ChainLasts(v.nodes, v.waited, first) == tried + ChainLasts(v.nodes, v.waited, curr)
    && SettledBefore(v.nodes, v.waited, marks.orphan, first, curr)
  }

  lemma OrphanedNext(v: View, mid: View, now: View, m: Marks, marks: Marks, marks': Marks, first: int, curr: int,
                     tried: set<int>)
    requires Orphaned(v, mid, m, marks, first, curr, tried) && curr != NONE
    requires now.nodes == v.nodes && now.waited == v.waited && marks'.nodes == v.nodes && |marks'.orphan| == |v.nodes|
    requires Tidied(mid, now, Lasts(v.nodes, v.waited, v.nodes[curr].forkChildren)) && Kept(marks, marks', {})
    requires OnlyOrphans(marks.orphan, marks'.orphan) && ChildrenSettled(v.nodes, v.waited, marks'.orphan, curr)
    ensures Orphaned(v, now, m, marks', first, v.nodes[curr].execChild,
                     tried + Lasts(v.nodes, v.waited, v.nodes[curr].forkChildren))
  {
    TidiedTwice(v, mid, now, tried, Lasts(v.nodes, v.waited, v.nodes[curr].forkChildren));
    KeptTwice(m, marks, marks', {}, {});
    OneMoreOfChain(v.nodes, v.waited, marks.orphan, marks'.orphan, first, curr);
  }

  lemma OneMoreOfChain(nodes: seq<Node>, waited: seq<bool>, before: seq<bool>, orphan: seq<bool>, first: int, curr: int)
    requires Shaped(nodes) && IsNode(nodes, first) && IsNode(nodes, curr) && |waited| == |orphan| == |nodes|
    requires OnlyOrphans(before, orphan) && SettledBefore(nodes, waited, before, first, curr)
    requires ChildrenSettled(nodes, waited, orphan, curr)
    ensures NONE <= nodes[curr].execChild < |nodes| &&
      SettledBefore(nodes, waited, orphan, first, nodes[curr].execChild)
  {
    assert Placed(nodes, curr);
  }

  lemma ChainIsAll(nodes: seq<Node>, waited: seq<bool>, orphan: seq<bool>, f: int)
    requires Shaped(nodes) && IsNode(nodes, f) && |waited| == |orphan| == |nodes|
    requires SettledBefore(nodes, waited, orphan, f, NONE)
    ensures forall q :: 0 <= q < |nodes| && nodes[q].forkPoint == f ==> ChildrenSettled(nodes, waited, orphan, q)
  {
    forall q | 0 <= q < |nodes| && nodes[q].forkPoint == f ensures ChildrenSettled(nodes, waited, orphan, q) {
      ForkPointStartsChain(nodes, q);
    }
  }

  /** What is in the cache is finalized and, outside the root's exec chain, was waited for. */
  ghost predicate StoredSafely(nodes: seq<Node>, state: seq<State>, waited: seq<bool>, stored: set<int>)
    requires Ordered(nodes) && |state| == |waited| == |nodes|
  {
    forall p :: p in stored ==>
      IsNode(nodes, p) && state[p] == Finalized && (InRootChain(nodes, p) || waited[nodes[p].forkPoint])
  }

  /** Store safety: whatever is in the cache was waited for, and all that is below it is finalized. */
  lemma StoredMeansSettled(nodes: seq<Node>, state: seq<State>, waited: seq<bool>, stored: set<int>, p: int)
    requires Shaped(nodes) && |state| == |waited| == |nodes|
    requires ClosedDownwards(nodes, state) && StoredSafely(nodes, state, waited, stored)
    requires p in stored && IsNode(nodes, p) && !InRootChain(nodes, p)
    ensures waited[nodes[p].forkPoint]
    ensures forall q :: 0 <= q < |nodes| && AtOrBelow(nodes, p, q) ==> state[q] == Finalized
  {
    forall q | 0 <= q < |nodes| && AtOrBelow(nodes, p, q) ensures state[q] == Finalized {
      SubtreeIsFinalized(nodes, state, p, q);
    }
  }

  /** Once everything is over, every wait outside the root's exec chain was acknowledged. */
  lemma AllIsAnswered(v: View, t: Situation, ack: seq<Option<int>>, sent: seq<Sent>, used: set<int>, id: int)
    requires Prompt(v, {}) && Over(v) && Fits(t) && t.nodes == v.nodes && t.state == v.state
    requires |ack| == |v.nodes| && AcksInOrder(t, ack, sent, used) && id in used
    ensures !Unsent(id, sent) || (ack != [] && ack[0] == Some(id))
  {
    assert PendingOrSent(id, ack, sent);
    if Unsent(id, sent) {
      var p :| 0 <= p < |ack| && ack[p] == Some(id);
      assert PendingInOrder(t, ack, sent, used, p) && Placed(v.nodes, p);
      if p > 0 {
        AllIsFinalized(v, p);
        assert false;
      }
    }
  }

  method AnyNotFinalized(children: seq<int>, state: seq<State>) returns (any: bool)
    requires forall c :: c in children ==> 0 <= c < |state|
    ensures any <==> exists c :: c in children && state[c] != Finalized
  {
    for i := 0 to |children|
      invariant forall j :: 0 <= j < i ==> children[j] in children && state[children[j]] == Finalized
    {
      assert children[i] in children;
      if state[children[i]] != Finalized {
        return true;
      }
    }
    return false;
  }

  lemma FinalizingKeepsClosed(nodes: seq<Node>, state: seq<State>, p: int)
    requires Shaped(nodes) && |state| == |nodes| && ClosedDownwards(nodes, state) && IsNode(nodes, p)
    requires InRootChain(nodes, p) || forall q :: 0 < q < |nodes| && nodes[q].parent == p ==> state[q] == Finalized
    ensures ClosedDownwards(nodes, state[p := Finalized])
  {
    var now := state[p := Finalized];
    forall q | 0 < q < |nodes| ensures ClosedAt(nodes, now, q) {
      assert ClosedAt(nodes, state, q);
    }
  }

  lemma TerminatingKeepsClosed(nodes: seq<Node>, state: seq<State>, p: int)
    requires Shaped(nodes) && |state| == |nodes| && ClosedDownwards(nodes, state) && IsNode(nodes, p) &&
      state[p] == Running
    ensures ClosedDownwards(nodes, state[p := Terminated])
  {
    var now := state[p := Terminated];
    forall q | 0 < q < |nodes| ensures ClosedAt(nodes, now, q) {
      assert ClosedAt(nodes, state, q);
    }
  }

  lemma GrownKeepsStored(nodes: seq<Node>, state: seq<State>, waited: seq<bool>, stored: set<int>, up: int, kind: Kind,
                         s: State)
    requires Ordered(nodes) && |state| == |waited| == |nodes| && IsNode(nodes, up) &&
      StoredSafely(nodes, state, waited, stored)
    ensures Ordered(Grown(nodes, up, kind)) &&
      StoredSafely(Grown(nodes, up, kind), state + [s], waited + [false], stored)
  {
    GrownIsOrdered(nodes, up, kind);
    var now := Grown(nodes, up, kind);
    forall p | p in stored ensures IsNode(now, p) && (InRootChain(now, p) || (waited + [false])[now[p].forkPoint]) {
      GrownKeeps(nodes, up, kind, p);
      GrownKeepsRootChain(nodes, up, kind, p);
    }
  }

  lemma GrownIsClosed(nodes: seq<Node>, state: seq<State>, up: int, kind: Kind, s: State)
    requires Shaped(nodes) && |state| == |nodes| && ClosedDownwards(nodes, state)
    requires IsNode(nodes, up) && (kind == Execed ==> nodes[up].execChild == NONE) && state[up] != Finalized
    ensures Shaped(Grown(nodes, up, kind)) && ClosedDownwards(Grown(nodes, up, kind), state + [s])
  {
    GrownIsShaped(nodes, up, kind);
    var now, state' := Grown(nodes, up, kind), state + [s];
    forall q | 0 < q < |now| ensures ClosedAt(now, state', q) {
      if q < |nodes| {
        assert ClosedAt(nodes, state, q);
        GrownKeeps(nodes, up, kind, q);
        GrownKeepsRootChain(nodes, up, kind, nodes[q].parent);
      }
    }
  }

  lemma GrownIsValid(t: Situation, has: seq<bool>, ack: seq<Option<int>>, stored: set<int>, sent: seq<Sent>,
                     used: set<int>, up: int, kind: Kind, s: State)
    requires Fits(t) && |ack| == |has| == |t.nodes| && ClosedDownwards(t.nodes, t.state) && OrphansAreBelow(t, has)
    requires StoredSafely(t.nodes, t.state, t.waited, stored) && AcksInOrder(t, ack, sent, used)
    requires IsNode(t.nodes, up) && (kind == Execed ==> t.nodes[up].execChild == NONE) && t.state[up] != Finalized
    ensures
      var now := WithNewSituation(t, up, kind, s);
      && Fits(now) && ClosedDownwards(now.nodes, now.state) && OrphansAreBelow(now, has + [false])
      && StoredSafely(now.nodes, now.state, now.waited, stored) && AcksInOrder(now, ack + [None], sent, used)
  {
    GrownIsClosed(t.nodes, t.state, up, kind, s);
    GrownKeepsAcks(t, ack, sent, used, up, kind, s);
    GrownKeepsOrphans(t, has, up, kind, s);
    GrownKeepsStored(t.nodes, t.state, t.waited, stored, up, kind, s);
  }

  class Supervisor {
    var nodes: seq<Node>
    var state: seq<State>
    var execPending: seq<bool>
    var pendingPopen: seq<bool>
    /** The flags of fork points. */
    var waited: seq<bool>
    var orphan: seq<bool>
    var hasOrphanDescendant: seq<bool>
    var ack: seq<Option<int>>
    /** The flag of exec points. */
    var canShortcut: seq<bool>

    ghost var stored: set<int>
    ghost var sent: seq<Sent>
    ghost var used: set<int>

    function Seen(): View
      reads `nodes, `state, `execPending, `pendingPopen, `waited
    {
      View(nodes, state, execPending, pendingPopen, waited)
    }

    function Now(): Situation
      reads `nodes, `state, `waited, `orphan
    {
      Situation(nodes, state, waited, orphan)
    }

    ghost function Marked(): Marks
      reads `nodes, `state, `waited, `orphan, `canShortcut, `stored
    {
      Marks(nodes, state, waited, orphan, canShortcut, stored)
    }

    ghost predicate Sized()
      reads `nodes, `state, `execPending, `pendingPopen, `waited, `orphan, `hasOrphanDescendant, `canShortcut
    {
      && Shaped(nodes)
      && |state| == |execPending| == |pendingPopen| == |waited| == |orphan| == |nodes|
      && |hasOrphanDescendant| == |canShortcut| == |nodes|
    }

    ghost predicate Valid()
      reads `nodes, `state, `execPending, `pendingPopen, `waited, `orphan, `hasOrphanDescendant, `canShortcut
      reads `ack, `stored, `sent, `used
    {
      && Sized() && |ack| == |nodes|
      && ClosedDownwards(nodes, state) && StoredSafely(nodes, state, waited, stored)
      && AcksInOrder(Now(), ack, sent, used) && OrphansAreBelow(Now(), hasOrphanDescendant)
    }

    /** What holds between any two events. */
    ghost predicate Sound()
      reads `nodes, `state, `execPending, `pendingPopen, `waited, `orphan, `hasOrphanDescendant, `canShortcut
      reads `ack, `stored, `sent, `used
    {
      Valid() && Blameless(Marked(), {})
    }

    // ----------------------------------------------------------------------------------------
    // Looking down.
    // ----------------------------------------------------------------------------------------

    method AnyChildNotFinalized(p: int) returns (any: bool)
      requires Sized() && IsNode(nodes, p)
      ensures any <==> !Settled(Seen(), p)
    {
      if execPending[p] || pendingPopen[p] {
        return true;
      }
      assert Placed(nodes, p);
      if nodes[p].execChild != NONE && state[nodes[p].execChild] != Finalized {
        return true;
      }
      KnowsForkChildren(nodes, p);
      any := AnyNotFinalized(nodes[p].forkChildren, state);
      if !any {
        KnowsChildren(nodes, state, p);
      }
    }

    predicate CanAckParentWait(f: int)
      requires Sized() && IsNode(nodes, f)
      reads `nodes, `state, `execPending, `pendingPopen, `waited, `orphan, `hasOrphanDescendant, `canShortcut
    {
      state[f] == Finalized ||
      (state[f] == Terminated && hasOrphanDescendant[f] && !execPending[f] && !pendingPopen[f] &&
        ChildrenOrphansOnly(Now(), hasOrphanDescendant, f))
    }

    method LastExecDescendant(p: int) returns (q: int)
      requires Sized() && IsNode(nodes, p)
      ensures q == LastExec(nodes, p)
    {
      q := p;
      while nodes[q].execChild != NONE
        invariant IsNode(nodes, q) && LastExec(nodes, q) == LastExec(nodes, p)
        decreases |nodes| - q
      {
        assert Placed(nodes, q);
        q := nodes[q].execChild;
      }
    }

    // ----------------------------------------------------------------------------------------
    // Acknowledging.
    // ----------------------------------------------------------------------------------------

    /** The reason for which a wait for `f` can be acknowledged now. */
    ghost function ReasonNow(f: int): Reason
      requires IsNode(nodes, f) && |state| == |nodes|
      reads `nodes, `state
    {
      if state[f] == Finalized then AlreadyFinalized else OnlyOrphansLeft
    }

    lemma MayBeAcknowledged(f: int, id: int)
      requires Valid() && IsNode(nodes, f) && nodes[f].kind == Forked && CanAckParentWait(f)
      ensures Justified(Now(), Sent(f, id, ReasonNow(f), |nodes|))
    {
      if state[f] != Finalized && f > 0 {
        OnlyOrphansAreLeft(Now(), hasOrphanDescendant, f);
      }
    }

    /** maybe_send_on_finalized_ack(): here, or in DoFinalize at the moment the fork point is finalized. */
    method MaybeSendOnFinalizedAck(f: int)
      requires Valid() && IsNode(nodes, f) && CanAckParentWait(f)
      modifies `ack, `sent
      ensures Valid() && ack == old(ack)[f := None]
      ensures sent ==
        if old(ack)[f].Some? then old(sent) + [Sent(f, old(ack)[f].value, OnlyOrphansLeft, |nodes|)] else old(sent)
    {
      if ack[f].Some? {
        assert PendingInOrder(Now(), ack, sent, used, f);
        ghost var s := Sent(f, ack[f].value, OnlyOrphansLeft, |nodes|);
        MayBeAcknowledged(f, ack[f].value);
        AckSent(Now(), Now(), ack, sent, used, f, s);
        sent := sent + [s];
        ack := ack[f := None];
      }
    }

    /** Only acknowledgements that may be sent now were sent: of pending waits, with only orphans left. */
    ghost predicate OnlyRightlySent(before: seq<Option<int>>, sentBefore: seq<Sent>)
      requires Sized() && |before| == |nodes|
      reads `nodes, `state, `execPending, `pendingPopen, `waited, `orphan, `hasOrphanDescendant, `canShortcut, `sent
    {
      && sentBefore <= sent
      && forall i :: |sentBefore| <= i < |sent| ==> RightlySent(before, sent[i])
    }

    ghost predicate RightlySent(before: seq<Option<int>>, s: Sent)
      requires Sized() && |before| == |nodes|
      reads `nodes, `state, `execPending, `pendingPopen, `waited, `orphan, `hasOrphanDescendant, `canShortcut
    {
      && IsNode(nodes, s.forkPoint) && before[s.forkPoint] == Some(s.id)
      && s.reason == OnlyOrphansLeft && s.upTo == |nodes| && Justified(Now(), s)
    }

    /** Orphans below a fork point: waits above them may be acknowledged now. */
    method SetHasOrphanDescendantBubbleUp(from: int)
      requires Valid() && IsNode(nodes, from) && HasOrphanBelow(Now(), from)
      modifies `hasOrphanDescendant, `ack, `sent
      ensures Valid() && OnlyAnswers(old(ack), ack) && OnlyRightlySent(old(ack), old(sent))
      ensures forall g :: 0 <= g < |nodes| && OnForkChain(nodes, from, g) ==> hasOrphanDescendant[g]
    {
      var f := from;
      while true
        invariant Valid() && OnlyAnswers(old(ack), ack) && IsNode(nodes, f) && HasOrphanBelow(Now(), f)
        invariant OnlyRightlySent(old(ack), old(sent))
        invariant forall g :: 0 <= g < |nodes| && OnForkChain(nodes, from, g) ==>
          hasOrphanDescendant[g] || OnForkChain(nodes, f, g)
        decreases f
      {
        OneOrphanDescendant(f);
        if nodes[f].parent == NONE {
          break;
        }
        OrphanBelowParent(Now(), f);
        f := nodes[nodes[f].parent].forkPoint;
      }
    }

    method OneOrphanDescendant(f: int)
      requires Valid() && IsNode(nodes, f) && HasOrphanBelow(Now(), f)
      modifies `hasOrphanDescendant, `ack, `sent
      ensures Valid() && OnlyAnswers(old(ack), ack) && OnlyRightlySent(old(ack), old(sent))
      ensures hasOrphanDescendant == old(hasOrphanDescendant)[f := true]
    {
      hasOrphanDescendant := hasOrphanDescendant[f := true];
      if ack[f].Some? && CanAckParentWait(f) {
        MaybeSendOnFinalizedAck(f);
        assert SentInOrder(Now(), sent, used, |sent| - 1);
      }
    }

    /** An exec point and all exec points above it can not be shortcut any more. */
    method DisableShortcuttingBubbleUp(from: int)
      requires Valid() && NONE <= from < |nodes|
      modifies `canShortcut
      ensures Valid()
      ensures forall q :: 0 <= q < |nodes| ==> canShortcut[q] == (old(canShortcut)[q] && !OnExecPath(nodes, from, q))
      ensures OnlyDisables(old(canShortcut), canShortcut) && PathDisabled(nodes, canShortcut, from)
    {
      var e := from;
      while e != NONE
        invariant Valid() && NONE <= e <= from
        invariant forall q :: 0 <= q < |nodes| && OnExecPath(nodes, e, q) ==> OnExecPath(nodes, from, q)
        invariant forall q :: 0 <= q < |nodes| ==>
          canShortcut[q] == (old(canShortcut)[q] && (!OnExecPath(nodes, from, q) || OnExecPath(nodes, e, q)))
        decreases e
      {
        assert Placed(nodes, e) && (e > 0 ==> Placed(nodes, nodes[e].parent));
        BelowIsNotAbove(nodes, ParentExecPoint(nodes, e), e);
        assert OnExecPath(nodes, e, e);
        canShortcut := canShortcut[e := false];
        e := ParentExecPoint(nodes, e);
      }
    }

    // ----------------------------------------------------------------------------------------
    // Finalizing.
    // ----------------------------------------------------------------------------------------

    /** The part all processes share; a forked one acknowledges a pending wait. */
    method SetFinalized(p: int)
      requires Valid() && IsNode(nodes, p) && state[p] == Terminated
      requires InRootChain(nodes, p) || Settled(Seen(), p)
      modifies `state, `ack, `sent
      ensures Valid() && state == old(state)[p := Finalized] && OnlyAnswers(old(ack), ack)
    {
      FinalizingKeepsClosed(nodes, state, p);
      ghost var now := Now().(state := state[p := Finalized]);
      assert PendingInOrder(Now(), ack, sent, used, p);
      OrphansStayBelow(Now(), now, hasOrphanDescendant);
      if nodes[p].kind == Forked && ack[p].Some? {
        ghost var s := Sent(p, ack[p].value, AtFinalize, |nodes|);
        AckSent(Now(), now, ack, sent, used, p, s);
        sent := sent + [s];
        ack := ack[p := None];
      } else {
        AcksLater(Now(), now, ack, sent, used);
      }
      state := state[p := Finalized];
    }

    /** do_finalize(): an exec'ed process that can be shortcut may be stored. */
    method DoFinalize(p: int)
      requires Valid() && IsNode(nodes, p) && state[p] == Terminated
      requires InRootChain(nodes, p) || Settled(Seen(), p)
      requires InRootChain(nodes, p) || waited[nodes[p].forkPoint] || nodes[p].kind == Forked || !canShortcut[p]
      modifies `state, `ack, `stored, `sent
      ensures Valid() && state == old(state)[p := Finalized] && OnlyAnswers(old(ack), ack)
      ensures MayStore(old(Marked()), Marked(), p)
    {
      var worthStoring: bool := *;
      SetFinalized(p);
      if nodes[p].kind == Execed && canShortcut[p] && worthStoring {
        stored := stored + {p};
      }
    }

    /** Terminated, nothing below is unfinished, and it is clear whether the parent waited. */
    ghost predicate CanFinalize(p: int)
      requires Sized() && IsNode(nodes, p)
      reads this
    {
      var f := nodes[p].forkPoint;
      && state[p] == Terminated
      && (Settled(Seen(), p) || (f == 0 && hasOrphanDescendant[f] && OrphansOnly(Now(), hasOrphanDescendant, p)))
      && (waited[f] || (f > 0 && !MayWait(Seen(), f)))
    }

    method SetOrphan(c: int)
      requires Valid() && IsNode(nodes, c)
      modifies `orphan
      ensures Valid() && orphan == old(orphan)[c := true]
    {
      AcksLater(Now(), Now().(orphan := orphan[c := true]), ack, sent, used);
      OrphansStayBelow(Now(), Now().(orphan := orphan[c := true]), hasOrphanDescendant);
      orphan := orphan[c := true];
    }

    /** An orphan and what is above it can not be shortcut; waits above it may be acknowledged. */
    method MarkOrphan(p: int)
      requires Valid() && IsNode(nodes, p) && nodes[p].forkPoint > 0
      modifies `orphan, `hasOrphanDescendant, `ack, `sent, `canShortcut
      ensures Valid() && (nodes[p].kind == Execed ==> !canShortcut[p]) && OnlyAnswers(old(ack), ack)
      ensures orphan == old(orphan)[nodes[p].forkPoint := true]
      ensures OnlyDisables(old(canShortcut), canShortcut) && AllDisabledAbove(Marked(), p)
      ensures
        var up := nodes[nodes[nodes[p].forkPoint].parent].forkPoint;
        forall g :: 0 <= g < |nodes| && OnForkChain(nodes, up, g) ==> hasOrphanDescendant[g]
    {
      var f := nodes[p].forkPoint;
      assert Placed(nodes, p);
      SetOrphan(f);
      DisableShortcuttingBubbleUp(nodes[p].execPoint);
      OrphanIsBelow(Now(), f);
      SetHasOrphanDescendantBubbleUp(nodes[nodes[f].parent].forkPoint);
    }

    method IsReadyToFinalize(p: int) returns (ready: bool)
      requires Valid() && IsNode(nodes, p)
      ensures ready == CanFinalize(p)
    {
      if state[p] != Terminated {
        return false;
      }
      var f := nodes[p].forkPoint;
      var notReady := AnyChildNotFinalized(p);
      if notReady && !(nodes[f].parent == NONE && hasOrphanDescendant[f] &&
        OrphansOnly(Now(), hasOrphanDescendant, p)) {
        return false;
      }
      if waited[f] {
        return true;
      }
      if nodes[f].parent == NONE {
        return false;
      }
      var waiter := LastExecDescendant(nodes[f].parent);
      return state[waiter] != Running && !execPending[waiter];
    }

    /** Finalize a terminated process whose children are finalized, once it is clear whether its parent waited for it.
        */
    method TryFinalize(p: int) returns (done: bool)
      requires Valid() && IsNode(nodes, p)
      modifies `state, `orphan, `hasOrphanDescendant, `ack, `canShortcut, `stored, `sent
      ensures Valid() && OnlyAnswers(old(ack), ack) && OnlyOrphans(old(orphan), orphan)
      ensures done == old(CanFinalize(p)) && Tried(old(Marked()), Marked(), p, done)
      ensures !done ==> sent == old(sent)
    {
      done := IsReadyToFinalize(p);
      if done {
        if !waited[nodes[p].forkPoint] {
          MarkOrphan(p);
        }
        DoFinalize(p);
      }
    }

    /** maybe_finalize(): when a process is finalized, its parent may be, too. */
    method MaybeFinalize(p: int)
      requires Valid() && IsNode(nodes, p)
      modifies `state, `orphan, `hasOrphanDescendant, `ack, `canShortcut, `stored, `sent
      ensures Valid() && OnlyAnswers(old(ack), ack) && OnlyOrphans(old(orphan), orphan)
      ensures Tidied(old(Seen()), Seen(), {p}) && Kept(old(Marked()), Marked(), {})
      ensures old(WillNotBeStored(Marked(), p)) ==> stored == old(stored)
      ensures state[p] == Finalized <==> old(state)[p] == Finalized || old(CanFinalize(p))
      ensures !old(CanFinalize(p)) ==> state == old(state) && stored == old(stored) && sent == old(sent)
      decreases p
    {
      var done := TryFinalize(p);
      TriedIsKept(old(Marked()), Marked(), p, done);
      if !done {
        NotReadyIsTidied(Seen(), p);
        return;
      }
      ghost var mid, marks := Seen(), Marked();
      if nodes[p].parent != NONE {
        MaybeFinalize(nodes[p].parent);
        KeptTwice(old(Marked()), marks, Marked(), {}, {});
      }
      TidiedUpwards(old(Seen()), mid, Seen(), p);
    }

    // ----------------------------------------------------------------------------------------
    // Terminating.
    // ----------------------------------------------------------------------------------------

    method SetTerminated(p: int)
      requires Valid() && IsNode(nodes, p) && state[p] == Running
      modifies `state
      ensures Valid() && state == old(state)[p := Terminated]
    {
      TerminatingKeepsClosed(nodes, state, p);
      AcksLater(Now(), Now().(state := state[p := Terminated]), ack, sent, used);
      OrphansStayBelow(Now(), Now().(state := state[p := Terminated]), hasOrphanDescendant);
      state := state[p := Terminated];
    }

    /** A child that was not waited for is an orphan now. */
    method OrphanChild(c: int) returns (found: bool)
      requires Valid() && 0 < c < |nodes| && nodes[c].forkPoint == c
      modifies `state, `orphan, `hasOrphanDescendant, `ack, `canShortcut, `stored, `sent
      ensures Valid() && OnlyOrphans(old(orphan), orphan) && (waited[c] || orphan[c]) && found == !waited[c]
      ensures Tidied(old(Seen()), Seen(), Lasts(nodes, waited, [c]))
      ensures Kept(old(Marked()), Marked(), {c}) && stored == old(stored) && (!found ==> Marked() == old(Marked()))
    {
      LastsOfOne(nodes, waited, c);
      found := !waited[c];
      if found {
        OrphanIsKept(Marked(), c);
        SetOrphan(c);
        ghost var mid := Marked();
        var last := LastExecDescendant(c);
        LastHasForkPoint(nodes, c);
        MaybeFinalize(last);
        KeptTwice(old(Marked()), mid, Marked(), {c}, {});
        assert {c} + {} == {c};
      } else {
        NothingTidied(Seen());
      }
    }

    /** The children that a process forked but did not wait for are orphans now. */
    method OrphanChildren(curr: int) returns (found: bool)
      requires Valid() && IsNode(nodes, curr)
      modifies `state, `orphan, `hasOrphanDescendant, `ack, `canShortcut, `stored, `sent
      ensures Valid() && OnlyOrphans(old(orphan), orphan) && ChildrenSettled(nodes, waited, orphan, curr)
      ensures Tidied(old(Seen()), Seen(), Lasts(nodes, waited, nodes[curr].forkChildren))
      ensures found <==> Lasts(nodes, waited, nodes[curr].forkChildren) != {}
      ensures Kept(old(Marked()), Marked(), ForkChildren(nodes, curr)) && stored == old(stored)
      ensures !found ==> Marked() == old(Marked())
    {
      found := false;
      var children := nodes[curr].forkChildren;
      NothingTidied(Seen());
      NothingHappened(Marked());
      for i := 0 to |children|
        invariant Valid() && OnlyOrphans(old(orphan), orphan)
        invariant Tidied(old(Seen()), Seen(), Lasts(nodes, waited, children[..i]))
        invariant SettledAmong(waited, orphan, children[..i])
        invariant found <==> Lasts(nodes, waited, children[..i]) != {}
        invariant Kept(old(Marked()), Marked(), ForkChildren(nodes, curr)) && stored == old(stored)
        invariant !found ==> Marked() == old(Marked())
      {
        ghost var mid, marks := Seen(), Marked();
        IsForkChild(nodes, curr, i);
        var orphaned := OrphanChild(children[i]);
        found := found || orphaned;
        OneMoreTried(old(Seen()), mid, Seen(), children, i);
        OneMoreSettled(waited, marks.orphan, orphan, children, i);
        OneMoreKept(old(Marked()), marks, Marked(), curr, i);
      }
      assert children[..|children|] == children;
      SettledAll(nodes, waited, orphan, curr);
    }

    method OrphansOfOne(curr: int)
      requires Valid() && IsNode(nodes, curr)
      modifies `state, `orphan, `hasOrphanDescendant, `ack, `canShortcut, `stored, `sent
      ensures Valid() && OnlyOrphans(old(orphan), orphan) && ChildrenSettled(nodes, waited, orphan, curr)
      ensures Tidied(old(Seen()), Seen(), Lasts(nodes, waited, nodes[curr].forkChildren))
      ensures Kept(old(Marked()), Marked(), {}) && stored == old(stored)
      ensures Lasts(nodes, waited, nodes[curr].forkChildren) != {} ==>
        forall g :: 0 <= g < |nodes| && OnForkChain(nodes, nodes[curr].forkPoint, g) ==> hasOrphanDescendant[g]
    {
      assert Placed(nodes, curr);
      var found := OrphanChildren(curr);
      ghost var mid := Marked();
      if found {
        DisableShortcuttingBubbleUp(nodes[curr].execPoint);
        ChildrenMayBeOrphans(old(Marked()), mid, Marked(), curr);
        ChildIsOrphan(Now(), curr);
        SetHasOrphanDescendantBubbleUp(nodes[curr].forkPoint);
      } else {
        NothingHappened(Marked());
      }
    }

    /** All processes of an exec chain, which has ended, leave orphans behind. */
    method OrphansOfChain(first: int)
      requires Valid() && IsNode(nodes, first)
      modifies `state, `orphan, `hasOrphanDescendant, `ack, `canShortcut, `stored, `sent
      ensures Valid() && Tidied(old(Seen()), Seen(), ChainLasts(nodes, waited, first))
      ensures Kept(old(Marked()), Marked(), {}) && stored == old(stored)
      ensures SettledBefore(nodes, waited, orphan, first, NONE)
    {
      var curr := first;
      ghost var tried := {};
      NothingTidied(Seen());
      NothingHappened(Marked());
      while curr != NONE
        invariant Valid() && NONE <= curr < |nodes| && stored == old(stored)
        invariant Orphaned(old(Seen()), Seen(), old(Marked()), Marked(), first, curr, tried)
        decreases if curr == NONE then 0 else |nodes| - curr
      {
        assert Placed(nodes, curr);
        ghost var mid, marks := Seen(), Marked();
        OrphansOfOne(curr);
        OrphanedNext(old(Seen()), mid, Seen(), old(Marked()), marks, Marked(), first, curr, tried);
        curr, tried := nodes[curr].execChild, tried + Lasts(nodes, waited, nodes[curr].forkChildren);
      }
    }

    /** finish(): the process is gone.  The last one of an exec chain leaves orphans behind. */
    method Finish(p: int)
      requires Valid() && IsNode(nodes, p) && state[p] == Running
      modifies `state, `orphan, `hasOrphanDescendant, `ack, `canShortcut, `stored, `sent
      ensures Valid() && OnlyFinalizes(old(state)[p := Terminated], state)
      ensures old(Prompt(Seen(), {})) ==> Prompt(Seen(), {})
      ensures old(Blameless(Marked(), {})) ==> Blameless(Marked(), {})
      ensures nodes[p].execChild == NONE && !execPending[p] ==>
        forall q :: 0 <= q < |nodes| && nodes[q].forkPoint == nodes[p].forkPoint ==>
          ChildrenSettled(nodes, waited, orphan, q)
    {
      SetTerminated(p);
      ghost var terminated := Marked();
      ghost var tried := TerminatedChain(p);
      ghost var mid, marks := Seen(), Marked();
      MaybeFinalize(p);
      Ended(old(Seen()), mid, Seen(), p, tried);
      EndedBlameless(old(Marked()), terminated, marks, Marked());
    }

    method TerminatedChain(p: int) returns (ghost tried: set<int>)
      requires Valid() && IsNode(nodes, p)
      modifies `state, `orphan, `hasOrphanDescendant, `ack, `canShortcut, `stored, `sent
      ensures Valid() && Tidied(old(Seen()), Seen(), tried)
      ensures tried ==
        if nodes[p].execChild == NONE && !execPending[p] then ChainLasts(nodes, waited, nodes[p].forkPoint) else {}
      ensures Kept(old(Marked()), Marked(), {})
      ensures nodes[p].execChild == NONE && !execPending[p] ==>
        forall q :: 0 <= q < |nodes| && nodes[q].forkPoint == nodes[p].forkPoint ==>
          ChildrenSettled(nodes, waited, orphan, q)
    {
      tried := {};
      if nodes[p].execChild == NONE && !execPending[p] {
        tried := ChainLasts(nodes, waited, nodes[p].forkPoint);
        OrphansOfChain(nodes[p].forkPoint);
        ChainIsAll(nodes, waited, orphan, nodes[p].forkPoint);
      } else {
        NothingTidied(Seen());
        NothingHappened(Marked());
      }
    }

    // ----------------------------------------------------------------------------------------
    // Waiting.
    // ----------------------------------------------------------------------------------------

    method SetBeenWaitedFor(f: int)
      requires Valid() && IsNode(nodes, f) && nodes[f].kind == Forked && !waited[f]
      modifies `state, `waited, `orphan, `hasOrphanDescendant, `ack, `canShortcut, `stored, `sent
      ensures Valid() && waited == old(waited)[f := true] && OnlyAnswers(old(ack), ack)
      ensures Tidied(old(Seen()).(waited := waited), Seen(), {LastExec(nodes, f)})
      ensures Kept(old(Marked()).(waited := waited), Marked(), {})
    {
      AcksLater(Now(), Now().(waited := waited[f := true]), ack, sent, used);
      OrphansStayBelow(Now(), Now().(waited := waited[f := true]), hasOrphanDescendant);
      waited := waited[f := true];
      var last := LastExecDescendant(f);
      MaybeFinalize(last);
    }

    /** set_on_finalized_ack() or an acknowledgement at once. */
    method AckOrDefer(f: int, id: int)
      requires Valid() && IsNode(nodes, f) && nodes[f].kind == Forked && waited[f] && id !in used && ack[f].None?
      modifies `ack, `sent, `used
      ensures Valid() && used == old(used) + {id}
      ensures old(CanAckParentWait(f)) ==>
        ack == old(ack) &&
        sent == old(sent) + [Sent(f, id, ReasonNow(f), |nodes|)]
      ensures !old(CanAckParentWait(f)) ==> sent == old(sent) && ack == old(ack)[f := Some(id)]
    {
      if !CanAckParentWait(f) {
        AckDeferred(Now(), ack, sent, used, f, id);
        ack := ack[f := Some(id)];
      } else {
        ghost var s := Sent(f, id, ReasonNow(f), |nodes|);
        MayBeAcknowledged(f, id);
        AckedAtOnce(Now(), ack, sent, used, s);
        sent := sent + [s];
      }
      used := used + {id};
    }

    ghost method AckMissed(f: int, id: int)
      requires Valid() && IsNode(nodes, f) && id !in used
      modifies `sent, `used
      ensures Valid() && used == old(used) + {id} && sent == old(sent) + [Sent(f, id, MissedStaticExec, |nodes|)]
    {
      AckedAtOnce(Now(), ack, sent, used, Sent(f, id, MissedStaticExec, |nodes|));
      sent, used := sent + [Sent(f, id, MissedStaticExec, |nodes|)], used + {id};
    }

    /** A child that was to exec never signed in, but was waited for. */
    method MaybeFinalizeWithMissedStaticExecChild(p: int)
      requires Valid() && IsNode(nodes, p)
      modifies `state, `execPending, `orphan, `hasOrphanDescendant, `ack, `canShortcut, `stored, `sent
      ensures Valid() && Tidied(old(Seen()).(execPending := old(execPending)[p := false]), Seen(), {p})
      ensures Kept(old(Marked()), Marked(), {})
    {
      assert Placed(nodes, p);
      DisableShortcuttingBubbleUp(nodes[p].execPoint);
      DisablingIsKept(old(Marked()), Marked(), p);
      execPending := execPending[p := false];
      ghost var marks := Marked();
      MaybeFinalize(p);
      KeptTwice(old(Marked()), marks, Marked(), {}, {});
    }

    /** The wait for `child` was acknowledged with this number, or will be. */
    ghost predicate Answered(child: int, id: int, missed: bool)
      requires Valid() && IsNode(nodes, child)
      reads this
    {
      var f := nodes[child].forkPoint;
      if missed then sent != [] && sent[|sent| - 1] == Sent(f, id, MissedStaticExec, |nodes|)
      else if CanAckParentWait(f) then
        sent != [] && sent[|sent| - 1] == Sent(f, id, ReasonNow(f), |nodes|)
      else ack[f] == Some(id)
    }

    method Answer(child: int, id: int)
      requires Valid() && IsNode(nodes, child) && id !in used
      requires waited[nodes[child].forkPoint] && ack[nodes[child].forkPoint].None?
      modifies `state, `execPending, `orphan, `hasOrphanDescendant, `ack, `canShortcut, `stored, `sent, `used
      ensures Valid() && used == old(used) + {id} && Answered(child, id, old(execPending)[child])
      ensures
        if old(execPending)[child] then
          Tidied(old(Seen()).(execPending := old(execPending)[child := false]), Seen(), {child})
        else Seen() == old(Seen())
      ensures Kept(old(Marked()), Marked(), {})
    {
      assert Placed(nodes, child);
      NothingHappened(Marked());
      if execPending[child] {
        MaybeFinalizeWithMissedStaticExecChild(child);
        AckMissed(nodes[child].forkPoint, id);
      } else {
        AckOrDefer(nodes[child].forkPoint, id);
      }
    }

    /** A wait, the return of system(), or pclose(), for a child that was not waited for yet. */
    method Wait(child: int, id: int)
      requires Valid() && IsNode(nodes, child) && !waited[nodes[child].forkPoint] && id !in used
      modifies `state, `execPending, `waited, `orphan, `hasOrphanDescendant, `ack, `canShortcut, `stored, `sent, `used
      ensures Valid() && AfterWait(old(Seen()), child, Seen()) && used == old(used) + {id}
      ensures Answered(child, id, old(execPending)[child])
      ensures old(Prompt(Seen(), {})) ==>
        (Prompt(Seen(), {}) <==> !old(HoldsAny(Seen(), child))) && HeldIsReady(old(Seen()), Seen(), child)
      ensures old(Blameless(Marked(), {})) ==> Blameless(Marked(), {})
    {
      var f := nodes[child].forkPoint;
      assert Placed(nodes, child) && PendingInOrder(Now(), ack, sent, used, f);
      SetBeenWaitedFor(f);
      ghost var mid, marks := Seen(), Marked();
      Answer(child, id);
      Waited(old(Seen()), mid, Seen(), child);
      WaitedBlameless(old(Marked()), marks, Marked(), f);
    }

    // ----------------------------------------------------------------------------------------
    // New processes.
    // ----------------------------------------------------------------------------------------

    constructor ()
      ensures Sound() && stored == {} && sent == [] && used == {} && Prompt(Seen(), {}) && Seen() == START
    {
      nodes, state := [Node(Forked, NONE, 0, NONE, NONE, [])], [Terminated];
      execPending, pendingPopen, waited, orphan := [false], [false], [false], [false];
      hasOrphanDescendant, ack, canShortcut := [false], [None], [false];
      stored, sent, used := {}, [], {};
    }

    method AddFlags(kind: Kind, pending: bool)
      modifies `execPending, `pendingPopen, `orphan, `hasOrphanDescendant, `canShortcut
      ensures execPending == old(execPending) + [pending] && pendingPopen == old(pendingPopen) + [false]
      ensures orphan == old(orphan) + [false] && hasOrphanDescendant == old(hasOrphanDescendant) + [false]
      ensures canShortcut == old(canShortcut) + [kind == Execed]
    {
      execPending, pendingPopen, orphan := execPending + [pending], pendingPopen + [false], orphan + [false];
      hasOrphanDescendant, canShortcut := hasOrphanDescendant + [false], canShortcut + [kind == Execed];
    }

    /**
     * A fork, or an exec after which the process that called it has terminated.  A child that is first seen
     * by its exec, or is yet to be, counts as terminated with a pending exec.
     */
    method NewProcess(up: int, kind: Kind, s: State) returns (p: int)
      requires Valid() && IsNode(nodes, up) && state[up] != Finalized && s != Finalized
      requires kind == Execed ==> state[up] == Terminated && nodes[up].execChild == NONE
      modifies `nodes, `state, `execPending, `pendingPopen, `waited, `orphan, `hasOrphanDescendant, `ack, `canShortcut
      ensures Valid() && p == |old(nodes)| && nodes == Grown(old(nodes), up, kind) && state == old(state) + [s]
      ensures Seen() == WithNew(old(Seen()), up, kind, s) && Marked() == WithNewMarks(old(Marked()), up, kind, s)
    {
      p := |nodes|;
      GrownIsValid(Now(), hasOrphanDescendant, ack, stored, sent, used, up, kind, s);
      if kind == Execed {
        execPending := execPending[up := false];
      }
      AddFlags(kind, s == Terminated);
      nodes, state, waited, ack := Grown(nodes, up, kind), state + [s], waited + [false], ack + [None];
    }

    method OnNewProcess(up: int, kind: Kind, s: State)
      requires Sound() && IsNode(nodes, up) && state[up] != Finalized && s != Finalized
      requires kind == Execed ==> state[up] == Terminated && nodes[up].execChild == NONE
      modifies `nodes, `state, `execPending, `pendingPopen, `waited, `orphan, `hasOrphanDescendant, `ack, `canShortcut
      ensures Sound() && Seen() == WithNew(old(Seen()), up, kind, s)
      ensures old(Prompt(Seen(), {}) && Announced(Seen(), up, kind, s)) ==> Prompt(Seen(), {})
    {
      var p := NewProcess(up, kind, s);
      if old(Prompt(Seen(), {}) && Announced(Seen(), up, kind, s)) { NewReadiesNothing(old(Seen()), up, kind, s); }
      NewIsBlameless(old(Marked()), up, kind, s);
    }

    /** The calling process announced an exec or a popen, or took it back. */
    method SetPending(p: int, exec: bool, popen: bool)
      requires Valid() && IsNode(nodes, p) && state[p] == Running
      modifies `execPending, `pendingPopen
      ensures Valid() && execPending == old(execPending)[p := exec] && pendingPopen == old(pendingPopen)[p := popen]
      ensures old(Prompt(Seen(), {})) ==> Prompt(Seen(), {})
    {
      if Prompt(Seen(), {}) { AnnouncingReadiesNothing(Seen(), p, exec, popen); }
      execPending, pendingPopen := execPending[p := exec], pendingPopen[p := popen];
    }

    // ----------------------------------------------------------------------------------------
    // Events.
    // ----------------------------------------------------------------------------------------

    method OnExit(p: int)
      requires Sound() && IsNode(nodes, p) && state[p] == Running
      modifies `state, `orphan, `hasOrphanDescendant, `ack, `canShortcut, `stored, `sent
      ensures Sound() && OnlyFinalizes(old(state)[p := Terminated], state)
      ensures old(Prompt(Seen(), {})) ==> Prompt(Seen(), {})
    {
      Finish(p);
    }

    method OnWait(child: int, id: int)
      requires Sound() && IsNode(nodes, child) && !waited[nodes[child].forkPoint] && id !in used
      modifies `state, `execPending, `waited, `orphan, `hasOrphanDescendant, `ack, `canShortcut, `stored, `sent, `used
      ensures Sound() && AfterWait(old(Seen()), child, Seen()) && used == old(used) + {id}
      ensures old(Prompt(Seen(), {})) ==> (Prompt(Seen(), {}) <==> !old(HoldsAny(Seen(), child)))
    {
      Wait(child, id);
    }

    method Handle(e: Event)
      requires Sound() && Enabled(Seen(), e) && (e.Waits? ==> e.id !in used)
      modifies this
      ensures Sound() && Happened(old(Seen()), e, Seen())
      ensures old(Prompt(Seen(), {}) && Regular(Seen(), e)) ==> Prompt(Seen(), {})
      ensures used == if e.Waits? then old(used) + {e.id} else old(used)
    {
      match e
      case Forks(up, terminated) => OnNewProcess(up, Forked, if terminated then Terminated else Running);
      case Execs(up) => OnNewProcess(up, Execed, Running);
      case Exits(p) => OnExit(p);
      case Waits(child, ackNum) => OnWait(child, ackNum);
      case Announces(p, exec, popen) => SetPending(p, exec, popen);
    }
  }

  // ------------------------------------------------------------------------------------------
  // Runs.
  // ------------------------------------------------------------------------------------------

  datatype Event =
    | Forks(up: int, terminated: bool)
    | Execs(up: int)
    | Exits(p: int)
    | Waits(child: int, id: int)
    | Announces(p: int, exec: bool, popen: bool)

  /** What the intercepted processes can do in this state. */
  predicate Enabled(v: View, e: Event)
    requires |v.state| == |v.waited| == |v.nodes|
  {
    match e
    case Forks(up, _) => IsNode(v.nodes, up) && v.state[up] == Running
    case Execs(up) => IsNode(v.nodes, up) && v.state[up] == Terminated && v.nodes[up].execChild == NONE
    case Exits(p) => IsNode(v.nodes, p) && v.state[p] == Running
    case Waits(child, _) =>
      IsNode(v.nodes, child) && IsNode(v.nodes, v.nodes[child].forkPoint) && !v.waited[v.nodes[child].forkPoint]
    case Announces(p, _, _) => IsNode(v.nodes, p) && v.state[p] == Running
  }

  /** Execs were announced, and no wait ends a process whose pending exec holds another one. */
  ghost predicate Regular(v: View, e: Event)
    requires WellSized(v) && Enabled(v, e)
  {
    match e
    case Execs(up) => v.execPending[up] || |v.nodes| == 1
    case Waits(child, _) => !HoldsAny(v, child)
    case _ => true
  }

  /** What an event changes; apart from that, terminated processes may have been finalized. */
  ghost predicate Happened(v: View, e: Event, now: View)
    requires WellSized(v) && Enabled(v, e)
  {
    match e
    case Forks(up, terminated) => now == WithNew(v, up, Forked, if terminated then Terminated else Running)
    case Execs(up) => now == WithNew(v, up, Execed, Running)
    case Exits(p) => now == v.(state := now.state) && OnlyFinalizes(v.state[p := Terminated], now.state)
    case Waits(child, _) => AfterWait(v, child, now)
    case Announces(p, exec, popen) =>
      now == v.(execPending := v.execPending[p := exec], pendingPopen := v.pendingPopen[p := popen])
  }

  /** An event that can not happen is left out. */
  ghost predicate Step(v: View, e: Event, now: View) {
    WellSized(v) && if Enabled(v, e) then Happened(v, e, now) else now == v
  }

  const START := View([Node(Forked, NONE, 0, NONE, NONE, [])], [Terminated], [false], [false], [false])

  /** The states that the events led through. */
  ghost predicate Trace(trace: seq<View>, events: seq<Event>) {
    |trace| == |events| + 1 && trace[0] == START && forall i :: 0 <= i < |events| ==>
      Step(trace[i], events[i], trace[i + 1])
  }

  ghost predicate Took(v: View, e: Event) {
    WellSized(v) && Enabled(v, e)
  }

  ghost predicate AllRegular(trace: seq<View>, events: seq<Event>)
    requires |trace| > |events|
  {
    forall i :: 0 <= i < |events| && Took(trace[i], events[i]) ==> Regular(trace[i], events[i])
  }

  /** The wait with this number has happened. */
  ghost predicate WasUsed(trace: seq<View>, events: seq<Event>, id: int)
    requires |trace| > |events|
  {
    exists i :: 0 <= i < |events| && Took(trace[i], events[i]) && events[i].Waits? && events[i].id == id
  }

  ghost predicate Accounts(trace: seq<View>, events: seq<Event>, used: set<int>)
    requires |trace| > |events|
  {
    forall id :: id in used <==> WasUsed(trace, events, id)
  }

  lemma OneMoreStep(trace: seq<View>, events: seq<Event>, e: Event, now: View)
    requires Trace(trace, events) && Step(trace[|events|], e, now)
    ensures Trace(trace + [now], events + [e])
    ensures AllRegular(trace + [now], events + [e]) <==>
      AllRegular(trace, events) && (Enabled(trace[|events|], e) ==> Regular(trace[|events|], e))
  {
    var trace', events' := trace + [now], events + [e];
    forall i | 0 <= i < |events'| ensures Step(trace'[i], events'[i], trace'[i + 1]) {
      if i < |events| { assert Step(trace[i], events[i], trace[i + 1]); }
    }
    if AllRegular(trace', events') {
      forall i | 0 <= i < |events| && Took(trace[i], events[i]) ensures Regular(trace[i], events[i]) {
        assert Took(trace'[i], events'[i]);
      }
      assert Enabled(trace[|events|], e) ==> Took(trace'[|events|], events'[|events|]);
    }
  }

  lemma OneMoreUsed(trace: seq<View>, events: seq<Event>, e: Event, now: View, used: set<int>)
    requires Trace(trace, events) && WellSized(trace[|events|]) && Accounts(trace, events, used)
    ensures Accounts(trace + [now], events + [e], used + if Enabled(trace[|events|], e) && e.Waits? then {e.id} else {})
  {
    var trace', events' := trace + [now], events + [e];
    var used' := used + if Enabled(trace[|events|], e) && e.Waits? then {e.id} else {};
    forall id ensures id in used' <==> WasUsed(trace', events', id) {
      if id in used {
        var i :| 0 <= i < |events| && Took(trace[i], events[i]) && events[i].Waits? && events[i].id == id;
        assert Took(trace'[i], events'[i]);
      } else if id in used' {
        assert Took(trace'[|events|], events'[|events|]);
      }
    }
  }

  /** What holds at the end of a run once nothing runs and nothing is pending. */
  ghost predicate AllSettled(s: Supervisor)
    reads s
  {
    && Ordered(s.nodes) && |s.state| == |s.nodes|
    && (forall p :: 0 <= p < |s.nodes| && !InRootChain(s.nodes, p) ==> s.state[p] == Finalized)
    && (forall id :: id in s.used ==> !Unsent(id, s.sent) || (s.ack != [] && s.ack[0] == Some(id)))
  }

  lemma OverIsSettled(s: Supervisor)
    requires s.Valid() && Prompt(s.Seen(), {}) && Over(s.Seen())
    ensures AllSettled(s)
  {
    forall p | 0 <= p < |s.nodes| && !InRootChain(s.nodes, p) ensures s.state[p] == Finalized {
      AllIsFinalized(s.Seen(), p);
    }
    forall id | id in s.used ensures !Unsent(id, s.sent) || (s.ack != [] && s.ack[0] == Some(id)) {
      AllIsAnswered(s.Seen(), s.Now(), s.ack, s.sent, s.used, id);
    }
  }

  /** The supervisor has handled these events. */
  ghost predicate After(s: Supervisor, trace: seq<View>, events: seq<Event>)
    reads s
  {
    && s.Sound() && Trace(trace, events) && trace[|events|] == s.Seen() && Accounts(trace, events, s.used)
    && (AllRegular(trace, events) ==> Prompt(s.Seen(), {}))
  }

  ghost predicate NumbersDiffer(events: seq<Event>) {
    forall i, j :: 0 <= i < j < |events| && events[i].Waits? && events[j].Waits? ==> events[i].id != events[j].id
  }

  ghost predicate NumbersLeft(events: seq<Event>, i: int, used: set<int>)
    requires 0 <= i <= |events|
  {
    forall j :: i <= j < |events| && events[j].Waits? ==> events[j].id !in used
  }

  method HandleNext(s: Supervisor, e: Event, ghost trace: seq<View>, ghost events: seq<Event>)
    returns (ghost trace': seq<View>)
    requires After(s, trace, events) && (e.Waits? ==> e.id !in s.used)
    modifies s
    ensures After(s, trace', events + [e]) && s.used <= old(s.used) + if e.Waits? then {e.id} else {}
  {
    ghost var enabled, used := Enabled(s.Seen(), e), s.used;
    if Enabled(s.Seen(), e) {
      s.Handle(e);
    }
    OneMoreStep(trace, events, e, s.Seen());
    OneMoreUsed(trace, events, e, s.Seen(), used);
    assert s.used == used + if enabled && e.Waits? then {e.id} else {};
    trace' := trace + [s.Seen()];
  }

  method HandleAt(s: Supervisor, events: seq<Event>, i: int, ghost trace: seq<View>) returns (ghost trace': seq<View>)
    requires 0 <= i < |events| && NumbersDiffer(events) && NumbersLeft(events, i, s.used) &&
      After(s, trace, events[..i])
    modifies s
    ensures After(s, trace', events[..i + 1]) && NumbersLeft(events, i + 1, s.used)
  {
    trace' := HandleNext(s, events[i], trace, events[..i]);
    assert events[..i + 1] == events[..i] + [events[i]];
  }

  method Begin() returns (s: Supervisor, ghost trace: seq<View>)
    ensures fresh(s) && After(s, trace, []) && s.used == {}
  {
    s := new Supervisor();
    trace := [s.Seen()];
  }

  method HandleAll(events: seq<Event>) returns (s: Supervisor, ghost trace: seq<View>)
    requires NumbersDiffer(events)
    ensures fresh(s) && After(s, trace, events)
  {
    s, trace := Begin();
    assert events[..0] == [];
    for i := 0 to |events|
      invariant fresh(s) && After(s, trace, events[..i]) && NumbersLeft(events, i, s.used)
    {
      trace := HandleAt(s, events, i, trace);
    }
    assert events[..|events|] == events;
  }

  /** Every run, whatever the processes do and in whatever order it is seen. */
  method Run(events: seq<Event>) returns (s: Supervisor, ghost trace: seq<View>)
    requires NumbersDiffer(events)
    ensures fresh(s) && s.Sound() && Trace(trace, events) && trace[|events|] == s.Seen() &&
      Accounts(trace, events, s.used)
    ensures AllRegular(trace, events) ==> Prompt(s.Seen(), {}) && (Over(s.Seen()) ==> AllSettled(s))
  {
    s, trace := HandleAll(events);
    if AllRegular(trace, events) && Over(s.Seen()) { OverIsSettled(s); }
  }

  /** The root's exec, a process that it forked, and a process that that one forked. */
  const FAMILY := [Node(Forked, NONE, 0, NONE, 1, []), Node(Execed, 0, 0, 1, NONE, [2]),
                   Node(Forked, 1, 2, 1, NONE, [3]), Node(Forked, 2, 3, 1, NONE, [])]

  lemma FamilyGrows(v: View)
    requires v == START && Prompt(v, {})
    ensures
      var one := WithNew(v, 0, Execed, Running);
      WellSized(one) &&
      var two := WithNew(one, 1, Forked, Running);
      WellSized(two) &&
      var all := WithNew(two, 2, Forked, Running);
      && all == View(FAMILY, [Terminated, Running, Running, Running], [false, false, false, false],
                     [false, false, false, false], [false, false, false, false])
      && Prompt(all, {})
  {
    var one := WithNew(v, 0, Execed, Running);
    NewReadiesNothing(v, 0, Execed, Running);
    assert one.nodes == [Node(Forked, NONE, 0, NONE, 1, []), Node(Execed, 0, 0, 1, NONE, [])];
    var two := WithNew(one, 1, Forked, Running);
    NewReadiesNothing(one, 1, Forked, Running);
    assert two.nodes[1].forkChildren == [] + [2] == [2];
    assert two.nodes == FAMILY[..2] + [Node(Forked, 1, 2, 1, NONE, [])];
    var all := WithNew(two, 2, Forked, Running);
    NewReadiesNothing(two, 2, Forked, Running);
    assert all.nodes[2].forkChildren == [] + [3] == [3];
    assert all.nodes == FAMILY;
  }

  method StartFamily() returns (s: Supervisor)
    ensures fresh(s) && s.Valid() && Prompt(s.Seen(), {}) && s.used == {}
    ensures s.nodes == FAMILY && s.state == [Terminated, Running, Running, Running]
    ensures s.execPending == s.pendingPopen == s.waited == [false, false, false, false]
  {
    s := new Supervisor();
    ghost var v := s.Seen();
    var make := s.NewProcess(0, Execed, Running);
    var parent := s.NewProcess(make, Forked, Running);
    var child := s.NewProcess(parent, Forked, Running);
    FamilyGrows(v);
  }

  lemma GrandchildIsHeld(v: View)
    requires Prompt(v, {}) && v.nodes == FAMILY && v.state[2] != Running && v.state[3] != Running
    requires v.execPending[2] && !v.execPending[3] && !v.pendingPopen[3] && !v.waited[3]
    ensures HeldBy(v, 2, 3)
  {
    assert Waiter(v.nodes, 3) == 2;
    assert OrderlyAt(v, 3) && Settled(v, 3);
  }

  /**
   * A process forks, its child exits, and then it execs a program that never signs in.  When the process is
   * waited for, nothing keeps the child from being finalized, but it is not.
   */
  method StaticExecLeavesChildBehind() returns (s: Supervisor)
    ensures fresh(s) && s.Valid() && s.nodes == FAMILY && Ready(s.Seen(), 3)
  {
    s := StartFamily();
    s.Finish(3);
    s.SetPending(2, true, false);
    s.Finish(2);
    GrandchildIsHeld(s.Seen());
    s.Wait(2, 0);
  }
}
