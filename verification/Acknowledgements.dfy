/** Waits are acknowledged once, for a reason, or stay pending. */
module Acknowledgements {
  import opened Options
  import opened ProcTree
  import opened ProcessNodes

  /** Why a wait was acknowledged. */
  datatype Reason = AtFinalize | AlreadyFinalized | OnlyOrphansLeft | MissedStaticExec

  /** An acknowledgement; `upTo` is the number of processes that existed when it was sent. */
  datatype Sent = Sent(forkPoint: int, id: int, reason: Reason, upTo: nat)

  /** What acknowledgements depend on. */
  datatype Situation = Situation(nodes: seq<Node>, state: seq<State>, waited: seq<bool>, orphan: seq<bool>)

  ghost predicate Fits(t: Situation) {
    Shaped(t.nodes) && |t.state| == |t.waited| == |t.orphan| == |t.nodes|
  }

  /** Pending acknowledgements may disappear, but none appears. */
  ghost predicate OnlyAnswers(before: seq<Option<int>>, now: seq<Option<int>>) {
    |before| == |now| && forall p :: 0 <= p < |before| && now[p].Some? ==> before[p] == now[p]
  }

  /**
   * Every wait is acknowledged at most once and never without a reason, or is still pending; and
   * nothing is left pending at a finalized fork point.
   */
  ghost predicate AcksInOrder(t: Situation, ack: seq<Option<int>>, sent: seq<Sent>, used: set<int>)
    requires Fits(t) && |ack| == |t.nodes|
  {
    && (forall p :: 0 <= p < |ack| ==> PendingInOrder(t, ack, sent, used, p))
    && (forall p, q :: 0 <= p < q < |ack| ==> NotPendingTwice(ack, p, q))
    && (forall i :: 0 <= i < |sent| ==> SentInOrder(t, sent, used, i))
    && (forall i, j :: 0 <= i < j < |sent| ==> NotSentTwice(sent, i, j))
    && forall id :: id in used ==> PendingOrSent(id, ack, sent)
  }

  ghost predicate PendingInOrder(t: Situation, ack: seq<Option<int>>, sent: seq<Sent>, used: set<int>, p: int)
    requires Fits(t) && |ack| == |t.nodes| && IsNode(t.nodes, p)
  {
    ack[p].Some? ==>
      t.nodes[p].kind == Forked && t.state[p] != Finalized && t.waited[p] && Unsent(ack[p].value, sent) &&
        ack[p].value in used
  }

  predicate NotPendingTwice(ack: seq<Option<int>>, p: int, q: int)
    requires 0 <= p < |ack| && 0 <= q < |ack|
  {
    ack[p].Some? && ack[q].Some? ==> ack[p] != ack[q]
  }

  ghost predicate SentInOrder(t: Situation, sent: seq<Sent>, used: set<int>, i: int)
    requires Fits(t) && 0 <= i < |sent|
  {
    sent[i].id in used && Justified(t, sent[i])
  }

  predicate NotSentTwice(sent: seq<Sent>, i: int, j: int)
    requires 0 <= i < |sent| && 0 <= j < |sent|
  {
    sent[i].id != sent[j].id
  }

  ghost predicate PendingOrSent(id: int, ack: seq<Option<int>>, sent: seq<Sent>) {
    Pending(id, ack) || !Unsent(id, sent)
  }

  ghost predicate Pending(id: int, ack: seq<Option<int>>) {
    exists p :: 0 <= p < |ack| && ack[p] == Some(id)
  }

  ghost predicate Unsent(id: int, sent: seq<Sent>) {
    forall i :: 0 <= i < |sent| ==> sent[i].id != id
  }

  ghost predicate Justified(t: Situation, s: Sent)
    requires Fits(t)
  {
    && IsNode(t.nodes, s.forkPoint) && s.upTo <= |t.nodes|
    && match s.reason
       case AtFinalize => t.state[s.forkPoint] == Finalized
       case AlreadyFinalized => t.state[s.forkPoint] == Finalized
       case OnlyOrphansLeft => t.state[s.forkPoint] != Running &&
         (s.forkPoint > 0 ==> OnlyOrphansBelow(t, s.forkPoint, s.upTo))
       case MissedStaticExec => true
  }

  // ------------------------------------------------------------------------------------------
  // Orphans below a fork point.
  // ------------------------------------------------------------------------------------------

  /** `q` is at or below an orphan that is below `f`. */
  ghost predicate BelowOrphan(t: Situation, f: int, q: int)
    requires Fits(t) && IsNode(t.nodes, q)
  {
    exists c :: 0 <= f < c < |t.nodes| && t.orphan[c] && AtOrBelow(t.nodes, f, c) && AtOrBelow(t.nodes, c, q)
  }

  ghost predicate HasOrphanBelow(t: Situation, f: int)
    requires Fits(t)
  {
    exists c :: 0 <= f < c < |t.nodes| && t.orphan[c] && AtOrBelow(t.nodes, f, c)
  }

  /** The process is finalized, or has terminated and is left only because of orphans, or is one's descendant. */
  ghost predicate DoneButForOrphans(t: Situation, f: int, q: int)
    requires Fits(t) && IsNode(t.nodes, q)
  {
    || t.state[q] == Finalized
    || (t.state[q] == Terminated && HasOrphanBelow(t, t.nodes[q].forkPoint))
    || BelowOrphan(t, f, q)
  }

  /** Among the first `upTo` processes there are only finalized ones and orphans below `f`, and what they hold up. */
  ghost predicate OnlyOrphansBelow(t: Situation, f: int, upTo: nat)
    requires Fits(t) && upTo <= |t.nodes|
  {
    forall q :: 0 <= q < upTo && AtOrBelow(t.nodes, f, q) ==> DoneButForOrphans(t, f, q)
  }

  /** has_orphan_descendant is only set where there is one. */
  ghost predicate OrphansAreBelow(t: Situation, has: seq<bool>)
    requires Fits(t) && |has| == |t.nodes|
  {
    forall f :: 0 <= f < |has| && has[f] ==> HasOrphanBelow(t, f)
  }

  /** finalized_or_terminated_and_has_orphan_and_finalized_children() */
  predicate OrphansOnly(t: Situation, has: seq<bool>, p: int)
    requires Fits(t) && |has| == |t.nodes| && IsNode(t.nodes, p)
    decreases |t.nodes| - p
  {
    assert Placed(t.nodes, p);
    t.state[p] == Finalized ||
    (t.state[p] == Terminated && has[t.nodes[p].forkPoint] &&
      (forall c :: c in t.nodes[p].forkChildren ==> t.orphan[c] || OrphansOnly(t, has, c)) &&
      (t.nodes[p].execChild != NONE ==> OrphansOnly(t, has, t.nodes[p].execChild)))
  }

  /** Nothing below the fork point is unfinished, but for orphans; or it is finalized. */
  predicate ChildrenOrphansOnly(t: Situation, has: seq<bool>, f: int)
    requires Fits(t) && |has| == |t.nodes| && IsNode(t.nodes, f)
  {
    assert Placed(t.nodes, f);
    && (t.nodes[f].execChild != NONE ==> OrphansOnly(t, has, t.nodes[f].execChild))
    && forall c :: c in t.nodes[f].forkChildren ==> OrphansOnly(t, has, c)
  }

  /** Below a process that the walk accepts there is only what it accepts, or an orphan in between. */
  lemma {:induction false} AcceptedBelow(t: Situation, has: seq<bool>, f: int, p: int, q: int)
    requires Fits(t) && ClosedDownwards(t.nodes, t.state) && |has| == |t.nodes|
    requires IsNode(t.nodes, p) && !InRootChain(t.nodes, p) && OrphansOnly(t, has, p)
    requires 0 <= f < p && AtOrBelow(t.nodes, f, p) && IsNode(t.nodes, q) && AtOrBelow(t.nodes, p, q)
    ensures OrphansOnly(t, has, q) || BelowOrphan(t, f, q)
    decreases q
  {
    if p != q {
      var up := t.nodes[q].parent;
      AcceptedBelow(t, has, f, p, up);
      BelowBelow(t.nodes, f, p, q);
      BelowIsYounger(t.nodes, p, up);
      NotInRootChainBelow(t.nodes, p, up);
      if BelowOrphan(t, f, up) {
        var c :| f < c < |t.nodes| && t.orphan[c] && AtOrBelow(t.nodes, f, c) && AtOrBelow(t.nodes, c, up);
        assert AtOrBelow(t.nodes, c, q);
      } else {
        AcceptedChild(t, has, f, up, q);
      }
    }
  }

  lemma AcceptedChild(t: Situation, has: seq<bool>, f: int, up: int, q: int)
    requires Fits(t) && ClosedDownwards(t.nodes, t.state) && |has| == |t.nodes|
    requires 0 < q < |t.nodes| && t.nodes[q].parent == up && OrphansOnly(t, has, up) && !InRootChain(t.nodes, up)
    requires 0 <= f <= up && AtOrBelow(t.nodes, f, q)
    ensures OrphansOnly(t, has, q) || BelowOrphan(t, f, q)
  {
    assert Placed(t.nodes, q) && ClosedAt(t.nodes, t.state, q);
    if t.state[up] != Finalized && t.nodes[q].kind == Forked && t.orphan[q] {
      assert AtOrBelow(t.nodes, q, q);
    }
  }

  lemma AcceptedIsDone(t: Situation, has: seq<bool>, f: int, q: int)
    requires Fits(t) && |has| == |t.nodes| && OrphansAreBelow(t, has) && IsNode(t.nodes, q)
    requires OrphansOnly(t, has, q) || BelowOrphan(t, f, q)
    ensures DoneButForOrphans(t, f, q)
  {
    assert Placed(t.nodes, q);
  }

  /** Where can_ack_parent_wait() holds of a fork point that is not finalized, there are only orphans left below it. */
  lemma OnlyOrphansAreLeft(t: Situation, has: seq<bool>, f: int)
    requires Fits(t) && ClosedDownwards(t.nodes, t.state) && |has| == |t.nodes| && OrphansAreBelow(t, has)
    requires 0 < f < |t.nodes| && t.nodes[f].kind == Forked && t.state[f] == Terminated && has[f] &&
      ChildrenOrphansOnly(t, has, f)
    ensures OnlyOrphansBelow(t, f, |t.nodes|)
  {
    forall q | 0 <= q < |t.nodes| && AtOrBelow(t.nodes, f, q) ensures DoneButForOrphans(t, f, q) {
      assert Placed(t.nodes, f);
      if q != f {
        var p := FirstStepDown(t.nodes, f, q);
        assert Placed(t.nodes, p);
        NotInRootChainBelow(t.nodes, f, p);
        AcceptedBelow(t, has, f, p, q);
        AcceptedIsDone(t, has, f, q);
      }
    }
  }

  /** An orphan is below the fork point of its parent, ... */
  lemma OrphanIsBelow(t: Situation, f: int)
    requires Fits(t) && 0 < f < |t.nodes| && t.orphan[f]
    ensures IsNode(t.nodes, t.nodes[t.nodes[f].parent].forkPoint) &&
      HasOrphanBelow(t, t.nodes[t.nodes[f].parent].forkPoint)
  {
    var up := t.nodes[f].parent;
    ForkPointIsAbove(t.nodes, up);
    BelowBelow(t.nodes, t.nodes[up].forkPoint, up, f);
  }

  lemma {:induction false} ForkPointIsAbove(nodes: seq<Node>, p: int)
    requires Shaped(nodes) && IsNode(nodes, p)
    ensures 0 <= nodes[p].forkPoint <= p && AtOrBelow(nodes, nodes[p].forkPoint, p)
    decreases p
  {
    assert Placed(nodes, p);
    if nodes[p].kind == Execed { ForkPointIsAbove(nodes, nodes[p].parent); }
  }

  /** ... and so below all fork points above. */
  lemma OrphanBelowParent(t: Situation, f: int)
    requires Fits(t) && 0 < f < |t.nodes| && HasOrphanBelow(t, f)
    ensures IsNode(t.nodes, t.nodes[t.nodes[f].parent].forkPoint) &&
      HasOrphanBelow(t, t.nodes[t.nodes[f].parent].forkPoint)
  {
    var up := t.nodes[f].parent;
    ForkPointIsAbove(t.nodes, up);
    var c :| 0 <= f < c < |t.nodes| && t.orphan[c] && AtOrBelow(t.nodes, f, c);
    BelowBelow(t.nodes, t.nodes[up].forkPoint, up, f);
    BelowBelow(t.nodes, t.nodes[up].forkPoint, f, c);
  }

  // ------------------------------------------------------------------------------------------
  // Later situations.
  // ------------------------------------------------------------------------------------------

  /** States and waits move on, and orphans stay orphans. */
  ghost predicate MovesOn(t: Situation, now: Situation) {
    && Fits(t) && Fits(now) && now.nodes == t.nodes && Forward(t.state, now.state)
    && forall p :: 0 <= p < |t.nodes| ==> (t.orphan[p] ==> now.orphan[p]) && (t.waited[p] ==> now.waited[p])
  }

  lemma OrphanStaysBelow(t: Situation, now: Situation, f: int, q: int)
    requires MovesOn(t, now) && IsNode(t.nodes, q)
    ensures HasOrphanBelow(t, f) ==> HasOrphanBelow(now, f)
    ensures BelowOrphan(t, f, q) ==> BelowOrphan(now, f, q)
  {
  }

  lemma OrphansStayBelow(t: Situation, now: Situation, has: seq<bool>)
    requires MovesOn(t, now) && |has| == |t.nodes| && OrphansAreBelow(t, has)
    ensures OrphansAreBelow(now, has)
  {
    forall f | 0 <= f < |has| && has[f] ensures HasOrphanBelow(now, f) {
      OrphanStaysBelow(t, now, f, f);
    }
  }

  lemma StaysJustified(t: Situation, now: Situation, s: Sent)
    requires MovesOn(t, now) && Justified(t, s)
    ensures Justified(now, s)
  {
    if s.reason == OnlyOrphansLeft && s.forkPoint > 0 {
      forall q | 0 <= q < s.upTo && AtOrBelow(now.nodes, s.forkPoint, q)
        ensures DoneButForOrphans(now, s.forkPoint, q)
      {
        assert DoneButForOrphans(t, s.forkPoint, q);
        OrphanStaysBelow(t, now, s.forkPoint, q);
        OrphanStaysBelow(t, now, t.nodes[q].forkPoint, q);
      }
    }
  }

  lemma SentStaysInOrder(t: Situation, now: Situation, sent: seq<Sent>, used: set<int>)
    requires MovesOn(t, now) && forall i :: 0 <= i < |sent| ==> SentInOrder(t, sent, used, i)
    ensures forall i :: 0 <= i < |sent| ==> SentInOrder(now, sent, used, i)
  {
    forall i | 0 <= i < |sent| ensures SentInOrder(now, sent, used, i) {
      assert SentInOrder(t, sent, used, i);
      StaysJustified(t, now, sent[i]);
    }
  }

  // ------------------------------------------------------------------------------------------
  // Sending and deferring.
  // ------------------------------------------------------------------------------------------

  /** Whatever else is pending or sent, taking `f` off the pending ones and sending it once keeps the order. */
  lemma AckSent(t: Situation, now: Situation, ack: seq<Option<int>>, sent: seq<Sent>, used: set<int>, f: int, s: Sent)
    requires MovesOn(t, now) && |ack| == |t.nodes| && AcksInOrder(t, ack, sent, used)
    requires IsNode(t.nodes, f) && ack[f] == Some(s.id) && Justified(now, s)
    requires forall p :: 0 <= p < |ack| && p != f ==> now.state[p] == t.state[p]
    ensures AcksInOrder(now, ack[f := None], sent + [s], used)
  {
    var ack', sent' := ack[f := None], sent + [s];
    assert PendingInOrder(t, ack, sent, used, f);
    forall p | 0 <= p < |ack'| ensures PendingInOrder(now, ack', sent', used, p) {
      assert PendingInOrder(t, ack, sent, used, p);
      assert if p < f then NotPendingTwice(ack, p, f) else p == f || NotPendingTwice(ack, f, p);
    }
    forall p, q | 0 <= p < q < |ack'| ensures NotPendingTwice(ack', p, q) {
      assert NotPendingTwice(ack, p, q);
    }
    SentStaysInOrder(t, now, sent, used);
    SentOneMore(now, sent, used, s);
    NoneLost(ack, sent, used, f, s);
  }

  /** One more acknowledgement that was not sent yet. */
  lemma SentOneMore(t: Situation, sent: seq<Sent>, used: set<int>, s: Sent)
    requires Fits(t) && s.id in used && Justified(t, s) && Unsent(s.id, sent)
    requires forall i :: 0 <= i < |sent| ==> SentInOrder(t, sent, used, i)
    requires forall i, j :: 0 <= i < j < |sent| ==> NotSentTwice(sent, i, j)
    ensures forall i :: 0 <= i < |sent + [s]| ==> SentInOrder(t, sent + [s], used, i)
    ensures forall i, j :: 0 <= i < j < |sent + [s]| ==> NotSentTwice(sent + [s], i, j)
  {
    var sent' := sent + [s];
    forall i | 0 <= i < |sent'| ensures SentInOrder(t, sent', used, i) {
      assert i < |sent| ==> SentInOrder(t, sent, used, i);
    }
    forall i, j | 0 <= i < j < |sent'| ensures NotSentTwice(sent', i, j) {
      assert j < |sent| ==> NotSentTwice(sent, i, j);
    }
  }

  /** What is taken off the pending ones is sent. */
  lemma NoneLost(ack: seq<Option<int>>, sent: seq<Sent>, used: set<int>, f: int, s: Sent)
    requires forall id :: id in used ==> PendingOrSent(id, ack, sent)
    requires 0 <= f < |ack| && ack[f] == Some(s.id)
    ensures forall id :: id in used ==> PendingOrSent(id, ack[f := None], sent + [s])
  {
    var ack', sent' := ack[f := None], sent + [s];
    forall id | id in used ensures PendingOrSent(id, ack', sent') {
      assert PendingOrSent(id, ack, sent);
      if id == s.id {
        assert sent'[|sent|].id == id;
      } else if Pending(id, ack) {
        var p :| 0 <= p < |ack| && ack[p] == Some(id);
        assert ack'[p] == Some(id);
      } else {
        var i :| 0 <= i < |sent| && sent[i].id == id;
        assert sent'[i].id == id;
      }
    }
  }

  /** Everything may move on, except that a fork point with a pending acknowledgement is not finalized. */
  lemma AcksLater(t: Situation, now: Situation, ack: seq<Option<int>>, sent: seq<Sent>, used: set<int>)
    requires MovesOn(t, now) && |ack| == |t.nodes| && AcksInOrder(t, ack, sent, used)
    requires forall p :: 0 <= p < |ack| && ack[p].Some? && now.state[p] == Finalized ==> t.state[p] == Finalized
    ensures AcksInOrder(now, ack, sent, used)
  {
    forall p | 0 <= p < |ack| ensures PendingInOrder(now, ack, sent, used, p) {
      assert PendingInOrder(t, ack, sent, used, p);
    }
    SentStaysInOrder(t, now, sent, used);
  }

  /** An acknowledgement is sent at once, ... */
  lemma AckedAtOnce(t: Situation, ack: seq<Option<int>>, sent: seq<Sent>, used: set<int>, s: Sent)
    requires Fits(t) && |ack| == |t.nodes| && AcksInOrder(t, ack, sent, used)
    requires s.id !in used && Justified(t, s)
    ensures AcksInOrder(t, ack, sent + [s], used + {s.id})
  {
    var sent', used' := sent + [s], used + {s.id};
    forall i | 0 <= i < |sent| ensures SentInOrder(t, sent, used', i) && sent[i].id != s.id {
      assert SentInOrder(t, sent, used, i);
    }
    SentOneMore(t, sent, used', s);
    forall p | 0 <= p < |ack| ensures PendingInOrder(t, ack, sent', used', p) {
      assert PendingInOrder(t, ack, sent, used, p);
    }
    forall id | id in used' ensures PendingOrSent(id, ack, sent') {
      if id == s.id {
        assert sent'[|sent|].id == id;
      } else {
        assert PendingOrSent(id, ack, sent);
        if !Pending(id, ack) {
          var i :| 0 <= i < |sent| && sent[i].id == id;
          assert sent'[i].id == id;
        }
      }
    }
  }

  /** ... or deferred. */
  lemma AckDeferred(t: Situation, ack: seq<Option<int>>, sent: seq<Sent>, used: set<int>, f: int, id: int)
    requires Fits(t) && |ack| == |t.nodes| && AcksInOrder(t, ack, sent, used)
    requires IsNode(t.nodes, f) && t.nodes[f].kind == Forked && t.state[f] != Finalized && t.waited[f]
    requires id !in used && ack[f].None?
    ensures AcksInOrder(t, ack[f := Some(id)], sent, used + {id})
  {
    var ack', used' := ack[f := Some(id)], used + {id};
    forall i | 0 <= i < |sent| ensures SentInOrder(t, sent, used', i) && sent[i].id != id {
      assert SentInOrder(t, sent, used, i);
    }
    forall p | 0 <= p < |ack| ensures PendingInOrder(t, ack', sent, used', p) {
      assert PendingInOrder(t, ack, sent, used, p);
    }
    forall p, q | 0 <= p < q < |ack| ensures NotPendingTwice(ack', p, q) {
      assert NotPendingTwice(ack, p, q);
      assert PendingInOrder(t, ack, sent, used, p) && PendingInOrder(t, ack, sent, used, q);
    }
    forall x | x in used' ensures PendingOrSent(x, ack', sent) {
      if x == id {
        assert ack'[f] == Some(id);
      } else {
        assert PendingOrSent(x, ack, sent);
        if Pending(x, ack) {
          var p :| 0 <= p < |ack| && ack[p] == Some(x);
          assert ack'[p] == Some(x);
        }
      }
    }
  }

  // ------------------------------------------------------------------------------------------
  // New processes.
  // ------------------------------------------------------------------------------------------

  ghost function WithNewSituation(t: Situation, up: int, kind: Kind, s: State): Situation
    requires IsNode(t.nodes, up)
  {
    Situation(Grown(t.nodes, up, kind), t.state + [s], t.waited + [false], t.orphan + [false])
  }

  lemma GrownKeepsOrphanBelow(t: Situation, up: int, kind: Kind, s: State, f: int, q: int)
    requires Fits(t) && IsNode(t.nodes, up) && (kind == Execed ==> t.nodes[up].execChild == NONE) && IsNode(t.nodes, q)
    ensures Fits(WithNewSituation(t, up, kind, s))
    ensures HasOrphanBelow(t, f) ==> HasOrphanBelow(WithNewSituation(t, up, kind, s), f)
    ensures BelowOrphan(t, f, q) ==> BelowOrphan(WithNewSituation(t, up, kind, s), f, q)
  {
    var now := WithNewSituation(t, up, kind, s);
    GrownIsShaped(t.nodes, up, kind);
    forall c | 0 <= f < c < |t.nodes| && t.orphan[c] && AtOrBelow(t.nodes, f, c)
      ensures now.orphan[c] && AtOrBelow(now.nodes, f, c) && (AtOrBelow(t.nodes, c, q) ==> AtOrBelow(now.nodes, c, q))
    {
      GrownKeepsBelow(t.nodes, up, kind, f, c);
      GrownKeepsBelow(t.nodes, up, kind, c, q);
    }
  }

  lemma GrownStaysJustified(t: Situation, up: int, kind: Kind, s: State, sent: Sent)
    requires Fits(t) && IsNode(t.nodes, up) && (kind == Execed ==> t.nodes[up].execChild == NONE) && Justified(t, sent)
    ensures Fits(WithNewSituation(t, up, kind, s)) && Justified(WithNewSituation(t, up, kind, s), sent)
  {
    var now, f := WithNewSituation(t, up, kind, s), sent.forkPoint;
    GrownIsShaped(t.nodes, up, kind);
    if sent.reason == OnlyOrphansLeft && f > 0 {
      forall q | 0 <= q < sent.upTo && AtOrBelow(now.nodes, f, q) ensures DoneButForOrphans(now, f, q) {
        GrownKeepsBelow(t.nodes, up, kind, f, q);
        GrownKeeps(t.nodes, up, kind, q);
        assert DoneButForOrphans(t, f, q);
        GrownKeepsOrphanBelow(t, up, kind, s, f, q);
        GrownKeepsOrphanBelow(t, up, kind, s, t.nodes[q].forkPoint, q);
      }
    }
  }

  lemma GrownKeepsAcks(t: Situation, ack: seq<Option<int>>, sent: seq<Sent>, used: set<int>, up: int, kind: Kind,
                       s: State)
    requires Fits(t) && |ack| == |t.nodes| && AcksInOrder(t, ack, sent, used)
    requires IsNode(t.nodes, up) && (kind == Execed ==> t.nodes[up].execChild == NONE)
    ensures Fits(WithNewSituation(t, up, kind, s)) &&
      AcksInOrder(WithNewSituation(t, up, kind, s), ack + [None], sent, used)
  {
    var now, ack' := WithNewSituation(t, up, kind, s), ack + [None];
    GrownIsShaped(t.nodes, up, kind);
    forall i | 0 <= i < |sent| ensures SentInOrder(now, sent, used, i) {
      assert SentInOrder(t, sent, used, i);
      GrownStaysJustified(t, up, kind, s, sent[i]);
    }
    forall p | 0 <= p < |ack'| ensures PendingInOrder(now, ack', sent, used, p) {
      if p < |ack| {
        assert PendingInOrder(t, ack, sent, used, p);
        GrownKeeps(t.nodes, up, kind, p);
      }
    }
    forall p, q | 0 <= p < q < |ack'| ensures NotPendingTwice(ack', p, q) {
      assert q < |ack| ==> NotPendingTwice(ack, p, q);
    }
    forall id | id in used ensures PendingOrSent(id, ack', sent) {
      assert PendingOrSent(id, ack, sent);
      if Pending(id, ack) {
        var p :| 0 <= p < |ack| && ack[p] == Some(id);
        assert ack'[p] == Some(id);
      }
    }
  }

  lemma GrownKeepsOrphans(t: Situation, has: seq<bool>, up: int, kind: Kind, s: State)
    requires Fits(t) && |has| == |t.nodes| && OrphansAreBelow(t, has)
    requires IsNode(t.nodes, up) && (kind == Execed ==> t.nodes[up].execChild == NONE)
    ensures Fits(WithNewSituation(t, up, kind, s)) && OrphansAreBelow(WithNewSituation(t, up, kind, s), has + [false])
  {
    GrownIsShaped(t.nodes, up, kind);
    forall f | 0 <= f < |has| && has[f] ensures HasOrphanBelow(WithNewSituation(t, up, kind, s), f) {
      GrownKeepsOrphanBelow(t, up, kind, s, f, f);
    }
  }
}
