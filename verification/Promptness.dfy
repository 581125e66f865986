/**
 * Nothing is left behind: a process that can be finalized has been.  Finalizing is only tried at certain
 * moments and places; the lemmas here say which processes each kind of step can make ready, and hence where
 * it has to be tried.
 */
module Promptness {
  import opened ProcTree
  import opened ProcessNodes

  /** What decides whether a process can be finalized. */
  datatype View = View(nodes: seq<Node>, state: seq<State>, execPending: seq<bool>, pendingPopen: seq<bool>,
                       waited: seq<bool>)

  ghost predicate WellSized(v: View) {
    Shaped(v.nodes) && |v.state| == |v.execPending| == |v.pendingPopen| == |v.waited| == |v.nodes|
  }

  /** The process that could still wait for the fork child `f`. */
  ghost function Waiter(nodes: seq<Node>, f: int): int
    requires Shaped(nodes) && 0 < f < |nodes|
  {
    LastExec(nodes, nodes[f].parent)
  }

  /** The parent may still wait for the process: it, or what replaced it, runs or is about to. */
  ghost predicate MayWait(v: View, f: int)
    requires WellSized(v) && 0 < f < |v.nodes|
  {
    v.state[Waiter(v.nodes, f)] == Running || v.execPending[Waiter(v.nodes, f)]
  }

  ghost predicate Settled(v: View, p: int)
    requires WellSized(v) && IsNode(v.nodes, p)
  {
    && !v.execPending[p] && !v.pendingPopen[p]
    && forall q :: 0 < q < |v.nodes| && v.nodes[q].parent == p ==> v.state[q] == Finalized
  }

  /** A terminated process, outside the root's exec chain, that nothing keeps from being finalized. */
  ghost predicate Ready(v: View, p: int)
    requires WellSized(v) && IsNode(v.nodes, p)
  {
    var f := v.nodes[p].forkPoint;
    f > 0 && v.state[p] == Terminated && Settled(v, p) && (v.waited[f] || !MayWait(v, f))
  }

  /** A running or exec'ing process was not replaced yet; what is finalized will not be waited for any more. */
  ghost predicate OrderlyAt(v: View, p: int)
    requires WellSized(v) && IsNode(v.nodes, p)
  {
    var f := v.nodes[p].forkPoint;
    && (v.state[p] == Running || v.execPending[p] ==> v.nodes[p].execChild == NONE)
    && (v.state[p] == Finalized && f > 0 ==> v.waited[f] || !MayWait(v, f))
  }

  /** Nothing but `late` is ready. */
  ghost predicate Prompt(v: View, late: set<int>) {
    && WellSized(v)
    && forall p :: 0 <= p < |v.nodes| ==> OrderlyAt(v, p) && (p !in late ==> !Ready(v, p))
  }

  ghost predicate Over(v: View)
    requires WellSized(v)
  {
    forall p :: 0 <= p < |v.nodes| ==> v.state[p] != Running && !v.execPending[p] && !v.pendingPopen[p]
  }

  /** Once everything has terminated and nothing is pending, everything outside the root's exec chain is finalized. */
  lemma {:induction false} AllIsFinalized(v: View, p: int)
    requires Prompt(v, {}) && Over(v) && IsNode(v.nodes, p) && v.nodes[p].forkPoint > 0
    ensures v.state[p] == Finalized
    decreases |v.nodes| - p
  {
    forall q | 0 < q < |v.nodes| && v.nodes[q].parent == p ensures v.state[q] == Finalized {
      assert Placed(v.nodes, q);
      AllIsFinalized(v, q);
    }
    assert Settled(v, p) && !Ready(v, p);
  }

  // ------------------------------------------------------------------------------------------
  // Exec chains.
  // ------------------------------------------------------------------------------------------

  lemma {:induction false} LastHasForkPoint(nodes: seq<Node>, p: int)
    requires Shaped(nodes) && IsNode(nodes, p)
    ensures nodes[LastExec(nodes, p)].forkPoint == nodes[p].forkPoint
    decreases |nodes| - p
  {
    assert Placed(nodes, p);
    if nodes[p].execChild != NONE {
      assert Placed(nodes, nodes[p].execChild);
      LastHasForkPoint(nodes, nodes[p].execChild);
    }
  }

  lemma {:induction false} LastOfChain(nodes: seq<Node>, p: int, q: int)
    requires Shaped(nodes) && IsNode(nodes, p) && IsNode(nodes, q) && OnExecChain(nodes, p, q) &&
      nodes[q].execChild == NONE
    ensures LastExec(nodes, p) == q
    decreases |nodes| - p
  {
    assert Placed(nodes, p);
    if p != q { LastOfChain(nodes, nodes[p].execChild, q); }
  }

  /** A chain has one last process. */
  lemma LastOfForkPoint(nodes: seq<Node>, q: int)
    requires Shaped(nodes) && IsNode(nodes, q) && nodes[q].execChild == NONE
    ensures IsNode(nodes, nodes[q].forkPoint) && LastExec(nodes, nodes[q].forkPoint) == q
  {
    ForkPointStartsChain(nodes, q);
    LastOfChain(nodes, nodes[q].forkPoint, q);
  }

  /** A process whose fork point nobody waited for, but that otherwise could be finalized, is the last of its chain. */
  lemma UnwaitedIsLast(v: View, q: int)
    requires Prompt(v, {q}) && IsNode(v.nodes, q) && v.nodes[q].forkPoint > 0 && Settled(v, q)
    requires !v.waited[v.nodes[q].forkPoint] && MayWait(v, v.nodes[q].forkPoint)
    ensures q == LastExec(v.nodes, v.nodes[q].forkPoint)
  {
    var f := v.nodes[q].forkPoint;
    forall p | 0 <= p < |v.nodes|
      ensures Placed(v.nodes, p) && (v.nodes[p].forkPoint == f ==> v.state[p] != Finalized)
    {
      assert OrderlyAt(v, p);
    }
    assert v.nodes[q].execChild == NONE;
    LastOfForkPoint(v.nodes, q);
  }

  /** The last processes of the given fork children that were not waited for. */
  ghost function Lasts(nodes: seq<Node>, waited: seq<bool>, children: seq<int>): set<int>
    requires Shaped(nodes) && |waited| == |nodes|
  {
    set c | c in children && IsNode(nodes, c) && !waited[c] :: LastExec(nodes, c)
  }

  /** ... of all fork children of the exec chain from `p` on. */
  ghost function ChainLasts(nodes: seq<Node>, waited: seq<bool>, p: int): set<int>
    requires Shaped(nodes) && |waited| == |nodes| && NONE <= p < |nodes|
    decreases if p == NONE then 0 else |nodes| - p
  {
    if p == NONE then {}
    else
      assert Placed(nodes, p);
      Lasts(nodes, waited, nodes[p].forkChildren) + ChainLasts(nodes, waited, nodes[p].execChild)
  }

  lemma LastsOfOne(nodes: seq<Node>, waited: seq<bool>, c: int)
    requires Shaped(nodes) && |waited| == |nodes| && IsNode(nodes, c)
    ensures Lasts(nodes, waited, [c]) == if waited[c] then {} else {LastExec(nodes, c)}
  {
    assert c in [c];
  }

  lemma LastsOfMore(nodes: seq<Node>, waited: seq<bool>, children: seq<int>, c: int)
    requires Shaped(nodes) && |waited| == |nodes| && IsNode(nodes, c)
    ensures Lasts(nodes, waited, children + [c]) ==
      Lasts(nodes, waited, children) + if waited[c] then {} else {LastExec(nodes, c)}
  {
    var both := children + [c];
    forall d | d in both ensures d in children || d == c {
    }
  }

  lemma {:induction false} InChainLasts(nodes: seq<Node>, waited: seq<bool>, p: int, up: int, c: int)
    requires Shaped(nodes) && |waited| == |nodes| && IsNode(nodes, p) && IsNode(nodes, up) && OnExecChain(nodes, p, up)
    requires c in nodes[up].forkChildren && IsNode(nodes, c) && !waited[c]
    ensures LastExec(nodes, c) in ChainLasts(nodes, waited, p)
    decreases |nodes| - p
  {
    assert Placed(nodes, p);
    if p != up { InChainLasts(nodes, waited, nodes[p].execChild, up, c); }
  }

  /** Whatever waited for the end of a chain is among the last processes of its fork children. */
  lemma WaitersAreLasts(nodes: seq<Node>, waited: seq<bool>, p: int, c: int)
    requires Shaped(nodes) && |waited| == |nodes| && IsNode(nodes, p) && 0 < c < |nodes| && nodes[c].kind == Forked
    requires Waiter(nodes, c) == p && !waited[c]
    ensures IsNode(nodes, nodes[p].forkPoint) && LastExec(nodes, c) in ChainLasts(nodes, waited, nodes[p].forkPoint)
  {
    var up := nodes[c].parent;
    assert Placed(nodes, c);
    LastHasForkPoint(nodes, up);
    ForkPointStartsChain(nodes, up);
    InChainLasts(nodes, waited, nodes[p].forkPoint, up, c);
  }

  // ------------------------------------------------------------------------------------------
  // What each step makes ready.
  // ------------------------------------------------------------------------------------------

  lemma NotReadyIsNotLate(v: View, late: set<int>, p: int)
    requires Prompt(v, late + {p}) && (IsNode(v.nodes, p) ==> !Ready(v, p))
    ensures Prompt(v, late)
  {
    forall q | 0 <= q < |v.nodes| ensures OrderlyAt(v, q) && (q !in late ==> !Ready(v, q)) {
      assert OrderlyAt(v, q) && (q !in late + {p} ==> !Ready(v, q));
    }
  }

  /** Finalizing a process can make its parent ready, and nothing else. */
  lemma FinalizingReadiesParent(v: View, late: set<int>, p: int)
    requires Prompt(v, late + {p}) && IsNode(v.nodes, p) && v.state[p] == Terminated
    requires v.nodes[p].forkPoint > 0 ==> v.waited[v.nodes[p].forkPoint] || !MayWait(v, v.nodes[p].forkPoint)
    ensures Prompt(v.(state := v.state[p := Finalized]), late + {v.nodes[p].parent})
  {
    var now := v.(state := v.state[p := Finalized]);
    forall q | 0 <= q < |v.nodes| ensures OrderlyAt(now, q) && (q !in late + {v.nodes[p].parent} ==> !Ready(now, q)) {
      assert OrderlyAt(v, q) && (q !in late + {p} ==> !Ready(v, q));
      var f := v.nodes[q].forkPoint;
      assert f > 0 ==> MayWait(now, f) == MayWait(v, f);
      if q != p && q != v.nodes[p].parent {
        assert Settled(now, q) ==> Settled(v, q);
      }
    }
  }

  // ------------------------------------------------------------------------------------------
  // Trying to finalize.
  // ------------------------------------------------------------------------------------------

  ghost predicate AboveAny(nodes: seq<Node>, tried: set<int>, q: int)
    requires Shaped(nodes)
  {
    exists p :: p in tried && IsNode(nodes, p) && AtOrBelow(nodes, q, p)
  }

  ghost predicate SameOrFinalized(v: View, now: View, tried: set<int>, q: int)
    requires WellSized(v) && |now.state| == |v.nodes| && IsNode(v.nodes, q)
  {
    now.state[q] == v.state[q] || (v.state[q] == Terminated && now.state[q] == Finalized && AboveAny(v.nodes, tried, q))
  }

  /** Finalizing was tried from the given processes upwards: none of them is late any more. */
  ghost predicate Tidied(v: View, now: View, tried: set<int>) {
    && WellSized(v) && now == v.(state := now.state) && |now.state| == |v.state|
    && (forall q :: 0 <= q < |v.nodes| ==> SameOrFinalized(v, now, tried, q))
    && forall late :: Prompt(v, late + tried) ==> Prompt(now, late)
  }

  /** Finalizing alone terminates nothing. */
  ghost predicate OnlyFinalizes(before: seq<State>, now: seq<State>) {
    && |before| == |now|
    && forall p :: 0 <= p < |before| ==> now[p] == before[p] || (before[p] == Terminated && now[p] == Finalized)
  }

  lemma TidiedOnlyFinalizes(v: View, now: View, tried: set<int>)
    requires Tidied(v, now, tried)
    ensures OnlyFinalizes(v.state, now.state)
  {
    forall q | 0 <= q < |v.state|
      ensures now.state[q] == v.state[q] || (v.state[q] == Terminated && now.state[q] == Finalized)
    {
      assert SameOrFinalized(v, now, tried, q);
    }
  }

  lemma NothingTidied(v: View)
    requires WellSized(v)
    ensures Tidied(v, v, {})
  {
    forall late | Prompt(v, late + {}) ensures Prompt(v, late) {
      assert late + {} == late;
    }
  }

  lemma NotReadyIsTidied(v: View, p: int)
    requires WellSized(v) && IsNode(v.nodes, p) && !Ready(v, p)
    ensures Tidied(v, v, {p})
  {
    forall late | Prompt(v, late + {p}) ensures Prompt(v, late) {
      NotReadyIsNotLate(v, late, p);
    }
  }

  lemma TidiedTwice(v: View, mid: View, now: View, one: set<int>, two: set<int>)
    requires Tidied(v, mid, one) && Tidied(mid, now, two)
    ensures Tidied(v, now, one + two)
  {
    forall q | 0 <= q < |v.nodes| ensures SameOrFinalized(v, now, one + two, q) {
      assert SameOrFinalized(v, mid, one, q) && SameOrFinalized(mid, now, two, q);
    }
    forall late | Prompt(v, late + (one + two)) ensures Prompt(now, late) {
      assert late + (one + two) == (late + two) + one;
    }
  }

  /** Trying from the last process of one more child. */
  lemma OneMoreTried(v: View, mid: View, now: View, children: seq<int>, i: int)
    requires WellSized(v) && 0 <= i < |children| && IsNode(v.nodes, children[i])
    requires Tidied(v, mid, Lasts(v.nodes, v.waited, children[..i]))
    requires Tidied(mid, now, Lasts(v.nodes, v.waited, [children[i]]))
    ensures Tidied(v, now, Lasts(v.nodes, v.waited, children[..i + 1]))
    ensures Lasts(v.nodes, v.waited, children[..i + 1]) != {} <==>
      Lasts(v.nodes, v.waited, children[..i]) != {} || !v.waited[children[i]]
  {
    var done, one := Lasts(v.nodes, v.waited, children[..i]), Lasts(v.nodes, v.waited, [children[i]]);
    assert children[..i + 1] == children[..i] + [children[i]];
    LastsOfMore(v.nodes, v.waited, children[..i], children[i]);
    LastsOfOne(v.nodes, v.waited, children[i]);
    assert done + one == Lasts(v.nodes, v.waited, children[..i + 1]);
    TidiedTwice(v, mid, now, done, one);
  }

  /** A process that was finalized, and then what is above it. */
  lemma TidiedUpwards(v: View, mid: View, now: View, p: int)
    requires WellSized(v) && IsNode(v.nodes, p) && v.state[p] == Terminated
    requires v.nodes[p].forkPoint > 0 ==> v.waited[v.nodes[p].forkPoint] || !MayWait(v, v.nodes[p].forkPoint)
    requires mid == v.(state := v.state[p := Finalized])
    requires if v.nodes[p].parent == NONE then now == mid else Tidied(mid, now, {v.nodes[p].parent})
    ensures Tidied(v, now, {p}) && now.state[p] == Finalized
  {
    var up := v.nodes[p].parent;
    forall q | 0 <= q < |v.nodes| ensures SameOrFinalized(v, now, {p}, q) && (q == p ==> now.state[q] == Finalized) {
      assert AtOrBelow(v.nodes, p, p);
      assert up != NONE ==> SameOrFinalized(mid, now, {up}, q);
    }
    forall late | Prompt(v, late + {p}) ensures Prompt(now, late) {
      FinalizingReadiesParent(v, late, p);
      if up == NONE { NotReadyIsNotLate(mid, late, NONE); }
    }
  }

  /** The end of a process can make it ready, and the last processes of the fork children of its chain. */
  lemma EndingReadiesLasts(v: View, p: int)
    requires Prompt(v, {}) && IsNode(v.nodes, p) && v.state[p] == Running
    ensures Prompt(v.(state := v.state[p := Terminated]), {p} + ChainLasts(v.nodes, v.waited, v.nodes[p].forkPoint))
    ensures v.execPending[p] || v.nodes[p].execChild != NONE ==> Prompt(v.(state := v.state[p := Terminated]), {p})
  {
    var now := v.(state := v.state[p := Terminated]);
    var late := {p} + ChainLasts(v.nodes, v.waited, v.nodes[p].forkPoint);
    assert OrderlyAt(v, p);
    forall q | 0 <= q < |v.nodes|
      ensures OrderlyAt(now, q) && (q !in late || v.execPending[p] ==> !Ready(now, q))
    {
      assert OrderlyAt(v, q) && !Ready(v, q);
      EndingReadies(v, p, q);
    }
  }

  lemma EndingReadies(v: View, p: int, q: int)
    requires Prompt(v, {}) && IsNode(v.nodes, p) && v.state[p] == Running && IsNode(v.nodes, q)
    ensures OrderlyAt(v.(state := v.state[p := Terminated]), q)
    ensures Ready(v.(state := v.state[p := Terminated]), q) ==>
      !v.execPending[p] && q in {p} + ChainLasts(v.nodes, v.waited, v.nodes[p].forkPoint)
  {
    var now, f := v.(state := v.state[p := Terminated]), v.nodes[q].forkPoint;
    assert OrderlyAt(v, q) && !Ready(v, q) && Placed(v.nodes, q);
    assert f > 0 && MayWait(now, f) ==> MayWait(v, f);
    if Ready(now, q) && q != p {
      assert Settled(v, q) && MayWait(v, f) && !MayWait(now, f) && Waiter(v.nodes, f) == p;
      UnwaitedIsLast(v, q);
      WaitersAreLasts(v.nodes, v.waited, p, f);
    }
  }

  /** Where the end of a process makes finalizing try. */
  lemma Ended(v: View, mid: View, now: View, p: int, tried: set<int>)
    requires WellSized(v) && IsNode(v.nodes, p) && v.state[p] == Running
    requires tried ==
      if v.nodes[p].execChild == NONE && !v.execPending[p] then ChainLasts(v.nodes, v.waited, v.nodes[p].forkPoint)
        else {}
    requires Tidied(v.(state := v.state[p := Terminated]), mid, tried) && Tidied(mid, now, {p})
    ensures OnlyFinalizes(v.state[p := Terminated], now.state)
    ensures Prompt(v, {}) ==> Prompt(now, {})
  {
    var after := v.(state := v.state[p := Terminated]);
    TidiedTwice(after, mid, now, tried, {p});
    TidiedOnlyFinalizes(after, now, tried + {p});
    if Prompt(v, {}) {
      EndingReadiesLasts(v, p);
      assert {p} + {} == {p} && {} + {p} == {p};
    }
  }

  /** A wait can make the last process of the chain ready, and nothing else. */
  lemma WaitingReadiesLast(v: View, f: int)
    requires Prompt(v, {}) && IsNode(v.nodes, f) && v.nodes[f].forkPoint == f
    ensures Prompt(v.(waited := v.waited[f := true]), {LastExec(v.nodes, f)})
  {
    var now := v.(waited := v.waited[f := true]);
    forall q | 0 <= q < |v.nodes| ensures OrderlyAt(now, q) && (q !in {LastExec(v.nodes, f)} ==> !Ready(now, q)) {
      assert OrderlyAt(v, q) && !Ready(v, q);
      var g := v.nodes[q].forkPoint;
      assert g > 0 ==> MayWait(now, g) == MayWait(v, g);
      if Ready(now, q) {
        assert Settled(v, q) && g == f;
        UnwaitedIsLast(v, q);
      }
    }
  }

  /** What a running process announces makes nothing ready. */
  lemma AnnouncingReadiesNothing(v: View, p: int, exec: bool, popen: bool)
    requires Prompt(v, {}) && IsNode(v.nodes, p) && v.state[p] == Running
    ensures Prompt(v.(execPending := v.execPending[p := exec], pendingPopen := v.pendingPopen[p := popen]), {})
  {
    var now := v.(execPending := v.execPending[p := exec], pendingPopen := v.pendingPopen[p := popen]);
    forall q | 0 <= q < |v.nodes| ensures OrderlyAt(now, q) && !Ready(now, q) {
      assert OrderlyAt(v, q) && !Ready(v, q);
      var f := v.nodes[q].forkPoint;
      assert f > 0 ==> MayWait(now, f) == MayWait(v, f);
      if q != p { assert Settled(now, q) == Settled(v, q); }
    }
  }

  /** Only the exec that `p` never did keeps `q` from being finalized. */
  ghost predicate HeldBy(v: View, p: int, q: int)
    requires WellSized(v) && IsNode(v.nodes, p) && IsNode(v.nodes, q)
  {
    var f := v.nodes[q].forkPoint;
    && f > 0 && v.state[p] != Running && v.execPending[p]
    && v.state[q] == Terminated && Settled(v, q) && !v.waited[f] && Waiter(v.nodes, f) == p
  }

  /** Some process is. */
  ghost predicate HoldsAny(v: View, p: int)
    requires WellSized(v) && IsNode(v.nodes, p)
  {
    exists q :: 0 <= q < |v.nodes| && HeldBy(v, p, q)
  }

  /** Giving up on an exec can make the process ready, and just those that were held by it. */
  lemma GivingUpReadies(v: View, p: int, q: int)
    requires Prompt(v, {}) && IsNode(v.nodes, p) && IsNode(v.nodes, q) && p != q
    ensures OrderlyAt(v.(execPending := v.execPending[p := false]), q)
    ensures Ready(v.(execPending := v.execPending[p := false]), q) <==> HeldBy(v, p, q)
  {
    var now, f := v.(execPending := v.execPending[p := false]), v.nodes[q].forkPoint;
    assert OrderlyAt(v, q) && !Ready(v, q);
    assert Settled(now, q) == Settled(v, q);
    assert f > 0 && MayWait(now, f) ==> MayWait(v, f);
  }

  lemma GivingUpReadiesHeld(v: View, p: int)
    requires Prompt(v, {}) && IsNode(v.nodes, p) && !HoldsAny(v, p)
    ensures Prompt(v.(execPending := v.execPending[p := false]), {p})
  {
    var now := v.(execPending := v.execPending[p := false]);
    forall q | 0 <= q < |v.nodes| ensures OrderlyAt(now, q) && (q !in {p} ==> !Ready(now, q)) {
      if q != p {
        GivingUpReadies(v, p, q);
      } else {
        assert OrderlyAt(v, p);
        assert v.nodes[p].forkPoint > 0 && MayWait(now, v.nodes[p].forkPoint) ==> MayWait(v, v.nodes[p].forkPoint);
      }
    }
  }

  /** What the end of a chain could have waited for is not above it. */
  lemma {:induction false} NotAboveWaiter(nodes: seq<Node>, up: int, p: int, q: int)
    requires Shaped(nodes) && IsNode(nodes, up) && IsNode(nodes, p) && OnExecChain(nodes, nodes[up].forkPoint, p)
    requires IsNode(nodes, q) && up < nodes[q].forkPoint && nodes[p].forkPoint == nodes[up].forkPoint
    ensures !AtOrBelow(nodes, q, p)
    decreases p
  {
    assert Placed(nodes, p) && Placed(nodes, up);
    if nodes[p].kind == Execed {
      ForkPointStartsChain(nodes, nodes[p].parent);
      NotAboveWaiter(nodes, up, nodes[p].parent, q);
    } else {
      BelowIsYounger(nodes, q, p);
    }
  }

  lemma HeldIsNotAbove(nodes: seq<Node>, p: int, q: int)
    requires Shaped(nodes) && IsNode(nodes, p) && IsNode(nodes, q)
    requires nodes[q].forkPoint > 0 && Waiter(nodes, nodes[q].forkPoint) == p
    ensures !AtOrBelow(nodes, q, p)
  {
    var up := nodes[nodes[q].forkPoint].parent;
    LastHasForkPoint(nodes, up);
    ForkPointStartsChain(nodes, p);
    NotAboveWaiter(nodes, up, p, q);
  }

  /** A wait for `p`, and finalizing it and what is above it, change nothing for those held by `p`. */
  lemma HeldStays(v: View, now: View, p: int, q: int)
    requires WellSized(v) && IsNode(v.nodes, p) && IsNode(v.nodes, q)
    requires Tidied(v.(waited := v.waited[v.nodes[p].forkPoint := true]), now, {p})
    ensures HeldBy(now, p, q) == HeldBy(v, p, q)
  {
    var mid := v.(waited := v.waited[v.nodes[p].forkPoint := true]);
    var f := v.nodes[q].forkPoint;
    if f > 0 && Waiter(v.nodes, f) == p {
      HeldIsNotAbove(v.nodes, p, q);
      LastHasForkPoint(v.nodes, v.nodes[f].parent);
      forall c | 0 < c < |v.nodes| && v.nodes[c].parent == q ensures now.state[c] == v.state[c] {
        assert SameOrFinalized(mid, now, {p}, c);
        AboveAbove(v.nodes, c, p);
      }
      assert SameOrFinalized(mid, now, {p}, q) && SameOrFinalized(mid, now, {p}, p);
      assert Settled(now, q) == Settled(v, q);
    }
  }

  lemma {:induction false} AboveAbove(nodes: seq<Node>, c: int, p: int)
    requires Shaped(nodes) && 0 < c < |nodes| && IsNode(nodes, p)
    ensures AtOrBelow(nodes, c, p) ==> AtOrBelow(nodes, nodes[c].parent, p)
    decreases p
  {
    if c != p && p > 0 { AboveAbove(nodes, c, nodes[p].parent); }
  }

  /** What is held when an exec is given up stays unfinalized, although nothing keeps it. */
  lemma HeldIsLeftBehind(v: View, now: View, p: int, q: int)
    requires Prompt(v, {}) && IsNode(v.nodes, p) && IsNode(v.nodes, q) && HeldBy(v, p, q)
    requires Tidied(v.(execPending := v.execPending[p := false]), now, {p})
    ensures Ready(now, q) && !Prompt(now, {})
  {
    var f := v.nodes[q].forkPoint;
    var mid := v.(execPending := v.execPending[p := false]);
    HeldIsNotAbove(v.nodes, p, q);
    forall c | 0 <= c < |v.nodes| ensures now.state[c] == mid.state[c] || (now.state[c] == Finalized && c != q) {
      assert SameOrFinalized(mid, now, {p}, c);
    }
    assert Settled(now, q) && !MayWait(now, f);
    assert Prompt(now, {}) ==> OrderlyAt(now, q) && !Ready(now, q);
  }

  /** The child was waited for and has no pending exec; apart from that, terminated processes may have
      been finalized. */
  ghost predicate AfterWait(v: View, p: int, now: View)
    requires WellSized(v) && IsNode(v.nodes, p)
  {
    && now == v.(waited := v.waited[v.nodes[p].forkPoint := true], execPending := v.execPending[p := false],
                 state := now.state)
    && OnlyFinalizes(v.state, now.state)
  }

  /** A wait for `p`: nothing is left behind exactly if nothing was held by an exec that `p` never did. */
  lemma Waited(v: View, mid: View, now: View, p: int)
    requires WellSized(v) && IsNode(v.nodes, p)
    requires Tidied(v.(waited := v.waited[v.nodes[p].forkPoint := true]), mid,
      {LastExec(v.nodes, v.nodes[p].forkPoint)})
    requires if v.execPending[p] then Tidied(mid.(execPending := v.execPending[p := false]), now, {p}) else now == mid
    ensures AfterWait(v, p, now)
    ensures Prompt(v, {}) ==> (Prompt(now, {}) <==> !HoldsAny(v, p)) && HeldIsReady(v, now, p)
  {
    var f := v.nodes[p].forkPoint;
    assert !v.execPending[p] ==> v.execPending[p := false] == v.execPending;
    TidiedOnlyFinalizes(v.(waited := v.waited[f := true]), mid, {LastExec(v.nodes, f)});
    if v.execPending[p] { TidiedOnlyFinalizes(mid.(execPending := v.execPending[p := false]), now, {p}); }
    if Prompt(v, {}) {
      assert Placed(v.nodes, p) && Placed(v.nodes, f) && OrderlyAt(v, p);
      WaitingReadiesLast(v, f);
      assert {} + {LastExec(v.nodes, f)} == {LastExec(v.nodes, f)};
      if v.execPending[p] {
        LastOfForkPoint(v.nodes, p);
        GivenUp(v, mid, now, p);
      }
    }
  }

  ghost predicate HeldIsReady(v: View, now: View, p: int)
    requires WellSized(v) && WellSized(now) && |v.nodes| == |now.nodes| && IsNode(v.nodes, p)
  {
    forall q :: 0 <= q < |v.nodes| && HeldBy(v, p, q) ==> Ready(now, q)
  }

  lemma GivenUp(v: View, mid: View, now: View, p: int)
    requires WellSized(v) && IsNode(v.nodes, p) && Prompt(mid, {})
    requires Tidied(v.(waited := v.waited[v.nodes[p].forkPoint := true]), mid, {p})
    requires Tidied(mid.(execPending := v.execPending[p := false]), now, {p})
    ensures (Prompt(now, {}) <==> !HoldsAny(v, p)) && HeldIsReady(v, now, p)
  {
    forall q | 0 <= q < |v.nodes| ensures HeldBy(mid, p, q) == HeldBy(v, p, q) {
      HeldStays(v, mid, p, q);
    }
    forall q | 0 <= q < |v.nodes| && HeldBy(v, p, q) ensures Ready(now, q) && !Prompt(now, {}) {
      HeldIsLeftBehind(mid, now, p, q);
    }
    if !HoldsAny(v, p) {
      GivingUpReadiesHeld(mid, p);
      assert {} + {p} == {p};
    }
  }

  // ------------------------------------------------------------------------------------------
  // New processes.
  // ------------------------------------------------------------------------------------------

  /** Only an exec moves the end of a chain. */
  lemma {:induction false} GrownLast(nodes: seq<Node>, up: int, kind: Kind, p: int)
    requires Shaped(nodes) && IsNode(nodes, up) && IsNode(nodes, p) && (kind == Execed ==> nodes[up].execChild == NONE)
    ensures Shaped(Grown(nodes, up, kind))
    ensures LastExec(Grown(nodes, up, kind), p) ==
      if kind == Execed && LastExec(nodes, p) == up then |nodes| else LastExec(nodes, p)
    decreases |nodes| - p
  {
    GrownIsShaped(nodes, up, kind);
    GrownKeeps(nodes, up, kind, p);
    assert Placed(nodes, p);
    if nodes[p].execChild != NONE { GrownLast(nodes, up, kind, nodes[p].execChild); }
  }

  /** After a fork or an exec; a child that is only known to be about to exec has a pending exec. */
  ghost function WithNew(v: View, up: int, kind: Kind, s: State): View
    requires WellSized(v) && IsNode(v.nodes, up)
  {
    var pending := if kind == Execed then v.execPending[up := false] else v.execPending;
    View(Grown(v.nodes, up, kind), v.state + [s], pending + [s == Terminated], v.pendingPopen + [false],
      v.waited + [false])
  }

  /** A process forks while it runs; it execs once it has terminated, as announced, or is the root. */
  ghost predicate Announced(v: View, up: int, kind: Kind, s: State)
    requires WellSized(v)
  {
    && IsNode(v.nodes, up) && s != Finalized
    && (kind == Forked ==> v.state[up] == Running)
    && (kind == Execed ==>
         s == Running && v.state[up] == Terminated && v.nodes[up].execChild == NONE &&
           (v.execPending[up] || |v.nodes| == 1))
  }

  lemma NewKeepsWaiters(v: View, up: int, kind: Kind, s: State, f: int)
    requires Prompt(v, {}) && Announced(v, up, kind, s) && 0 < f < |v.nodes|
    ensures WellSized(WithNew(v, up, kind, s)) && MayWait(WithNew(v, up, kind, s), f) == MayWait(v, f)
  {
    GrownIsShaped(v.nodes, up, kind);
    GrownKeeps(v.nodes, up, kind, f);
    GrownLast(v.nodes, up, kind, v.nodes[f].parent);
  }

  /** New processes make nothing ready. */
  lemma NewReadiesNothing(v: View, up: int, kind: Kind, s: State)
    requires Prompt(v, {}) && Announced(v, up, kind, s)
    ensures Prompt(WithNew(v, up, kind, s), {})
  {
    var now := WithNew(v, up, kind, s);
    GrownIsShaped(v.nodes, up, kind);
    forall q | 0 <= q < |now.nodes| ensures OrderlyAt(now, q) && !Ready(now, q) {
      if q < |v.nodes| {
        NewKeepsOld(v, up, kind, s, q);
      }
    }
  }

  lemma NewKeepsOld(v: View, up: int, kind: Kind, s: State, q: int)
    requires Prompt(v, {}) && Announced(v, up, kind, s) && IsNode(v.nodes, q)
    ensures WellSized(WithNew(v, up, kind, s)) && OrderlyAt(WithNew(v, up, kind, s), q) &&
      !Ready(WithNew(v, up, kind, s), q)
  {
    var now, f := WithNew(v, up, kind, s), v.nodes[q].forkPoint;
    GrownIsShaped(v.nodes, up, kind);
    GrownKeeps(v.nodes, up, kind, q);
    assert OrderlyAt(v, q) && !Ready(v, q);
    if f > 0 { NewKeepsWaiters(v, up, kind, s, f); }
    if Settled(now, q) {
      NewUnsettlesParent(v, up, kind, s, q);
    }
  }

  lemma NewUnsettlesParent(v: View, up: int, kind: Kind, s: State, q: int)
    requires Prompt(v, {}) && Announced(v, up, kind, s) && IsNode(v.nodes, q)
    requires WellSized(WithNew(v, up, kind, s)) && Settled(WithNew(v, up, kind, s), q)
    ensures q != up && Settled(v, q)
  {
    var now := WithNew(v, up, kind, s);
    assert now.nodes[|v.nodes|].parent == up && now.state[|v.nodes|] == s;
    forall c | 0 < c < |v.nodes| && v.nodes[c].parent == q ensures v.state[c] == Finalized {
      GrownKeeps(v.nodes, up, kind, c);
      assert now.nodes[c].parent == q;
    }
  }
}
