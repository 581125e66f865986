/** The tree of processes: forks and execs, exec chains, fork points, and how the tree grows. */
module ProcessNodes {
  import opened ProcTree

  datatype State = Running | Terminated | Finalized

  /** A forked process has itself as its fork point; an exec'ed one that of the process it replaced. */
  datatype Kind = Forked | Execed

  /** The part of a process that is fixed once it is created, except for its children. */
  datatype Node = Node(kind: Kind, parent: int, forkPoint: int, execPoint: int, execChild: int, forkChildren: seq<int>)

  predicate IsNode(nodes: seq<Node>, p: int) {
    0 <= p < |nodes|
  }

  /** Parents are older, and every process but the first has one. */
  ghost predicate Ordered(nodes: seq<Node>) {
    forall p :: 0 <= p < |nodes| ==>
      NONE <= nodes[p].parent < p && (nodes[p].parent == NONE <==> p == 0) && 0 <= nodes[p].forkPoint <= p
  }

  /** Fork and exec points are what they should be, and parents know their children. */
  ghost predicate Placed(nodes: seq<Node>, p: int)
    requires Ordered(nodes) && IsNode(nodes, p)
  {
    && nodes[nodes[p].forkPoint].kind == Forked
    && (nodes[p].kind == Forked ==> nodes[p].forkPoint == p && NONE <= nodes[p].execPoint < p)
    && (nodes[p].kind == Execed ==>
         p > 0 && nodes[p].forkPoint == nodes[nodes[p].parent].forkPoint && nodes[p].execPoint == p &&
         nodes[nodes[p].parent].execChild == p)
    && (nodes[p].kind == Forked && p > 0 ==>
         p in nodes[nodes[p].parent].forkChildren && nodes[p].execPoint == nodes[nodes[p].parent].execPoint)
    && (nodes[p].execChild != NONE ==> IsChild(nodes, p, nodes[p].execChild, Execed))
    && forall c :: c in nodes[p].forkChildren ==> IsChild(nodes, p, c, Forked)
  }

  ghost predicate IsChild(nodes: seq<Node>, p: int, c: int, kind: Kind) {
    0 <= p < c < |nodes| && nodes[c].kind == kind && nodes[c].parent == p
  }

  ghost predicate Shaped(nodes: seq<Node>) {
    Ordered(nodes) && forall p :: 0 <= p < |nodes| ==> Placed(nodes, p)
  }

  /** The exec chain of the first process, whose fork point nobody can wait for. */
  predicate InRootChain(nodes: seq<Node>, p: int)
    requires IsNode(nodes, p) && IsNode(nodes, nodes[p].forkPoint)
  {
    nodes[nodes[p].forkPoint].parent == NONE
  }

  ghost predicate AtOrBelow(nodes: seq<Node>, p: int, q: int)
    requires Shaped(nodes) && IsNode(nodes, q)
    decreases q
  {
    p == q || (q > 0 && AtOrBelow(nodes, p, nodes[q].parent))
  }

  /** The last process of the exec chain that continues from `p`. */
  ghost function LastExec(nodes: seq<Node>, p: int): (q: int)
    requires Shaped(nodes) && IsNode(nodes, p)
    ensures p <= q < |nodes| && nodes[q].execChild == NONE
    decreases |nodes| - p
  {
    assert Placed(nodes, p);
    if nodes[p].execChild == NONE then p else LastExec(nodes, nodes[p].execChild)
  }

  /** The exec chain that starts at `p` passes `q`. */
  ghost predicate OnExecChain(nodes: seq<Node>, p: int, q: int)
    requires Shaped(nodes) && IsNode(nodes, p)
    decreases |nodes| - p
  {
    assert Placed(nodes, p);
    p == q || (nodes[p].execChild != NONE && OnExecChain(nodes, nodes[p].execChild, q))
  }

  lemma {:induction false} ChainGoesOn(nodes: seq<Node>, p: int, q: int)
    requires Shaped(nodes) && IsNode(nodes, p) && IsNode(nodes, q) && OnExecChain(nodes, p, q)
    ensures Placed(nodes, q) && (nodes[q].execChild != NONE ==> OnExecChain(nodes, p, nodes[q].execChild))
    decreases |nodes| - p
  {
    assert Placed(nodes, p) && Placed(nodes, q);
    if p != q { ChainGoesOn(nodes, nodes[p].execChild, q); }
  }

  /** A process is on the exec chain of its fork point. */
  lemma {:induction false} ForkPointStartsChain(nodes: seq<Node>, q: int)
    requires Shaped(nodes) && IsNode(nodes, q)
    ensures IsNode(nodes, nodes[q].forkPoint) && OnExecChain(nodes, nodes[q].forkPoint, q)
    decreases q
  {
    assert Placed(nodes, q);
    if nodes[q].kind == Execed {
      ForkPointStartsChain(nodes, nodes[q].parent);
      ChainGoesOn(nodes, nodes[q].forkPoint, nodes[q].parent);
    }
  }

  /** `g` is the fork point `f` or one above it. */
  ghost predicate OnForkChain(nodes: seq<Node>, f: int, g: int)
    requires Ordered(nodes) && IsNode(nodes, f)
    decreases f
  {
    f == g || (f > 0 && OnForkChain(nodes, nodes[nodes[f].parent].forkPoint, g))
  }

  /** The exec point that `e` was exec'ed or forked from. */
  function ParentExecPoint(nodes: seq<Node>, e: int): int
    requires IsNode(nodes, e)
  {
    if IsNode(nodes, nodes[e].parent) then nodes[nodes[e].parent].execPoint else NONE
  }

  /** `q` is the exec point `e` or one above it. */
  ghost predicate OnExecPath(nodes: seq<Node>, e: int, q: int)
    requires Shaped(nodes) && NONE <= e < |nodes|
    decreases e
  {
    if e == NONE then false
    else
      assert Placed(nodes, e) && (e > 0 ==> Placed(nodes, nodes[e].parent));
      e == q || OnExecPath(nodes, ParentExecPoint(nodes, e), q)
  }

  lemma KnowsForkChildren(nodes: seq<Node>, p: int)
    requires Shaped(nodes) && IsNode(nodes, p)
    ensures forall c :: c in nodes[p].forkChildren ==> 0 < c < |nodes| && nodes[c].parent == p
  {
    assert Placed(nodes, p);
  }

  lemma IsForkChild(nodes: seq<Node>, p: int, i: int)
    requires Shaped(nodes) && IsNode(nodes, p) && 0 <= i < |nodes[p].forkChildren|
    ensures
      var c := nodes[p].forkChildren[i];
      0 < c < |nodes| && nodes[c].forkPoint == c
  {
    assert Placed(nodes, p) && IsChild(nodes, p, nodes[p].forkChildren[i], Forked) &&
      Placed(nodes, nodes[p].forkChildren[i]);
  }

  lemma ForkChildrenAreKnown(nodes: seq<Node>, p: int)
    requires Shaped(nodes) && IsNode(nodes, p)
    ensures forall c :: 0 < c < |nodes| && nodes[c].kind == Forked && nodes[c].parent == p ==>
      c in nodes[p].forkChildren
  {
    forall c | 0 < c < |nodes| && nodes[c].kind == Forked && nodes[c].parent == p ensures c in nodes[p].forkChildren {
      assert Placed(nodes, c);
    }
  }

  /** A process all of whose known children are finalized has only finalized children. */
  lemma KnowsChildren(nodes: seq<Node>, state: seq<State>, p: int)
    requires Shaped(nodes) && |state| == |nodes| && IsNode(nodes, p)
    requires 0 <= nodes[p].execChild < |nodes| ==> state[nodes[p].execChild] == Finalized
    requires forall c :: c in nodes[p].forkChildren && 0 <= c < |nodes| ==> state[c] == Finalized
    ensures forall q :: 0 < q < |nodes| && nodes[q].parent == p ==> state[q] == Finalized
  {
    forall q | 0 < q < |nodes| && nodes[q].parent == p ensures state[q] == Finalized {
      assert Placed(nodes, q);
    }
  }

  /** A new process with a parent that is not finalized. */
  function Grown(nodes: seq<Node>, up: int, kind: Kind): seq<Node>
    requires IsNode(nodes, up)
  {
    var p := |nodes|;
    if kind == Forked then
      nodes[up := nodes[up].(forkChildren := nodes[up].forkChildren + [p])] +
      [Node(Forked, up, p, nodes[up].execPoint, NONE, [])]
    else
      nodes[up := nodes[up].(execChild := p)] + [Node(Execed, up, nodes[up].forkPoint, p, NONE, [])]
  }

  lemma GrownIsOrdered(nodes: seq<Node>, up: int, kind: Kind)
    requires Ordered(nodes) && IsNode(nodes, up)
    ensures Ordered(Grown(nodes, up, kind))
  {
  }

  /** What an older process is known by does not change. */
  lemma GrownKeeps(nodes: seq<Node>, up: int, kind: Kind, p: int)
    requires IsNode(nodes, up) && IsNode(nodes, p)
    ensures
      var m, n := Grown(nodes, up, kind)[p], nodes[p];
      && m.kind == n.kind && m.parent == n.parent && m.forkPoint == n.forkPoint && m.execPoint == n.execPoint
      && (p != up ==> m == n)
  {
  }

  lemma GrownPlacesOld(nodes: seq<Node>, up: int, kind: Kind, p: int)
    requires Ordered(nodes) && IsNode(nodes, up) && Ordered(Grown(nodes, up, kind)) && IsNode(nodes, p)
    requires Placed(nodes, p) && (kind == Execed ==> nodes[up].execChild == NONE)
    ensures Placed(Grown(nodes, up, kind), p)
  {
    var now := Grown(nodes, up, kind);
    GrownKeeps(nodes, up, kind, p);
    GrownKeeps(nodes, up, kind, nodes[p].forkPoint);
    if p > 0 { GrownKeeps(nodes, up, kind, nodes[p].parent); }
    forall c | c in now[p].forkChildren ensures IsChild(now, p, c, Forked) {
      if c != |nodes| {
        assert IsChild(nodes, p, c, Forked);
        GrownKeeps(nodes, up, kind, c);
      }
    }
    if nodes[p].execChild != NONE { GrownKeeps(nodes, up, kind, nodes[p].execChild); }
  }

  lemma GrownPlacesNew(nodes: seq<Node>, up: int, kind: Kind)
    requires Ordered(nodes) && IsNode(nodes, up) && Ordered(Grown(nodes, up, kind)) && Placed(nodes, up)
    ensures Placed(Grown(nodes, up, kind), |nodes|)
  {
    GrownKeeps(nodes, up, kind, nodes[up].forkPoint);
  }

  lemma GrownIsShaped(nodes: seq<Node>, up: int, kind: Kind)
    requires Shaped(nodes) && IsNode(nodes, up) && (kind == Execed ==> nodes[up].execChild == NONE)
    ensures Shaped(Grown(nodes, up, kind))
  {
    var now := Grown(nodes, up, kind);
    GrownIsOrdered(nodes, up, kind);
    forall p | 0 <= p < |now| ensures Placed(now, p) {
      assert Placed(nodes, up);
      if p < |nodes| {
        assert Placed(nodes, p);
        GrownPlacesOld(nodes, up, kind, p);
      } else {
        GrownPlacesNew(nodes, up, kind);
      }
    }
  }

  lemma GrownKeepsRootChain(nodes: seq<Node>, up: int, kind: Kind, p: int)
    requires Ordered(nodes) && IsNode(nodes, up) && IsNode(nodes, p)
    ensures IsNode(Grown(nodes, up, kind), Grown(nodes, up, kind)[p].forkPoint)
    ensures InRootChain(Grown(nodes, up, kind), p) == InRootChain(nodes, p)
  {
    GrownKeeps(nodes, up, kind, p);
    GrownKeeps(nodes, up, kind, nodes[p].forkPoint);
  }

  lemma {:induction false} BelowIsNotAbove(nodes: seq<Node>, e: int, q: int)
    requires Shaped(nodes) && NONE <= e < q < |nodes|
    ensures !OnExecPath(nodes, e, q)
    decreases e
  {
    if e != NONE {
      assert Placed(nodes, e) && (e > 0 ==> Placed(nodes, nodes[e].parent));
      BelowIsNotAbove(nodes, ParentExecPoint(nodes, e), q);
    }
  }

  /** States only move from running to terminated to finalized. */
  ghost predicate Forward(before: seq<State>, now: seq<State>) {
    && |before| <= |now|
    && forall p :: 0 <= p < |before| ==>
         (before[p] == Finalized ==> now[p] == Finalized) && (before[p] == Terminated ==> now[p] != Running)
  }

  /** Everything below a finalized process is finalized, except below the root's exec chain. */
  ghost predicate ClosedDownwards(nodes: seq<Node>, state: seq<State>)
    requires Shaped(nodes) && |state| == |nodes|
  {
    forall q :: 0 < q < |nodes| ==> ClosedAt(nodes, state, q)
  }

  ghost predicate ClosedAt(nodes: seq<Node>, state: seq<State>, q: int)
    requires Ordered(nodes) && |state| == |nodes| && 0 < q < |nodes|
  {
    state[nodes[q].parent] == Finalized && !InRootChain(nodes, nodes[q].parent) ==> state[q] == Finalized
  }

  /** ... hence a finalized process has a finalized subtree. */
  lemma {:induction false} SubtreeIsFinalized(nodes: seq<Node>, state: seq<State>, p: int, q: int)
    requires Shaped(nodes) && |state| == |nodes| && ClosedDownwards(nodes, state)
    requires IsNode(nodes, p) && state[p] == Finalized && !InRootChain(nodes, p)
    requires IsNode(nodes, q) && AtOrBelow(nodes, p, q)
    ensures state[q] == Finalized && !InRootChain(nodes, q)
    decreases q
  {
    if p != q {
      var up := nodes[q].parent;
      SubtreeIsFinalized(nodes, state, p, up);
      assert ClosedAt(nodes, state, q) && Placed(nodes, q);
    }
  }

  lemma {:induction false} BelowIsYounger(nodes: seq<Node>, p: int, q: int)
    requires Shaped(nodes) && IsNode(nodes, q)
    ensures AtOrBelow(nodes, p, q) ==> p <= q
    decreases q
  {
    if q > 0 { BelowIsYounger(nodes, p, nodes[q].parent); }
  }

  lemma {:induction false} BelowBelow(nodes: seq<Node>, a: int, b: int, c: int)
    requires Shaped(nodes) && IsNode(nodes, b) && IsNode(nodes, c) && AtOrBelow(nodes, a, b) && AtOrBelow(nodes, b, c)
    ensures AtOrBelow(nodes, a, c)
    decreases c
  {
    if b != c { BelowBelow(nodes, a, b, nodes[c].parent); }
  }

  /** Below a process outside the root's exec chain everything is. */
  lemma {:induction false} NotInRootChainBelow(nodes: seq<Node>, p: int, q: int)
    requires Shaped(nodes) && IsNode(nodes, p) && !InRootChain(nodes, p) && IsNode(nodes, q) && AtOrBelow(nodes, p, q)
    ensures !InRootChain(nodes, q)
    decreases q
  {
    assert Placed(nodes, q);
    if p != q { NotInRootChainBelow(nodes, p, nodes[q].parent); }
  }

  /** The child of `f` on the way down to `q`. */
  lemma {:induction false} FirstStepDown(nodes: seq<Node>, f: int, q: int) returns (p: int)
    requires Shaped(nodes) && IsNode(nodes, f) && IsNode(nodes, q) && AtOrBelow(nodes, f, q) && f != q
    ensures 0 < p < |nodes| && nodes[p].parent == f && AtOrBelow(nodes, p, q)
    decreases q
  {
    if nodes[q].parent == f {
      p := q;
    } else {
      p := FirstStepDown(nodes, f, nodes[q].parent);
    }
  }

  lemma {:induction false} GrownKeepsBelow(nodes: seq<Node>, up: int, kind: Kind, p: int, q: int)
    requires Shaped(nodes) && IsNode(nodes, up) && (kind == Execed ==> nodes[up].execChild == NONE) && IsNode(nodes, q)
    ensures Shaped(Grown(nodes, up, kind)) && AtOrBelow(Grown(nodes, up, kind), p, q) == AtOrBelow(nodes, p, q)
    decreases q
  {
    GrownIsShaped(nodes, up, kind);
    GrownKeeps(nodes, up, kind, q);
    if q > 0 { GrownKeepsBelow(nodes, up, kind, p, nodes[q].parent); }
  }
}
