/** The tree of exec'ed processes as values.  A process is its creation number; its parent (the
    previous exec point) was created earlier; `NONE` stands for the null pointer above the root.

    This module holds the simple definitions: the naive upward walk to the nearest process that can
    still be shortcut, the chain that a bubble-up disables, and the lowest common ancestor. */
module ProcTree {
  const NONE := -1

  /** Every parent is NONE or an older process. */
  ghost predicate Tree(parent: seq<int>) {
    forall p :: 0 <= p < |parent| ==> NONE <= parent[p] < p
  }

  /** Only the first process has no parent. */
  ghost predicate OneRoot(parent: seq<int>) {
    forall p :: 0 < p < |parent| ==> parent[p] != NONE
  }

  predicate Ref(parent: seq<int>, p: int) {
    NONE <= p < |parent|
  }

  predicate IsProc(parent: seq<int>, p: int) {
    0 <= p < |parent|
  }

  /** `a` is `p` itself or one of its ancestors; NONE is above everything. */
  predicate AtOrAbove(parent: seq<int>, a: int, p: int)
    requires Tree(parent) && Ref(parent, p)
    decreases p
  {
    a == p || (p != NONE && AtOrAbove(parent, a, parent[p]))
  }

  /** The naive walk: the first of `p`, its parent, ... that can still be shortcut. */
  ghost function Closest(parent: seq<int>, can: seq<bool>, p: int): (r: int)
    requires Tree(parent) && |can| == |parent| && Ref(parent, p)
    ensures NONE <= r <= p
    decreases p
  {
    if p == NONE || can[p] then p else Closest(parent, can, parent[p])
  }

  /** The nearest proper ancestor that can still be shortcut. */
  ghost function Nearest(parent: seq<int>, can: seq<bool>, p: int): (r: int)
    requires Tree(parent) && |can| == |parent| && IsProc(parent, p)
    ensures NONE <= r < p
  {
    Closest(parent, can, parent[p])
  }

  /** Walking up from `p` reaches `m`, and nothing passed on the way can be shortcut. */
  ghost predicate Skips(parent: seq<int>, can: seq<bool>, p: int, m: int)
    requires Tree(parent) && |can| == |parent| && Ref(parent, p)
    decreases p
  {
    p == m || (p != NONE && !can[p] && Skips(parent, can, parent[p], m))
  }

  /** Disable `p` and its ancestors, stopping before `stop`. */
  ghost function DisableChain(parent: seq<int>, can: seq<bool>, p: int, stop: int): (r: seq<bool>)
    requires Tree(parent) && |can| == |parent| && Ref(parent, p)
    ensures |r| == |can|
    decreases p
  {
    if p == stop || p == NONE then can
    else DisableChain(parent, can[p := false], parent[p], stop)
  }

  /** `q` is on the chain from `p` (included) up to `stop` (excluded). */
  ghost predicate OnChain(parent: seq<int>, p: int, stop: int, q: int)
    requires Tree(parent) && Ref(parent, p)
    decreases p
  {
    p != stop && p != NONE && (q == p || OnChain(parent, parent[p], stop, q))
  }

  /** No process becomes shortcutable again. */
  ghost predicate Fewer(after: seq<bool>, before: seq<bool>) {
    |after| == |before| && forall p :: 0 <= p < |before| && after[p] ==> before[p]
  }

  // ------------------------------------------------------------------------------------------
  // The order.
  // ------------------------------------------------------------------------------------------

  lemma {:induction false} AboveIsOlder(parent: seq<int>, a: int, p: int)
    requires Tree(parent) && Ref(parent, p) && AtOrAbove(parent, a, p)
    ensures NONE <= a <= p
    decreases p
  {
    if a != p { AboveIsOlder(parent, a, parent[p]); }
  }

  lemma AllAboveOlder(parent: seq<int>, p: int)
    requires Tree(parent) && Ref(parent, p)
    ensures forall a :: AtOrAbove(parent, a, p) ==> NONE <= a <= p
  {
    forall a | AtOrAbove(parent, a, p) ensures NONE <= a <= p {
      AboveIsOlder(parent, a, p);
    }
  }

  lemma {:induction false} AboveTransitive(parent: seq<int>, a: int, b: int, p: int)
    requires Tree(parent) && Ref(parent, p) && AtOrAbove(parent, b, p)
    requires Ref(parent, b) && AtOrAbove(parent, a, b)
    ensures AtOrAbove(parent, a, p)
    decreases p
  {
    if b != p { AboveTransitive(parent, a, b, parent[p]); }
  }

  /** Two processes above a third one are above one another: the older is above the younger. */
  lemma {:induction false} AboveLinear(parent: seq<int>, a: int, b: int, p: int)
    requires Tree(parent) && Ref(parent, p)
    requires AtOrAbove(parent, a, p) && AtOrAbove(parent, b, p) && a <= b
    ensures Ref(parent, b) && AtOrAbove(parent, a, b)
    decreases p
  {
    if b != p {
      if a == p { AboveIsOlder(parent, b, p); }
      else { AboveLinear(parent, a, b, parent[p]); }
    }
  }

  lemma {:induction false} NoneAbove(parent: seq<int>, p: int)
    requires Tree(parent) && Ref(parent, p)
    ensures AtOrAbove(parent, NONE, p)
    decreases p
  {
    if p != NONE { NoneAbove(parent, parent[p]); }
  }

  /** A younger process changes nothing for the others. */
  lemma {:induction false} AboveInLargerTree(parent: seq<int>, parent': seq<int>, a: int, p: int)
    requires Tree(parent) && Tree(parent') && parent <= parent' && Ref(parent, p)
    ensures AtOrAbove(parent, a, p) == AtOrAbove(parent', a, p)
    decreases p
  {
    if p != NONE { AboveInLargerTree(parent, parent', a, parent[p]); }
  }

  // ------------------------------------------------------------------------------------------
  // Skipping.
  // ------------------------------------------------------------------------------------------

  lemma {:induction false} SkipsTransitive(parent: seq<int>, can: seq<bool>, p: int, m: int, n: int)
    requires Tree(parent) && |can| == |parent| && Ref(parent, p) && Ref(parent, m)
    requires Skips(parent, can, p, m) && Skips(parent, can, m, n)
    ensures Skips(parent, can, p, n)
    decreases p
  {
    if p != m { SkipsTransitive(parent, can, parent[p], m, n); }
  }

  lemma {:induction false} SkipsMonotone(parent: seq<int>, can: seq<bool>, can': seq<bool>, p: int, m: int)
    requires Tree(parent) && |can| == |parent| && Ref(parent, p) && Fewer(can', can)
    requires Skips(parent, can, p, m)
    ensures Skips(parent, can', p, m)
    decreases p
  {
    if p != m { SkipsMonotone(parent, can, can', parent[p], m); }
  }

  lemma {:induction false} SkipsInLargerTree(parent: seq<int>, parent': seq<int>, can: seq<bool>, can': seq<bool>,
                                             p: int, m: int)
    requires Tree(parent) && |can| == |parent| && Ref(parent, p)
    requires Tree(parent') && |can'| == |parent'|
    requires parent <= parent' && can <= can'
    requires Skips(parent, can, p, m)
    ensures Skips(parent', can', p, m)
    decreases p
  {
    if p != m { SkipsInLargerTree(parent, parent', can, can', parent[p], m); }
  }

  lemma {:induction false} SkipsIsAbove(parent: seq<int>, can: seq<bool>, p: int, m: int)
    requires Tree(parent) && |can| == |parent| && Ref(parent, p) && Skips(parent, can, p, m)
    ensures NONE <= m <= p && AtOrAbove(parent, m, p)
    decreases p
  {
    if p != m { SkipsIsAbove(parent, can, parent[p], m); }
  }

  /** Skipping loses nothing: the naive walk from the lower end ends where the one from the upper
      end does. */
  lemma {:induction false} SkipsKeepsClosest(parent: seq<int>, can: seq<bool>, p: int, m: int)
    requires Tree(parent) && |can| == |parent| && Ref(parent, p) && Skips(parent, can, p, m)
    ensures Ref(parent, m) && Closest(parent, can, p) == Closest(parent, can, m)
    decreases p
  {
    if p != m { SkipsKeepsClosest(parent, can, parent[p], m); }
  }

  lemma {:induction false} SkipsToClosest(parent: seq<int>, can: seq<bool>, p: int)
    requires Tree(parent) && |can| == |parent| && Ref(parent, p)
    ensures Skips(parent, can, p, Closest(parent, can, p))
    ensures Closest(parent, can, p) != NONE ==> can[Closest(parent, can, p)]
    decreases p
  {
    if p != NONE && !can[p] { SkipsToClosest(parent, can, parent[p]); }
  }

  /** Of the processes above `p`, those passed over by the skip cannot be shortcut. */
  lemma {:induction false} SkippedCannot(parent: seq<int>, can: seq<bool>, p: int, m: int, q: int)
    requires Tree(parent) && |can| == |parent| && Ref(parent, p)
    requires Skips(parent, can, p, m) && AtOrAbove(parent, q, p) && q != NONE
    ensures NONE <= q < |can|
    ensures Ref(parent, m) && (can[q] ==> AtOrAbove(parent, q, m))
    decreases p
  {
    AboveIsOlder(parent, q, p);
    if p != m && q != p {
      SkippedCannot(parent, can, parent[p], m, q);
    }
    SkipsIsAbove(parent, can, p, m);
  }

  // ------------------------------------------------------------------------------------------
  // Disabling a chain.
  // ------------------------------------------------------------------------------------------

  /** A bubble-up disables exactly the chain. */
  lemma {:induction false} DisableChainExact(parent: seq<int>, can: seq<bool>, p: int, stop: int, q: int)
    requires Tree(parent) && |can| == |parent| && Ref(parent, p) && IsProc(parent, q)
    ensures DisableChain(parent, can, p, stop)[q] == (can[q] && !OnChain(parent, p, stop, q))
    decreases p
  {
    if p != stop && p != NONE {
      DisableChainExact(parent, can[p := false], parent[p], stop, q);
    }
  }

  lemma {:induction false} DisableChainFewer(parent: seq<int>, can: seq<bool>, p: int, stop: int)
    requires Tree(parent) && |can| == |parent| && Ref(parent, p)
    ensures Fewer(DisableChain(parent, can, p, stop), can)
    decreases p
  {
    if p != stop && p != NONE {
      DisableChainFewer(parent, can[p := false], parent[p], stop);
    }
  }

  /** After the bubble-up the walk from `p` passes over the whole chain. */
  lemma {:induction false} DisabledChainSkips(parent: seq<int>, can: seq<bool>, p: int, stop: int)
    requires Tree(parent) && |can| == |parent| && Ref(parent, p) && AtOrAbove(parent, stop, p)
    ensures Skips(parent, DisableChain(parent, can, p, stop), p, stop)
    decreases p
  {
    if p != stop {
      DisabledChainSkips(parent, can[p := false], parent[p], stop);
      DisableChainExact(parent, can, p, stop, p);
    }
  }

  /** Where nothing above can be shortcut, disabling the rest of the chain changes nothing. */
  lemma {:induction false} DisableChainDone(parent: seq<int>, can: seq<bool>, p: int, stop: int)
    requires Tree(parent) && |can| == |parent| && Ref(parent, p)
    requires Closest(parent, can, p) == NONE
    ensures DisableChain(parent, can, p, stop) == can
    decreases p
  {
    if p != stop && p != NONE {
      assert can[p := false] == can;
      DisableChainDone(parent, can, parent[p], stop);
    }
  }

  /** The chain below `stop` does not matter to the walk from `stop`. */
  lemma {:induction false} ClosestAboveUnchanged(parent: seq<int>, can: seq<bool>, can': seq<bool>, p: int)
    requires Tree(parent) && |can| == |parent| == |can'| && Ref(parent, p)
    requires forall q :: 0 <= q <= p ==> can[q] == can'[q]
    ensures Closest(parent, can, p) == Closest(parent, can', p)
    decreases p
  {
    if p != NONE { ClosestAboveUnchanged(parent, can, can', parent[p]); }
  }

  lemma {:induction false} ChainAboveStop(parent: seq<int>, p: int, stop: int, q: int)
    requires Tree(parent) && Ref(parent, p) && AtOrAbove(parent, stop, p)
    requires OnChain(parent, p, stop, q)
    ensures stop < q <= p
    decreases p
  {
    AboveIsOlder(parent, stop, p);
    if q != p { ChainAboveStop(parent, parent[p], stop, q); }
  }

  // ------------------------------------------------------------------------------------------
  // Lowest common ancestor.
  // ------------------------------------------------------------------------------------------

  /** `c` is above both and every other process above both is above it. */
  ghost predicate IsLowestCommon(parent: seq<int>, c: int, p: int, q: int)
    requires Tree(parent) && Ref(parent, p) && Ref(parent, q)
  {
    && AtOrAbove(parent, c, p) && AtOrAbove(parent, c, q) && Ref(parent, c)
    && forall d :: AtOrAbove(parent, d, p) && AtOrAbove(parent, d, q) ==> AtOrAbove(parent, d, c)
  }

  /** The defining recursion: replace the younger of the two by its parent until they meet. */
  ghost function LowestCommon(parent: seq<int>, p: int, q: int): (c: int)
    requires Tree(parent) && Ref(parent, p) && Ref(parent, q)
    ensures NONE <= c <= p && c <= q
    decreases p + q + 2
  {
    if p == q then p
    else if p > q then LowestCommon(parent, parent[p], q)
    else LowestCommon(parent, p, parent[q])
  }

  lemma {:induction false} LowestCommonIsLowest(parent: seq<int>, p: int, q: int)
    requires Tree(parent) && Ref(parent, p) && Ref(parent, q)
    ensures IsLowestCommon(parent, LowestCommon(parent, p, q), p, q)
    decreases p + q + 2
  {
    if p > q {
      LowestCommonIsLowest(parent, parent[p], q);
      forall d | AtOrAbove(parent, d, p) && AtOrAbove(parent, d, q)
        ensures AtOrAbove(parent, d, parent[p])
      {
        AboveIsOlder(parent, d, q);
      }
    } else if p < q {
      LowestCommonIsLowest(parent, p, parent[q]);
      forall d | AtOrAbove(parent, d, p) && AtOrAbove(parent, d, q)
        ensures AtOrAbove(parent, d, parent[q])
      {
        AboveIsOlder(parent, d, p);
      }
    }
  }

  /** In a single tree the lowest common ancestor of two processes is a process. */
  lemma {:induction false} LowestCommonExists(parent: seq<int>, p: int, q: int)
    requires Tree(parent) && OneRoot(parent) && IsProc(parent, p) && IsProc(parent, q)
    ensures LowestCommon(parent, p, q) != NONE
    decreases p + q
  {
    if p > q { LowestCommonExists(parent, parent[p], q); }
    else if p < q { LowestCommonExists(parent, p, parent[q]); }
  }

  lemma LowestCommonUnique(parent: seq<int>, c: int, d: int, p: int, q: int)
    requires Tree(parent) && Ref(parent, p) && Ref(parent, q)
    requires IsLowestCommon(parent, c, p, q) && IsLowestCommon(parent, d, p, q)
    ensures c == d
  {
    AboveIsOlder(parent, c, d);
    AboveIsOlder(parent, d, c);
  }
}
