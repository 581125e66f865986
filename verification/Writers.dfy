/** Who writes which file: the open files with their writer count and owning process, the file
    generations, and the set of writers each generation had.

    A generation of a file lasts from the moment a first writer opens it until the last writer
    closes it.  `Step` is the simple form of the bookkeeping (lowest common ancestor by definition,
    chains disabled as sets); the supervisor's methods refine it. */
module Writers {
  import opened Options
  import opened ProcTree
  import opened FileNames

  datatype OpenFile = OpenFile(count: nat, owner: int)

  datatype State = State(parent: seq<int>, can: seq<bool>, ofds: map<FileName, OpenFile>,
                         generation: map<FileName, nat>, writers: map<(FileName, nat), set<int>>)

  datatype Event =
    | Create(parentExecPoint: int)
    | Disable(left: seq<bool>)
    | Open(name: FileName, proc: int, jobserverFifo: Option<FileName>)
    | Close(name: FileName)

  const INITIAL := State([], [], map[], map[], map[])

  function Generation(s: State, f: FileName): nat {
    if f in s.generation then s.generation[f] else 0
  }

  ghost predicate Shape(s: State) {
    && Tree(s.parent) && OneRoot(s.parent) && |s.can| == |s.parent|
    && forall f :: f in s.ofds ==> IsProc(s.parent, s.ofds[f].owner) && s.ofds[f].count > 0
  }

  /** What the source's callers guarantee: existing processes, files closed only while open. */
  ghost predicate Allowed(s: State, e: Event) {
    match e
    case Create(q) => if s.parent == [] then q == NONE else IsProc(s.parent, q)
    case Disable(left) => Fewer(left, s.can)
    case Open(f, p, _) => IsProc(s.parent, p)
    case Close(f) => f.inIgnoreLocation || f in s.ofds
  }

  ghost function Step(s: State, e: Event): State
    requires Shape(s) && Allowed(s, e)
  {
    match e
    case Create(q) => s.(parent := s.parent + [q], can := s.can + [true])
    case Disable(left) => s.(can := left)
    case Open(f, p, fifo) =>
      if f.inIgnoreLocation then s
      else if f in s.ofds then AnotherWriter(s, f, p, fifo)
      else NewGeneration(s, f, p)
    case Close(f) =>
      if f.inIgnoreLocation then s
      else if s.ofds[f].count > 1 then s.(ofds := s.ofds[f := s.ofds[f].(count := s.ofds[f].count - 1)])
      else s.(ofds := s.ofds - {f})
  }

  ghost function AnotherWriter(s: State, f: FileName, p: int, fifo: Option<FileName>): State
    requires Shape(s) && f in s.ofds && IsProc(s.parent, p)
  {
    var o := s.ofds[f];
    var key := (f, Generation(s, f));
    if fifo == Some(f) && p != o.owner then
      s.(ofds := s.ofds[f := o.(count := o.count + 1)])
    else
      var c := LowestCommon(s.parent, p, o.owner);
      s.(can := Joined(s.parent, s.can, p, o.owner),
         ofds := s.ofds[f := OpenFile(o.count + 1, c)],
         writers := s.writers[key := WritersOf(s, key) + {p}])
  }

  ghost function NewGeneration(s: State, f: FileName, p: int): State {
    var g := Generation(s, f) + 1;
    s.(ofds := s.ofds[f := OpenFile(1, p)],
       generation := s.generation[f := g],
       writers := s.writers[(f, g) := {p}])
  }

  /** The processes that opened the file for writing in the given generation, opens of a process's
      own jobserver fifo left out. */
  function WritersOf(s: State, key: (FileName, nat)): set<int> {
    if key in s.writers then s.writers[key] else {}
  }

  // ------------------------------------------------------------------------------------------
  // The promise, and the invariant that keeps it.
  // ------------------------------------------------------------------------------------------

  ghost predicate AreProcs(parent: seq<int>, ps: set<int>) {
    forall p :: p in ps ==> 0 <= p < |parent|
  }

  /** The exec subtree of every process that can still be shortcut holds all or none of them. */
  ghost predicate AllOrNone(parent: seq<int>, can: seq<bool>, writers: set<int>)
    requires Tree(parent) && |can| == |parent|
    requires AreProcs(parent, writers)
  {
    forall q, v, w :: 0 <= q < |can| && can[q] && v in writers && w in writers && AtOrAbove(parent, q, v) ==>
      AtOrAbove(parent, q, w)
  }

  /** From every writer, the walk up to the owner passes only processes that cannot be shortcut. */
  ghost predicate OwnedBy(parent: seq<int>, can: seq<bool>, owner: int, writers: set<int>)
    requires Tree(parent) && |can| == |parent|
    requires AreProcs(parent, writers)
  {
    forall w :: w in writers ==> Skips(parent, can, w, owner)
  }

  ghost predicate Inv(s: State) {
    && Shape(s)
    && (forall k :: k in s.writers ==> AreProcs(s.parent, s.writers[k]))
    && (forall k :: k in s.writers ==> AllOrNone(s.parent, s.can, s.writers[k]))
    && (forall f :: f in s.ofds ==> OwnedBy(s.parent, s.can, s.ofds[f].owner, WritersOf(s, (f, Generation(s, f)))))
    && (forall f, g :: (f, g) in s.writers ==> g <= Generation(s, f))
  }

  lemma OwnedIsAllOrNone(parent: seq<int>, can: seq<bool>, owner: int, writers: set<int>)
    requires Tree(parent) && |can| == |parent|
    requires AreProcs(parent, writers)
    requires OwnedBy(parent, can, owner, writers)
    ensures AllOrNone(parent, can, writers)
  {
    forall q, v, w | 0 <= q < |can| && can[q] && v in writers && w in writers && AtOrAbove(parent, q, v)
      ensures AtOrAbove(parent, q, w)
    {
      SkippedCannot(parent, can, v, owner, q);
      SkipsIsAbove(parent, can, w, owner);
      AboveTransitive(parent, q, owner, w);
    }
  }

  lemma OwnedMonotone(parent: seq<int>, can: seq<bool>, can': seq<bool>, owner: int, writers: set<int>)
    requires Tree(parent) && |can| == |parent| && Fewer(can', can)
    requires AreProcs(parent, writers)
    requires OwnedBy(parent, can, owner, writers)
    ensures OwnedBy(parent, can', owner, writers)
  {
    forall w | w in writers ensures Skips(parent, can', w, owner) {
      SkipsMonotone(parent, can, can', w, owner);
    }
  }

  lemma DisableKeepsInv(s: State, left: seq<bool>)
    requires Inv(s) && Fewer(left, s.can)
    ensures Inv(s.(can := left))
  {
    forall f | f in s.ofds
      ensures OwnedBy(s.parent, left, s.ofds[f].owner, WritersOf(s, (f, Generation(s, f))))
    {
      OwnedMonotone(s.parent, s.can, left, s.ofds[f].owner, WritersOf(s, (f, Generation(s, f))));
    }
  }

  lemma CreateKeepsInv(s: State, q: int)
    requires Inv(s) && Allowed(s, Create(q))
    ensures Inv(Step(s, Create(q)))
  {
    var t := Step(s, Create(q));
    forall k | k in t.writers
      ensures AllOrNone(t.parent, t.can, t.writers[k])
    {
      forall r, v, w | 0 <= r < |t.can| && t.can[r] && v in t.writers[k] && w in t.writers[k] &&
        AtOrAbove(t.parent, r, v)
        ensures AtOrAbove(t.parent, r, w)
      {
        AboveInLargerTree(s.parent, t.parent, r, v);
        AboveInLargerTree(s.parent, t.parent, r, w);
        AboveIsOlder(t.parent, r, v);
        assert AllOrNone(s.parent, s.can, s.writers[k]);
      }
    }
    forall f | f in t.ofds
      ensures OwnedBy(t.parent, t.can, t.ofds[f].owner, WritersOf(t, (f, Generation(t, f))))
    {
      forall w | w in WritersOf(t, (f, Generation(t, f)))
        ensures Skips(t.parent, t.can, w, t.ofds[f].owner)
      {
        assert WritersOf(t, (f, Generation(t, f))) == WritersOf(s, (f, Generation(s, f)));
        SkipsInLargerTree(s.parent, t.parent, s.can, t.can, w, s.ofds[f].owner);
      }
    }
  }

  /** What opening does to the processes: both chains up to the lowest common ancestor go. */
  ghost function Joined(parent: seq<int>, can: seq<bool>, p: int, owner: int): (r: seq<bool>)
    requires Tree(parent) && |can| == |parent| && Ref(parent, p) && Ref(parent, owner)
    ensures |r| == |can|
  {
    var c := LowestCommon(parent, p, owner);
    DisableChain(parent, DisableChain(parent, can, p, c), owner, c)
  }

  lemma JoinedSkips(parent: seq<int>, can: seq<bool>, p: int, owner: int)
    requires Tree(parent) && |can| == |parent| && Ref(parent, p) && Ref(parent, owner)
    ensures Fewer(Joined(parent, can, p, owner), can)
    ensures Skips(parent, Joined(parent, can, p, owner), p, LowestCommon(parent, p, owner))
    ensures Skips(parent, Joined(parent, can, p, owner), owner, LowestCommon(parent, p, owner))
  {
    var c := LowestCommon(parent, p, owner);
    LowestCommonIsLowest(parent, p, owner);
    var half := DisableChain(parent, can, p, c);
    DisabledChainSkips(parent, can, p, c);
    DisabledChainSkips(parent, half, owner, c);
    DisableChainFewer(parent, can, p, c);
    DisableChainFewer(parent, half, owner, c);
    SkipsMonotone(parent, half, Joined(parent, can, p, owner), p, c);
  }

  lemma JoinedOwned(parent: seq<int>, can: seq<bool>, p: int, owner: int, writers: set<int>)
    requires Tree(parent) && |can| == |parent| && IsProc(parent, p) && IsProc(parent, owner)
    requires AreProcs(parent, writers) && OwnedBy(parent, can, owner, writers)
    ensures OwnedBy(parent, Joined(parent, can, p, owner), LowestCommon(parent, p, owner), writers + {p})
  {
    var left, c := Joined(parent, can, p, owner), LowestCommon(parent, p, owner);
    JoinedSkips(parent, can, p, owner);
    OwnedMonotone(parent, can, left, owner, writers);
    forall w | w in writers + {p} ensures Skips(parent, left, w, c) {
      if w != p {
        SkipsTransitive(parent, left, w, owner, c);
      }
    }
  }

  lemma OpenKeepsInv(s: State, f: FileName, p: int, fifo: Option<FileName>)
    requires Inv(s) && IsProc(s.parent, p) && f in s.ofds
    ensures Inv(AnotherWriter(s, f, p, fifo))
  {
    var o, key := s.ofds[f], (f, Generation(s, f));
    if !(fifo == Some(f) && p != o.owner) {
      var left, c := Joined(s.parent, s.can, p, o.owner), LowestCommon(s.parent, p, o.owner);
      JoinedSkips(s.parent, s.can, p, o.owner);
      JoinedOwned(s.parent, s.can, p, o.owner, WritersOf(s, key));
      LowestCommonExists(s.parent, p, o.owner);
      OwnedIsAllOrNone(s.parent, left, c, WritersOf(s, key) + {p});
      DisableKeepsInv(s, left);
      AddWriter(s.(can := left), f, OpenFile(o.count + 1, c), p);
    }
  }

  lemma AddWriter(s: State, f: FileName, o: OpenFile, p: int)
    requires Inv(s) && IsProc(s.parent, p) && f in s.ofds && IsProc(s.parent, o.owner) && o.count > 0
    requires var ws := WritersOf(s, (f, Generation(s, f))) + {p};
      OwnedBy(s.parent, s.can, o.owner, ws) && AllOrNone(s.parent, s.can, ws)
    ensures var key := (f, Generation(s, f));
      Inv(s.(ofds := s.ofds[f := o], writers := s.writers[key := WritersOf(s, key) + {p}]))
  {
  }

  lemma StepKeepsInv(s: State, e: Event)
    requires Inv(s) && Allowed(s, e)
    ensures Inv(Step(s, e))
  {
    match e
    case Create(q) => CreateKeepsInv(s, q);
    case Disable(left) => DisableKeepsInv(s, left);
    case Open(f, p, fifo) =>
      if !f.inIgnoreLocation && f in s.ofds {
        OpenKeepsInv(s, f, p, fifo);
      } else if !f.inIgnoreLocation {
        NewGenerationKeepsInv(s, f, p);
      }
    case Close(f) =>
      if !f.inIgnoreLocation { CloseKeepsInv(s, f); }
  }

  lemma NewGenerationKeepsInv(s: State, f: FileName, p: int)
    requires Inv(s) && f !in s.ofds && IsProc(s.parent, p)
    ensures Inv(NewGeneration(s, f, p))
  {
    var t := NewGeneration(s, f, p);
    assert OwnedBy(s.parent, s.can, p, {p});
    OwnedIsAllOrNone(s.parent, s.can, p, {p});
    forall g | g in t.ofds ensures OwnedBy(t.parent, t.can, t.ofds[g].owner, WritersOf(t, (g, Generation(t, g)))) {
      if g != f { assert WritersOf(t, (g, Generation(t, g))) == WritersOf(s, (g, Generation(s, g))); }
    }
  }

  lemma CloseKeepsInv(s: State, f: FileName)
    requires Inv(s) && f in s.ofds
    ensures Inv(s.(ofds := s.ofds - {f}))
    ensures s.ofds[f].count > 1 ==> Inv(s.(ofds := s.ofds[f := s.ofds[f].(count := s.ofds[f].count - 1)]))
  {
  }

  // ------------------------------------------------------------------------------------------
  // Whole runs.
  // ------------------------------------------------------------------------------------------

  ghost predicate AllowedRun(s: State, es: seq<Event>)
    requires Shape(s)
    decreases |es|
  {
    es == [] || (Allowed(s, es[0]) && Shape(Step(s, es[0])) && AllowedRun(Step(s, es[0]), es[1..]))
  }

  ghost function Run(s: State, es: seq<Event>): State
    requires Shape(s) && AllowedRun(s, es)
    decreases |es|
  {
    if es == [] then s else Run(Step(s, es[0]), es[1..])
  }

  lemma {:induction false} RunKeepsInv(s: State, es: seq<Event>)
    requires Inv(s) && AllowedRun(s, es)
    ensures Inv(Run(s, es))
    decreases |es|
  {
    if es != [] {
      StepKeepsInv(s, es[0]);
      RunKeepsInv(Step(s, es[0]), es[1..]);
    }
  }

  /** Over every run, for every generation of every file and every process that can still be
      shortcut: its exec subtree holds all of the generation's writers or none of them. */
  lemma AllOrNoneOverEveryRun(es: seq<Event>, key: (FileName, nat), q: int)
    requires AllowedRun(INITIAL, es)
    requires var s := Run(INITIAL, es); IsProc(s.parent, q) && |s.can| == |s.parent| && s.can[q]
    ensures var s := Run(INITIAL, es);
      && Inv(s)
      && AreProcs(s.parent, WritersOf(s, key))
      && ((forall w :: w in WritersOf(s, key) ==> AtOrAbove(s.parent, q, w)) ||
          (forall w :: w in WritersOf(s, key) ==> !AtOrAbove(s.parent, q, w)))
  {
    RunKeepsInv(INITIAL, es);
  }
}
