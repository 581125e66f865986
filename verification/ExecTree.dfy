/** The exec'ed processes and the file bookkeeping that runs on them.

    The fields are the members of the process objects, indexed by creation number, and the global
    tables of the file names.  Every method is proved against the simple definitions of `ProcTree`,
    `Writers` and `Registration`, and all of them together against `Bookkeeping`. */
module ExecTree {
  import opened Options
  import opened ProcTree
  import opened FileNames
  import opened FileUsages
  import opened FactSets
  import opened Bubbling
  import opened Registration
  import Bookkeeping
  import Writers

  /** The usage found one level below, or none looked at yet. */
  datatype Previous = Unset | Found(usage: Option<FileUsage>)

  class ProcessForest {
    var parent: seq<int>
    var canShortcut: seq<bool>
    var maybeShortcutableAncestor: seq<int>
    var jobserverFifo: seq<Option<FileName>>
    var fileUsages: seq<map<FileName, FileUsage>>
    /** The observations registered at or below each process, per path. */
    ghost var known: seq<map<FileName, Facts>>
    var writeOfdsDb: map<FileName, Writers.OpenFile>
    var generationDb: map<FileName, nat>
    /** The processes that opened each generation of each file for writing. */
    ghost var writers: map<(FileName, nat), set<int>>

    ghost function Snapshot(): Books
      reads this
    {
      Books(canShortcut, fileUsages, known)
    }

    ghost function WriterState(): Writers.State
      reads this
    {
      Writers.State(parent, canShortcut, writeOfdsDb, generationDb, writers)
    }

    ghost function Env(): Env
      reads this
    {
      Registration.Env(parent, jobserverFifo, generationDb)
    }

    ghost function World(): Bookkeeping.World
      reads this
    {
      Bookkeeping.World(jobserverFifo, fileUsages, known, WriterState())
    }

    /** The pointers of the processes up to `p` are right. */
    ghost predicate ValidUpTo(p: int)
      reads this
    {
      && Tree(parent)
      && |canShortcut| == |parent| == |maybeShortcutableAncestor|
      && |jobserverFifo| == |fileUsages| == |known| == |parent|
      && forall q :: IsProc(parent, q) && q <= p ==> PointerOk(parent, canShortcut, maybeShortcutableAncestor, q)
    }

    ghost predicate Valid()
      reads this
    {
      ValidUpTo(|parent|)
    }

    constructor ()
      ensures Valid() && World() == Bookkeeping.EMPTY
    {
      parent, canShortcut, maybeShortcutableAncestor := [], [], [];
      jobserverFifo, fileUsages, known := [], [], [];
      writeOfdsDb, generationDb, writers := map[], map[], map[];
    }

    method Create(parentExecPoint: int, fifo: Option<FileName>) returns (p: int)
      requires Valid() && Ref(parent, parentExecPoint)
      modifies this`parent, this`canShortcut, this`maybeShortcutableAncestor, this`jobserverFifo, this`fileUsages,
        this`known
      ensures Valid() && p == |old(parent)|
      ensures parent == old(parent) + [parentExecPoint] && canShortcut == old(canShortcut) + [true]
      ensures jobserverFifo == old(jobserverFifo) + [fifo]
      ensures fileUsages == old(fileUsages) + [map[]] && known == old(known) + [map[]]
    {
      var closest := NONE;
      if parentExecPoint != NONE {
        closest := ClosestShortcutPoint(parentExecPoint);
      }
      p := |parent|;
      ghost var before, couldBefore, maybes := parent, canShortcut, maybeShortcutableAncestor;
      SkipsToClosest(parent, canShortcut, parentExecPoint);
      parent := parent + [parentExecPoint];
      canShortcut := canShortcut + [true];
      maybeShortcutableAncestor := maybeShortcutableAncestor + [closest];
      jobserverFifo := jobserverFifo + [fifo];
      fileUsages := fileUsages + [map[]];
      known := known + [map[]];
      forall q | IsProc(parent, q)
        ensures PointerOk(parent, canShortcut, maybeShortcutableAncestor, q)
      {
        assert q < p ==> IsProc(before, q) && PointerOk(before, couldBefore, maybes, q);
        SkipsInLargerTree(before, parent, couldBefore, canShortcut, parent[q], maybeShortcutableAncestor[q]);
      }
    }

    /** Follow the pointers to the nearest ancestor that can still be shortcut and remember it. */
    method NextShortcutableAncestor(p: int) returns (r: int)
      requires ValidUpTo(p) && IsProc(parent, p)
      modifies this`maybeShortcutableAncestor
      ensures ValidUpTo(p)
      ensures maybeShortcutableAncestor == old(maybeShortcutableAncestor)[p := r]
      ensures r == Nearest(parent, canShortcut, p)
    {
      var m := maybeShortcutableAncestor[p];
      assert PointerOk(parent, canShortcut, maybeShortcutableAncestor, p);
      SkipsKeepsClosest(parent, canShortcut, parent[p], m);
      SkipsIsAbove(parent, canShortcut, parent[p], m);
      if m == NONE || canShortcut[m] {
        r := m;
      } else {
        SkipFurther(parent, canShortcut, maybeShortcutableAncestor, parent[p], m);
        var next := maybeShortcutableAncestor[m];
        while next != NONE && !canShortcut[next]
          invariant next < p
          invariant Ref(parent, next) && Skips(parent, canShortcut, parent[p], next)
          decreases next
          modifies {}
        {
          SkipFurther(parent, canShortcut, maybeShortcutableAncestor, parent[p], next);
          next := maybeShortcutableAncestor[next];
        }
        SkipsKeepsClosest(parent, canShortcut, parent[p], next);
        maybeShortcutableAncestor := maybeShortcutableAncestor[p := next];
        r := next;
      }
    }

    method ClosestShortcutPoint(p: int) returns (r: int)
      requires Valid() && IsProc(parent, p)
      modifies this`maybeShortcutableAncestor
      ensures Valid()
      ensures r == Closest(parent, canShortcut, p)
    {
      if canShortcut[p] { r := p; } else { r := NextShortcutableAncestor(p); }
    }

    /** Walk up from both processes in lock step until one walk meets what the other has visited. */
    method CommonExecAncestor(p: int, other: int) returns (r: int)
      requires Tree(parent) && IsProc(parent, p) && IsProc(parent, other)
      requires LowestCommon(parent, p, other) != NONE
      ensures r == LowestCommon(parent, p, other)
    {
      var mine, others: set<int> := {}, {};
      var currThis, currOther := p, other;
      AllAboveOlder(parent, p);
      AllAboveOlder(parent, other);
      while currThis != NONE || currOther != NONE
        invariant Ref(parent, currThis) && AtOrAbove(parent, currThis, p)
        invariant Ref(parent, currOther) && AtOrAbove(parent, currOther, other)
        invariant forall x :: x in mine <==> AtOrAbove(parent, x, p) && x > currThis
        invariant forall x :: x in others <==> AtOrAbove(parent, x, other) && x > currOther
        invariant mine !! others
        decreases currThis + currOther + 2
      {
        if currThis != NONE {
          if currThis in others {
            MeetingPointIsLowest(parent, mine, others, currThis, currThis, currOther, p, other);
            return currThis;
          } else {
            NextStep(parent, p, currThis);
            mine := mine + {currThis};
            currThis := parent[currThis];
          }
        }
        if currOther != NONE {
          if currOther in mine {
            MeetingPointIsLowest(parent, mine, others, currOther, currThis, currOther, p, other);
            return currOther;
          } else {
            NextStep(parent, other, currOther);
            others := others + {currOther};
            currOther := parent[currOther];
          }
        }
      }
      LowestCommonIsLowest(parent, p, other);
      assert false;
    }

    method DisableShortcuttingOnlyThis(p: int)
      requires ValidUpTo(p) && IsProc(parent, p)
      modifies this`canShortcut
      ensures ValidUpTo(p)
      ensures canShortcut == old(canShortcut)[p := false]
      ensures old(Valid()) ==> Valid()
    {
      if canShortcut[p] {
        ghost var before := canShortcut;
        canShortcut := canShortcut[p := false];
        PointersStayOk(parent, before, canShortcut, maybeShortcutableAncestor);
      }
    }

    method DisableShortcuttingBubbleUpToExcl(p: int, stop: int)
      requires Valid() && IsProc(parent, p) && AtOrAbove(parent, stop, p)
      modifies this`canShortcut, this`maybeShortcutableAncestor
      ensures Valid()
      ensures canShortcut == DisableChain(parent, old(canShortcut), p, stop)
    {
      DisableChainFewer(parent, canShortcut, p, stop);
      PointersStayOk(parent, canShortcut, DisableChain(parent, canShortcut, p, stop), maybeShortcutableAncestor);
      BubbleUp(p, stop, NONE, false);
    }

    /** Follow the pointers from a process to the first one that can be shortcut. */
    method ClosestFrom(start: int) returns (r: int)
      requires ValidUpTo(start) && Ref(parent, start)
      ensures r == Closest(parent, canShortcut, start)
    {
      r := start;
      while r != NONE && !canShortcut[r]
        invariant NONE <= r <= start && Skips(parent, canShortcut, start, r)
        decreases r
      {
        SkipFurther(parent, canShortcut, maybeShortcutableAncestor, start, r);
        r := maybeShortcutableAncestor[r];
      }
      SkipsKeepsClosest(parent, canShortcut, start, r);
    }

    method BubbleUp(p: int, stop: int, shortcutableAncestor: int, isSet: bool)
      requires ValidUpTo(p) && IsProc(parent, p) && AtOrAbove(parent, stop, p)
      requires AllPointersOk(parent, DisableChain(parent, canShortcut, p, stop), maybeShortcutableAncestor)
      requires isSet ==> Ref(parent, stop) && shortcutableAncestor == Closest(parent, canShortcut, stop)
      modifies this`canShortcut, this`maybeShortcutableAncestor
      ensures Valid()
      ensures canShortcut == DisableChain(parent, old(canShortcut), p, stop)
      decreases p
    {
      if p == stop {
        return;
      }
      AboveIsOlder(parent, stop, p);
      ClosestAboveUnchanged(parent, canShortcut, canShortcut[p := false], stop);
      DisableShortcuttingOnlyThis(p);
      var next := NextShortcutableAncestor(p);
      if next == NONE {
        DisableChainDone(parent, canShortcut, parent[p], stop);
        return;
      }
      var ancestor := shortcutableAncestor;
      if !isSet {
        ancestor := ClosestFrom(stop);
      }
      ChainEndsAtClosest(parent, canShortcut, parent[p], stop);
      maybeShortcutableAncestor := maybeShortcutableAncestor[p := ancestor];
      if parent[p] != NONE {
        BubbleUp(parent[p], stop, ancestor, true);
      }
    }

    // ----------------------------------------------------------------------------------------
    // Registering.
    // ----------------------------------------------------------------------------------------

    /** Register an observation or change made by process `p` and bubble it up to the root. */
    method RegisterFileUsageUpdate(p: int, name: FileName, u: Update, ghost spoil: bool) returns (ok: bool)
      requires Valid() && IsProc(parent, p)
      modifies this`canShortcut, this`maybeShortcutableAncestor, this`fileUsages, this`known
      ensures Valid()
      ensures Outcome(Snapshot(), ok) == Register(Env(), old(Snapshot()), name, u, p, spoil)
      decreases Rank(u), p + 1, 1
    {
      if name.inIgnoreLocation || Some(name) == jobserverFifo[p] {
        return true;
      }
      var propagated, proc := false, p;
      if !canShortcut[proc] {
        proc := NextShortcutableAncestor(proc);
        propagated := true;
      }
      if proc == NONE {
        return true;
      }
      if u.parentType != DontKnow {
        var _ := RegisterParentDirectory(proc, name, u.parentType);
      }
      ok := BubbleUpdate(p, proc, propagated, name, u, spoil);
    }

    /** Register what the update tells about the directory that holds the path. */
    method RegisterParentDirectory(proc: int, name: FileName, t: FileType) returns (ok: bool)
      requires Valid() && IsProc(parent, proc)
      modifies this`canShortcut, this`maybeShortcutableAncestor, this`fileUsages, this`known
      ensures Valid()
      ensures Outcome(Snapshot(), ok) == RegisterDirectory(Env(), old(Snapshot()), name, t, proc)
      decreases 1, proc + 1, 0
    {
      if name.parentDir.None? {
        return false;
      }
      var dir := name.parentDir.value;
      if dir.path == "/" {
        return true;
      }
      var update := TypeUpdate(t, if dir in generationDb then generationDb[dir] else 0);
      ok := RegisterFileUsageUpdate(proc, dir, update, false);
    }

    /** What the loop carries from one level to the next is what `Bubble` does. */
    ghost predicate Carried(u: Update, fuOld: Previous, fuNew: Option<FileUsage>) {
      fuOld.Found? ==>
        fuNew.Some? && !Misses(fuOld.usage, u) &&
        Merge(OrNothing(fuOld.usage), u, fuNew.value.propagated) == fuNew
    }

    ghost function BelowOf(fuOld: Previous, fuNew: Option<FileUsage>): Below {
      if fuOld.Found? && fuNew.Some? then Level(fuOld.usage, fuNew.value.propagated) else Nothing
    }

    /** The body of the loop up to the decision: what the level's usage becomes. */
    method MergeLevel(proc: int, propagated: bool, name: FileName, u: Update, fuOld: Previous, fuNew: Option<FileUsage>)
      returns (verdict: Verdict, fu: Option<FileUsage>, merged: Option<FileUsage>)
      requires 0 <= proc < |fileUsages| && Carried(u, fuOld, fuNew)
      ensures fu == LevelUsage(Snapshot(), proc, name) && (verdict.ParallelChange? <==> Misses(fu, u))
      ensures !Misses(fu, u) ==> merged == Merge(OrNothing(fu), u, BitOf(BelowOf(fuOld, fuNew), fu, propagated))
      ensures verdict.Merged? ==> merged.Some? && Carried(u, Found(fu), merged)
      ensures verdict.Merged? ==> merged.value.propagated == BitOf(BelowOf(fuOld, fuNew), fu, propagated)
      ensures verdict.Conflict? ==> merged.None?
    {
      fu := if name in fileUsages[proc] then Some(fileUsages[proc][name]) else None;
      if Found(fu) == fuOld {
        // The same merge as one level below: its result is fuNew.
        return Merged, fu, fuNew;
      }
      if fu.Some? && fu.value.generation != u.generation && fu.value.generation + 1 != u.generation {
        return ParallelChange, fu, None;
      }
      merged := Merge(OrNothing(fu), u, propagated);
      verdict := if merged.Some? then Merged else Conflict;
    }

    /** What the loop still has to do. */
    ghost function Rest(name: FileName, u: Update, p: int, proc: int, propagated: bool, fuOld: Previous,
                        fuNew: Option<FileUsage>, spoil: bool): Outcome
      requires Sized(Env(), Snapshot()) && IsProc(parent, p) && NONE <= proc <= p
      reads this
    {
      if Found(fuNew) == fuOld then Outcome(Snapshot(), true)
      else Bubble(Env(), Snapshot(), name, u, p, proc, propagated, BelowOf(fuOld, fuNew), spoil)
    }

    /** One round of the loop. */
    method OneLevel(p: int, proc: int, propagated: bool, name: FileName, u: Update, fuOld: Previous,
                    fuNew: Option<FileUsage>, ghost spoil: bool)
      returns (verdict: Verdict, next: int, fuOld': Previous, fuNew': Option<FileUsage>, ghost spoil': bool)
      requires Valid() && IsProc(parent, p) && 0 <= proc <= p && Carried(u, fuOld, fuNew) && Found(fuNew) != fuOld
      modifies this`maybeShortcutableAncestor, this`fileUsages, this`known
      ensures Valid() && (!verdict.Merged? ==> Snapshot() == old(Snapshot()))
      ensures verdict.Merged? ==> NONE <= next < proc && Carried(u, fuOld', fuNew')
      ensures verdict.Merged? ==>
        old(Rest(name, u, p, proc, propagated, fuOld, fuNew, spoil)) ==
          Rest(name, u, p, next, true, fuOld', fuNew', spoil')
      ensures verdict.ParallelChange? ==>
        var b := Snapshot().(can := canShortcut[proc := false]);
        var above := Nearest(parent, b.can, proc);
        old(Rest(name, u, p, proc, propagated, fuOld, fuNew, spoil)) ==
          if above == NONE then Outcome(b, true) else Register(Env(), b, name, u, above, spoil)
      ensures verdict.Conflict? ==>
        old(Rest(name, u, p, proc, propagated, fuOld, fuNew, spoil)) ==
          Outcome(Snapshot().(can := DisableChain(parent, canShortcut, p, NONE)), false)
    {
      next, fuOld', fuNew', spoil' := NONE, Unset, None, spoil;
      var fu, merged;
      verdict, fu, merged := MergeLevel(proc, propagated, name, u, fuOld, fuNew);
      if verdict.Merged? {
        fuOld', fuNew', spoil' := Found(fu), merged, spoil || Irregular(OrNothing(fu), u);
        StoreLevel(proc, name, u, merged.value, spoil', merged == fu);
        next := NextShortcutableAncestor(proc);
      }
    }

    /** The loop: bubble up to the root, but stop at a level that does not change. */
    method BubbleUpdate(p: int, start: int, startPropagated: bool, name: FileName, u: Update, ghost startSpoil: bool)
      returns (ok: bool)
      requires Valid() && IsProc(parent, p) && 0 <= start <= p
      modifies this`canShortcut, this`maybeShortcutableAncestor, this`fileUsages, this`known
      ensures Valid()
      ensures Outcome(Snapshot(), ok) ==
        Bubble(Env(), old(Snapshot()), name, u, p, start, startPropagated, Nothing, startSpoil)
      decreases Rank(u), start + 1, 0
    {
      var proc, propagated := start, startPropagated;
      var fuOld: Previous, fuNew: Option<FileUsage> := Unset, None;
      ghost var spoil := startSpoil;
      while proc != NONE && Found(fuNew) != fuOld
        invariant Valid() && NONE <= proc <= start && Carried(u, fuOld, fuNew)
        invariant Bubble(Env(), old(Snapshot()), name, u, p, start, startPropagated, Nothing, startSpoil) ==
          Rest(name, u, p, proc, propagated, fuOld, fuNew, spoil)
        decreases proc
      {
        var verdict, next;
        ghost var spoil';
        verdict, next, fuOld, fuNew, spoil' := OneLevel(p, proc, propagated, name, u, fuOld, fuNew, spoil);
        if verdict.ParallelChange? {
          ok := SkipLevel(proc, name, u, spoil);
          return;
        } else if verdict.Conflict? {
          NoneAbove(parent, p);
          DisableShortcuttingBubbleUpToExcl(p, NONE);
          return false;
        }
        propagated, proc, spoil := true, next, spoil';
      }
      ok := true;
    }

    /** The level missed a parallel change: it cannot be shortcut, start over above it. */
    method SkipLevel(proc: int, name: FileName, u: Update, ghost spoil: bool) returns (ok: bool)
      requires Valid() && IsProc(parent, proc)
      modifies this`canShortcut, this`maybeShortcutableAncestor, this`fileUsages, this`known
      ensures Valid()
      ensures
        var b := old(Snapshot()).(can := old(canShortcut)[proc := false]);
        var next := Nearest(parent, b.can, proc);
        Outcome(Snapshot(), ok) == if next == NONE then Outcome(b, true) else Register(Env(), b, name, u, next, spoil)
      decreases Rank(u), proc, 2
    {
      DisableShortcuttingOnlyThis(proc);
      var next := NextShortcutableAncestor(proc);
      if next == NONE {
        return true;
      }
      ok := RegisterFileUsageUpdate(next, name, u, spoil);
    }

    /** The usage is stored; when it is the same as before, the levels above count as told. */
    method StoreLevel(proc: int, name: FileName, u: Update, fu: FileUsage, ghost spoil: bool, ghost same: bool)
      requires Valid() && IsProc(parent, proc)
      modifies this`fileUsages, this`known
      ensures Valid()
      ensures
        var b := Registration.Merged(old(Snapshot()), proc, name, u, fu, spoil);
        Snapshot() == if same then Noted(parent, b, name, u, proc, spoil) else b
    {
      ghost var b := Registration.Merged(Snapshot(), proc, name, u, fu, spoil);
      fileUsages := fileUsages[proc := fileUsages[proc][name := fu]];
      known := if same then Noted(parent, b, name, u, proc, spoil).known else b.known;
    }

    // ----------------------------------------------------------------------------------------
    // Writers.
    // ----------------------------------------------------------------------------------------

    method OpenForWriting(name: FileName, proc: int)
      requires Valid() && IsProc(parent, proc) && Bookkeeping.Shaped(World())
      modifies this
      ensures Valid() && World() == Bookkeeping.Step(old(World()), Bookkeeping.Open(name, proc))
    {
      Bookkeeping.OpenedIsShaped(World(), name, proc);
      if name.inIgnoreLocation {
        return;
      }
      if name in writeOfdsDb {
        AnotherWriter(name, proc);
      } else {
        NewGeneration(name, proc);
      }
    }

    method AnotherWriter(name: FileName, proc: int)
      requires Valid() && IsProc(parent, proc) && Writers.Shape(WriterState()) && name in writeOfdsDb
      modifies this`canShortcut, this`maybeShortcutableAncestor, this`writeOfdsDb, this`writers
      ensures Valid() && WriterState() == Writers.AnotherWriter(old(WriterState()), name, proc, jobserverFifo[proc])
    {
      ghost var state, fifo := WriterState(), jobserverFifo[proc];
      var file := writeOfdsDb[name];
      file := file.(count := file.count + 1);
      if proc != file.owner && Some(name) != jobserverFifo[proc] {
        var commonAncestor := JoinWriters(proc, file.owner);
        file := file.(owner := commonAncestor);
      }
      writeOfdsDb := writeOfdsDb[name := file];
      writers := Writers.AnotherWriter(state, name, proc, fifo).writers;
    }

    /** Two processes write the same file: disable both up to their common ancestor. */
    method JoinWriters(proc: int, owner: int) returns (commonAncestor: int)
      requires Valid() && OneRoot(parent) && IsProc(parent, proc) && IsProc(parent, owner)
      modifies this`canShortcut, this`maybeShortcutableAncestor
      ensures Valid()
      ensures commonAncestor == LowestCommon(parent, proc, owner)
      ensures canShortcut == Writers.Joined(parent, old(canShortcut), proc, owner)
    {
      LowestCommonExists(parent, proc, owner);
      LowestCommonIsLowest(parent, proc, owner);
      commonAncestor := CommonExecAncestor(proc, owner);
      if commonAncestor != proc {
        DisableShortcuttingBubbleUpToExcl(proc, commonAncestor);
      }
      if commonAncestor != owner {
        DisableShortcuttingBubbleUpToExcl(owner, commonAncestor);
      }
    }

    /** A file that was written before gets a new generation, which is bubbled up. */
    method NewGeneration(name: FileName, proc: int)
      requires Valid() && IsProc(parent, proc) && name !in writeOfdsDb
      modifies this`canShortcut, this`maybeShortcutableAncestor, this`fileUsages, this`known,
               this`writeOfdsDb, this`generationDb, this`writers
      ensures Valid()
      ensures
        var files := Writers.NewGeneration(old(WriterState()), name, proc);
        if name in old(generationDb) then
          var u := TypeUpdate(DontKnow, Writers.Generation(old(WriterState()), name) + 1);
          var r := Register(Env(), old(Snapshot()), name, u, proc, false);
          Snapshot() == r.books && WriterState() == files.(can := r.books.can)
        else Snapshot() == old(Snapshot()) && WriterState() == files
    {
      ghost var files := Writers.NewGeneration(WriterState(), name, proc);
      writeOfdsDb := writeOfdsDb[name := Writers.OpenFile(1, proc)];
      writers := files.writers;
      if name in generationDb {
        generationDb := generationDb[name := generationDb[name] + 1];
        var _ := RegisterFileUsageUpdate(proc, name, TypeUpdate(DontKnow, generationDb[name]), false);
      } else {
        generationDb := generationDb[name := 1];
      }
    }

    method CloseForWriting(name: FileName)
      requires Valid() && Writers.Shape(WriterState()) && Writers.Allowed(WriterState(), Writers.Close(name))
      modifies this`writeOfdsDb
      ensures Valid() && WriterState() == Writers.Step(old(WriterState()), Writers.Close(name))
    {
      if name.inIgnoreLocation {
        return;
      }
      if writeOfdsDb[name].count > 1 {
        writeOfdsDb := writeOfdsDb[name := writeOfdsDb[name].(count := writeOfdsDb[name].count - 1)];
      } else {
        writeOfdsDb := writeOfdsDb - {name};
      }
    }
  }

  datatype Verdict = Merged | ParallelChange | Conflict

  ghost predicate PointerOk(parent: seq<int>, can: seq<bool>, maybe: seq<int>, p: int)
    requires Tree(parent) && |can| == |parent| == |maybe| && IsProc(parent, p)
  {
    Skips(parent, can, parent[p], maybe[p])
  }

  ghost predicate AllPointersOk(parent: seq<int>, can: seq<bool>, maybe: seq<int>)
    requires Tree(parent) && |can| == |parent| == |maybe|
  {
    forall q :: IsProc(parent, q) ==> PointerOk(parent, can, maybe, q)
  }

  lemma PointersStayOk(parent: seq<int>, can: seq<bool>, can': seq<bool>, maybe: seq<int>)
    requires Tree(parent) && |can| == |parent| == |maybe| && Fewer(can', can)
    ensures forall q :: IsProc(parent, q) && PointerOk(parent, can, maybe, q) ==> PointerOk(parent, can', maybe, q)
  {
    forall q | IsProc(parent, q) && PointerOk(parent, can, maybe, q)
      ensures PointerOk(parent, can', maybe, q)
    {
      SkipsMonotone(parent, can, can', parent[q], maybe[q]);
    }
  }

  /** The walk visits the ancestors from the youngest on. */
  lemma NextStep(parent: seq<int>, p: int, curr: int)
    requires Tree(parent) && Ref(parent, p) && IsProc(parent, curr) && AtOrAbove(parent, curr, p)
    ensures AtOrAbove(parent, parent[curr], p)
    ensures forall x :: AtOrAbove(parent, x, p) && x > parent[curr] <==>
      x == curr || (AtOrAbove(parent, x, p) && x > curr)
  {
    AboveTransitive(parent, parent[curr], curr, p);
    forall x | AtOrAbove(parent, x, p) && parent[curr] < x <= curr
      ensures x == curr
    {
      AboveLinear(parent, x, curr, p);
      if x != curr { AboveIsOlder(parent, x, parent[curr]); }
    }
  }

  /** A process visited by one walk and reached by the other is the lowest common ancestor. */
  lemma MeetingPointIsLowest(parent: seq<int>, mine: set<int>, others: set<int>, m: int,
                             currThis: int, currOther: int, p: int, other: int)
    requires Tree(parent) && IsProc(parent, p) && IsProc(parent, other)
    requires forall x :: x in mine <==> AtOrAbove(parent, x, p) && x > currThis
    requires forall x :: x in others <==> AtOrAbove(parent, x, other) && x > currOther
    requires mine !! others && m >= 0
    requires AtOrAbove(parent, m, p) && AtOrAbove(parent, m, other)
    requires (m in others && currThis == m) || (m in mine && currOther == m)
    ensures m == LowestCommon(parent, p, other)
  {
    AboveIsOlder(parent, m, p);
    forall d | AtOrAbove(parent, d, p) && AtOrAbove(parent, d, other)
      ensures AtOrAbove(parent, d, m)
    {
      assert d <= m;
      AboveLinear(parent, d, m, p);
    }
    LowestCommonIsLowest(parent, p, other);
    LowestCommonUnique(parent, m, LowestCommon(parent, p, other), p, other);
  }

  /** Once the chain is disabled, the walk from its start ends where the walk from `stop` does. */
  lemma ChainEndsAtClosest(parent: seq<int>, can: seq<bool>, p: int, stop: int)
    requires Tree(parent) && |can| == |parent| && Ref(parent, p) && AtOrAbove(parent, stop, p)
    ensures Ref(parent, stop)
    ensures Skips(parent, DisableChain(parent, can, p, stop), p, Closest(parent, can, stop))
  {
    AboveIsOlder(parent, stop, p);
    var final := DisableChain(parent, can, p, stop);
    DisabledChainSkips(parent, can, p, stop);
    DisableChainFewer(parent, can, p, stop);
    SkipsToClosest(parent, can, stop);
    SkipsMonotone(parent, can, final, stop, Closest(parent, can, stop));
    SkipsTransitive(parent, final, p, stop, Closest(parent, can, stop));
  }

  /** One hop along the pointer of a process that cannot be shortcut. */
  lemma SkipFurther(parent: seq<int>, can: seq<bool>, maybe: seq<int>, from: int, m: int)
    requires Tree(parent) && |can| == |parent| == |maybe| && Ref(parent, from) && IsProc(parent, m)
    requires Skips(parent, can, from, m) && !can[m]
    requires PointerOk(parent, can, maybe, m)
    ensures NONE <= maybe[m] < m && Skips(parent, can, from, maybe[m])
  {
    SkipsIsAbove(parent, can, parent[m], maybe[m]);
    SkipsTransitive(parent, can, from, m, maybe[m]);
  }
}
