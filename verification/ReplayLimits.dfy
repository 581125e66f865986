/** The limits of replaying: a run that is not recorded well enough is not repeated everywhere.

    For every step that falls short there is a file system which the record matches and in which the
    process sees something else.  It differs from the recorded one below a single path. */
module ReplayLimits {
  import opened Options
  import opened FileUsages
  import opened Recording
  import opened Replay

  // ------------------------------------------------------------------------------------------
  // Changing a file system below a path.
  // ------------------------------------------------------------------------------------------

  function PrefixesOf(p: Path): set<Path> {
    set i | 0 <= i <= |p| :: p[..i]
  }

  /** Everything from `x` on is replaced by the way to `p`, which ends in the node `n`. */
  function Replaced(fs: FileSystem, x: Path, p: Path, n: Node): FileSystem {
    map q | q in fs.Keys + PrefixesOf(p) && (if x <= q then q <= p else q in fs) ::
      if x <= q then (if q == p then n else Directory) else fs[q]
  }

  lemma ReplacedNode(fs: FileSystem, x: Path, p: Path, n: Node, q: Path)
    requires x != []
    ensures NodeAt(Replaced(fs, x, p, n), q) ==
      if !(x <= q) then NodeAt(fs, q) else if q == p then n else if q <= p then Directory else Absent
  {
    if q <= p {
      assert q == p[..|q|];
      assert q in PrefixesOf(p);
    }
  }

  lemma ReplacedIsWellFormed(fs: FileSystem, x: Path, p: Path, n: Node)
    requires WellFormed(fs) && x != [] && x <= p
    requires NodeAt(fs, Parent(x)).Directory? || (x == p && n.Absent?)
    ensures WellFormed(Replaced(fs, x, p, n))
  {
    var fs' := Replaced(fs, x, p, n);
    forall q | q != [] && !NodeAt(fs', q).Absent? ensures NodeAt(fs', Parent(q)).Directory? {
      ReplacedNode(fs, x, p, n, q);
      ReplacedNode(fs, x, p, n, Parent(q));
      if x <= q && x != q { assert x <= Parent(q) < q; }
    }
  }

  /** The record still matches if it does so from `x` on. */
  lemma ReplacedMatches(fs: FileSystem, r: Recorder, x: Path, p: Path, n: Node)
    requires x != [] && Matches(fs, r)
    requires forall q :: q in r.usages && x <= q ==>
      InfoFits(EntryOf(if q == p then n else if q <= p then Directory else Absent), r.usages[q].initial)
    ensures Matches(Replaced(fs, x, p, n), r)
  {
    forall q | q in r.usages ensures InfoFits(EntryOf(NodeAt(Replaced(fs, x, p, n), q)), r.usages[q].initial) {
      ReplacedNode(fs, x, p, n, q);
    }
  }

  const EMPTY := File([])

  // ------------------------------------------------------------------------------------------
  // What is not sure is otherwise in some file system that matches.
  // ------------------------------------------------------------------------------------------

  /** Something may be missing. */
  lemma MayBeMissing(fs: FileSystem, r: Recorder, x: Path)
    requires Candidate(fs, r) && !SureExists(r, x)
    ensures var fs2 := Replaced(fs, x, x, Absent);
      x != [] && Candidate(fs2, r) && NodeAt(fs2, x).Absent?
  {
    forall q | q in r.usages && x <= q ensures InfoFits(Missing, r.usages[q].initial) {
      if q != x { assert x < q && !TellsExistence(TypeOf(r, q)); }
    }
    ReplacedMatches(fs, r, x, x, Absent);
    ReplacedIsWellFormed(fs, x, x, Absent);
    ReplacedNode(fs, x, x, Absent, x);
  }

  /** A directory may be a file. */
  lemma MayBeFile(fs: FileSystem, r: Recorder, x: Path)
    requires Candidate(fs, r) && NodeAt(fs, x).Directory? && !SureDirectory(r, x)
    ensures var fs2 := Replaced(fs, x, x, EMPTY);
      x != [] && Candidate(fs2, r) && NodeAt(fs2, x) == EMPTY
  {
    forall q | q in r.usages && x <= q
      ensures InfoFits(EntryOf(if q == x then EMPTY else Absent), r.usages[q].initial)
    {
      UsageMatches(fs, r, q);
      if q != x { assert x < q && !TellsExistence(TypeOf(r, q)); }
    }
    ReplacedMatches(fs, r, x, x, EMPTY);
    ReplacedIsWellFormed(fs, x, x, EMPTY);
    ReplacedNode(fs, x, x, EMPTY, x);
  }

  /** Where nothing was found there may be a file. */
  lemma MayAppear(fs: FileSystem, r: Recorder, x: Path)
    requires WellFormed(fs) && Proper(r) && Matches(fs, r) && x != []
    requires NodeAt(fs, x).Absent? && NodeAt(fs, Parent(x)).Directory? && TypeOf(r, x) != NotExist
    ensures var fs2 := Replaced(fs, x, x, EMPTY);
      Candidate(fs2, r) && NodeAt(fs2, x) == EMPTY
  {
    forall q | q in r.usages && x <= q
      ensures InfoFits(EntryOf(if q == x then EMPTY else Absent), r.usages[q].initial)
    {
      UsageMatches(fs, r, q);
      assert ProperUsage(r.usages[q]);
      if q != x && !NodeAt(fs, q).Absent? { AncestorIsDirectory(fs, x, q); }
    }
    ReplacedMatches(fs, r, x, x, EMPTY);
    ReplacedIsWellFormed(fs, x, x, EMPTY);
    ReplacedNode(fs, x, x, EMPTY, x);
  }

  /** A file may be missing or a directory. */
  lemma MayBeNoFile(fs: FileSystem, r: Recorder, x: Path)
    requires Candidate(fs, r) && NodeAt(fs, x).File? && TypeOf(r, x) != IsReg
    ensures var n := if TypeOf(r, x) == Exist then Directory else Absent;
      var fs2 := Replaced(fs, x, x, n);
      Candidate(fs2, r) && forall q :: NodeAt(fs2, q) == if q == x then n else NodeAt(fs, q)
  {
    var n := if TypeOf(r, x) == Exist then Directory else Absent;
    forall q | x < q ensures NodeAt(fs, q).Absent? {
      if !NodeAt(fs, q).Absent? { AncestorIsDirectory(fs, x, q); }
    }
    forall q | q in r.usages && x <= q
      ensures InfoFits(EntryOf(if q == x then n else Absent), r.usages[q].initial)
    {
      UsageMatches(fs, r, q);
    }
    ReplacedMatches(fs, r, x, x, n);
    ReplacedIsWellFormed(fs, x, x, n);
    forall q ensures NodeAt(Replaced(fs, x, x, n), q) == if q == x then n else NodeAt(fs, q) {
      ReplacedNode(fs, x, x, n, q);
    }
  }

  /** A path below a file may be a file, if every component on the way may be a directory. */
  lemma MayBeReached(fs: FileSystem, r: Recorder, x: Path, p: Path)
    requires WellFormed(fs) && Proper(r) && Matches(fs, r) && NodeAt(fs, x).File? && x < p
    requires TypeOf(r, p) != NotExist && forall y :: y < p ==> !NoDirectory(TypeOf(r, y))
    ensures var fs2 := Replaced(fs, x, p, EMPTY);
      Candidate(fs2, r) && NodeAt(fs2, p) == EMPTY
  {
    forall q | q in r.usages && x <= q
      ensures InfoFits(EntryOf(if q == p then EMPTY else if q <= p then Directory else Absent), r.usages[q].initial)
    {
      UsageMatches(fs, r, q);
      assert ProperUsage(r.usages[q]);
      if q != x && !NodeAt(fs, q).Absent? { AncestorIsDirectory(fs, x, q); }
      if q < p { assert !NoDirectory(TypeOf(r, q)); }
    }
    ReplacedMatches(fs, r, x, p, EMPTY);
    ReplacedIsWellFormed(fs, x, p, EMPTY);
    ReplacedNode(fs, x, p, EMPTY, p);
  }

  /** What exists in the recorded file system does so in every one that matches, iff the record tells. */
  lemma SureExistsIff(fs: FileSystem, r: Recorder, x: Path)
    requires Candidate(fs, r)
    ensures (forall fs2 :: Candidate(fs2, r) ==> !NodeAt(fs2, x).Absent?) <==> SureExists(r, x)
  {
    if SureExists(r, x) {
      forall fs2 | Candidate(fs2, r) ensures !NodeAt(fs2, x).Absent? {
        SureExistsIs(fs2, r, x);
      }
    } else {
      MayBeMissing(fs, r, x);
    }
  }

  /** What is a directory in the recorded file system is one in every one that matches, iff the record tells. */
  lemma SureDirectoryIff(fs: FileSystem, r: Recorder, x: Path)
    requires Candidate(fs, r) && NodeAt(fs, x).Directory?
    ensures (forall fs2 :: Candidate(fs2, r) ==> NodeAt(fs2, x).Directory?) <==> SureDirectory(r, x)
  {
    if SureDirectory(r, x) {
      forall fs2 | Candidate(fs2, r) ensures NodeAt(fs2, x).Directory? {
        SureDirectoryIs(fs2, r, x);
      }
    } else {
      MayBeFile(fs, r, x);
    }
  }

  // ------------------------------------------------------------------------------------------
  // A run that sees the same.
  // ------------------------------------------------------------------------------------------

  /** A world of a run in `fs2` that saw the same as the recorded one. */
  ghost predicate Alongside(fs2: FileSystem, w1: World, w2: World, r: Recorder) {
    && Overlays(fs2, w2, Written(r)) && w2.writable == w1.writable
    && forall p :: p !in Written(r) && TypeOf(r, p) == Exist ==> !NodeAt(fs2, p).Absent?
  }

  /** A recorded existence was seen. */
  lemma MergeToExist(fu: FileUsage, u: Update)
    requires GenerationFits(fu, u) && Merge(fu, u, false).Some?
    ensures var fu' := Merge(fu, u, false).value;
      !fu'.written && fu'.initial.fileType == Exist ==> u.fileType == Some(Exist)
  {
  }

  lemma NoteToExist(r: Recorder, p: Path, u: Update, q: Path)
    requires Note(r, p, u).Some?
    ensures var r' := Note(r, p, u).value;
      !UsageOf(r', q).written && TypeOf(r', q) == Exist ==>
        if q == p then u.fileType == Some(Exist) else !UsageOf(r, q).written && TypeOf(r, q) == Exist
  {
    MergeToExist(UsageOf(r, p), u);
  }

  predicate SawExistence(a: Action, o: Observation) {
    (a.Access? && o == Done) || (a.Open? && o == Exists)
  }

  lemma UpdateSaysExist(w: World, a: Action, g: nat)
    requires !a.Exit? && UpdateFor(w, a, g).Some?
    ensures UpdateFor(w, a, g).value.fileType == Some(Exist) ==> SawExistence(a, Perform(w, a).1)
    ensures UpdateFor(w, a, g).value.parentType != Exist
  {
  }

  lemma NoteWithParentToExist(r: Recorder, p: Path, u: Update, q: Path)
    requires NoteWithParent(r, p, u).Some? && u.parentType != Exist
    ensures var r' := NoteWithParent(r, p, u).value;
      !UsageOf(r', q).written && TypeOf(r', q) == Exist ==>
        if q == p then u.fileType == Some(Exist) else !UsageOf(r, q).written && TypeOf(r, q) == Exist
  {
    if u.parentType == DontKnow || p == [] || Parent(p) == [] {
      NoteToExist(r, p, u, q);
    } else {
      var v := FromType(u.parentType, GenerationOf(r, Parent(p)));
      NoteToExist(r, Parent(p), v, q);
      NoteToExist(Note(r, Parent(p), v).value, p, u, q);
    }
  }

  lemma StepToExist(w: World, r: Recorder, a: Action, q: Path)
    requires Proper(r) && !a.Exit? && RecordStep(r, w, a).Some?
    ensures var r' := RecordStep(r, w, a).value;
      q !in Written(r') && TypeOf(r', q) == Exist ==>
        (q !in Written(r) && TypeOf(r, q) == Exist) || (q == a.path && SawExistence(a, Perform(w, a).1))
  {
    var m := Marked(r, w, a).value;
    MarkKeeps(r, w, a);
    assert q !in Written(m) <==> !UsageOf(m, q).written;
    if StepUpdate(r, w, a).Some? {
      UpdateSaysExist(w, a, GenerationOf(m, a.path));
      NoteWithParentToExist(m, a.path, StepUpdate(r, w, a).value, q);
    }
  }

  lemma SameEffect(w1: World, w2: World, a: Action)
    requires !a.Exit? && w1.writable == w2.writable && Blurred(Perform(w1, a).1) == Blurred(Perform(w2, a).1)
    ensures Perform(w1, a).0.writable == Perform(w2, a).0.writable
    ensures Wrote(a, Perform(w1, a).1) <==> Wrote(a, Perform(w2, a).1)
    ensures SawExistence(a, Perform(w1, a).1) ==> !NodeAt(w2.fs, a.path).Absent?
  {
  }

  lemma StepAlongside(fs1: FileSystem, fs2: FileSystem, w1: World, w2: World, r: Recorder, a: Action)
    requires Follows(fs1, w1, r) && Alongside(fs2, w1, w2, r) && !a.Exit? && RecordStep(r, w1, a).Some?
    requires Blurred(Perform(w1, a).1) == Blurred(Perform(w2, a).1)
    ensures Alongside(fs2, Perform(w1, a).0, Perform(w2, a).0, RecordStep(r, w1, a).value)
  {
    var r' := RecordStep(r, w1, a).value;
    RegisteredMeets(fs1, w1, r, a, fs1);
    SameEffect(w1, w2, a);
    ActionOverlays(fs2, w2, a, Written(r));
    forall p | p !in Written(r') && TypeOf(r', p) == Exist ensures !NodeAt(fs2, p).Absent? {
      StepToExist(w1, r, a, p);
    }
  }

  /** The rest of the run, from a world alongside, sees the same. */
  ghost predicate Continues(prog: Program, w1: World, seen1: seq<Observation>, r: Recorder, n: nat, errnos: bool,
                            fs2: FileSystem, w2: World, seen2: seq<Observation>)
  {
    && Alongside(fs2, w1, w2, r) && SameSeen(seen1, seen2, errnos)
    && SameSeen(Execute(prog, w1, seen1, n).1, Execute(prog, w2, seen2, n).1, errnos)
  }

  ghost predicate Repeats(prog: Program, w1: World, seen1: seq<Observation>, r: Recorder, n: nat, errnos: bool,
                          fs2: FileSystem) {
    exists w2, seen2 :: Continues(prog, w1, seen1, r, n, errnos, fs2, w2, seen2)
  }

  lemma {:induction false} SeenIsKept(prog: Program, w: World, seen: seq<Observation>, n: nat)
    ensures seen <= Execute(prog, w, seen, n).1
    decreases n
  {
    if n > 0 && !prog(seen).Exit? {
      var (w', o) := Perform(w, prog(seen));
      SeenIsKept(prog, w', seen + [o], n - 1);
    }
  }

  lemma NextIsSeen(prog: Program, w: World, seen: seq<Observation>, n: nat)
    requires n > 0 && !prog(seen).Exit?
    ensures var w', o := Perform(w, prog(seen)).0, Perform(w, prog(seen)).1;
      && Execute(prog, w, seen, n) == Execute(prog, w', seen + [o], n - 1)
      && |seen| < |Execute(prog, w, seen, n).1| && Execute(prog, w, seen, n).1[|seen|] == o
  {
    var w', o := Perform(w, prog(seen)).0, Perform(w, prog(seen)).1;
    SeenIsKept(prog, w', seen + [o], n - 1);
    assert (seen + [o])[|seen|] == o;
  }

  /** The next step sees the same, and the rest of the run continues from there. */
  lemma StepContinues(prog: Program, fs1: FileSystem, w1: World, seen1: seq<Observation>, r: Recorder, n: nat,
                      errnos: bool, fs2: FileSystem, w2: World, seen2: seq<Observation>)
    requires Follows(fs1, w1, r) && Depends(prog, errnos) && n > 0 && !prog(seen1).Exit?
    requires RecordStep(r, w1, prog(seen1)).Some?
    requires Continues(prog, w1, seen1, r, n, errnos, fs2, w2, seen2)
    ensures var a := prog(seen1);
      var (w1', o1), (w2', o2) := Perform(w1, a), Perform(w2, a);
      && View(o1, errnos) == View(o2, errnos)
      && Continues(prog, w1', seen1 + [o1], RecordStep(r, w1, a).value, n - 1, errnos, fs2, w2', seen2 + [o2])
  {
    var a := prog(seen1);
    assert prog(seen2) == a;
    NextIsSeen(prog, w1, seen1, n);
    NextIsSeen(prog, w2, seen2, n);
    var s, t := Execute(prog, w1, seen1, n).1, Execute(prog, w2, seen2, n).1;
    assert View(s[|seen1|], errnos) == View(t[|seen1|], errnos);
    StepAlongside(fs1, fs2, w1, w2, r, a);
    SeenMore(seen1, seen2, Perform(w1, a).1, Perform(w2, a).1, errnos);
  }

  // ------------------------------------------------------------------------------------------
  // A step that is not recorded well enough sees something else somewhere.
  // ------------------------------------------------------------------------------------------

  ghost predicate SeesSame(fs2: FileSystem, w1: World, r: Recorder, a: Action, errnos: bool)
    requires !a.Exit?
  {
    exists w2 :: Alongside(fs2, w1, w2, r) && View(Perform(w1, a).1, errnos) == View(Perform(w2, a).1, errnos)
  }

  /** The step sees something else in a file system that matches the final record. */
  ghost predicate DiffersSomewhere(w1: World, r: Recorder, a: Action, final: Recorder, errnos: bool)
    requires !a.Exit?
  {
    exists fs2 :: Candidate(fs2, final) && !SeesSame(fs2, w1, r, a, errnos)
  }

  /** A world of a run in `fs1` with the record so far and at the end. */
  ghost predicate OnTheWay(fs1: FileSystem, w1: World, r: Recorder, final: Recorder) {
    Follows(fs1, w1, r) && Proper(final) && Matches(fs1, final) && Written(r) <= Written(final)
  }

  /** An existence that is forgotten. */
  lemma ForgottenDiffers(fs1: FileSystem, w1: World, r: Recorder, a: Action, final: Recorder, errnos: bool)
    requires !a.Exit? && OnTheWay(fs1, w1, r, final) && ForgetsExistence(r, w1, a) && !SureExists(final, a.path)
    ensures DiffersSomewhere(w1, r, a, final, errnos)
  {
    var fs2 := Replaced(fs1, a.path, a.path, Absent);
    MayBeMissing(fs1, final, a.path);
    assert !SeesSame(fs2, w1, r, a, errnos);
  }

  lemma FileIsUnlinked(fs2: FileSystem, w1: World, r: Recorder, a: Action, errnos: bool)
    requires a.Unlink? && a.path !in Written(r) && NodeAt(fs2, a.path).File? && Perform(w1, a).1 != Done
    ensures !SeesSame(fs2, w1, r, a, errnos)
  {
  }

  /** A directory that could not be unlinked. */
  lemma DirectoryDiffers(fs1: FileSystem, w1: World, r: Recorder, a: Action, final: Recorder, errnos: bool)
    requires !a.Exit? && OnTheWay(fs1, w1, r, final)
    requires a.Unlink? && Perform(w1, a).1 == IsADirectory && !SureDirectory(final, a.path)
    ensures DiffersSomewhere(w1, r, a, final, errnos)
  {
    MayBeFile(fs1, final, a.path);
    FileIsUnlinked(Replaced(fs1, a.path, a.path, EMPTY), w1, r, a, errnos);
  }

  lemma {:induction false} FileOnTheWay(fs: FileSystem, p: Path) returns (x: Path)
    requires BelowFile(fs, p)
    ensures x < p && NodeAt(fs, x).File?
    decreases |p|
  {
    if NodeAt(fs, Parent(p)).File? { return Parent(p); }
    x := FileOnTheWay(fs, Parent(p));
  }

  /** What may be a directory was not written. */
  lemma WrittenIsNoDirectory(r: Recorder, x: Path)
    requires Proper(r) && x in Written(r)
    ensures NoDirectory(TypeOf(r, x))
  {
    assert ProperUsage(r.usages[x]);
  }

  lemma UnwrittenBelowFile(fs1: FileSystem, w1: World, r: Recorder, x: Path, p: Path)
    requires Follows(fs1, w1, r) && NodeAt(w1.fs, x).File? && x < p
    ensures p !in Written(r)
  {
    if NodeAt(w1.fs, Parent(p)).Directory? && x != Parent(p) { AncestorIsDirectory(w1.fs, x, Parent(p)); }
  }

  /** A path below a file that could not be unlinked. */
  lemma UnlinkBelowFileDiffers(fs1: FileSystem, w1: World, r: Recorder, a: Action, final: Recorder, errnos: bool)
    requires !a.Exit? && OnTheWay(fs1, w1, r, final)
    requires a.Unlink? && Perform(w1, a).1 == NotDirectory && !SureMissing(final, Written(r), w1.fs, a.path)
    ensures DiffersSomewhere(w1, r, a, final, errnos)
  {
    var p := a.path;
    MissingIsSeen(w1, a);
    var x := FileOnTheWay(w1.fs, p);
    assert !NoDirectory(TypeOf(final, x));
    assert x !in Written(r) by {
      if x in Written(r) { WrittenIsNoDirectory(final, x); }
    }
    UnwrittenBelowFile(fs1, w1, r, x, p);
    MayBeReached(fs1, final, x, p);
    FileIsUnlinked(Replaced(fs1, x, p, EMPTY), w1, r, a, errnos);
  }

  lemma OtherErrno(fs2: FileSystem, w1: World, r: Recorder, a: Action)
    requires !a.Exit? && Blurred(Perform(w1, a).1) == NoEntry
    requires forall w2 :: Alongside(fs2, w1, w2, r) ==> (BelowFile(w2.fs, a.path) <==> Perform(w1, a).1 == NoEntry)
    ensures !SeesSame(fs2, w1, r, a, true)
  {
    forall w2 | Alongside(fs2, w1, w2, r) ensures Perform(w1, a).1 != Perform(w2, a).1 {
      if Blurred(Perform(w2, a).1) == NoEntry { MissingIsSeen(w2, a); }
    }
  }

  /** ENOTDIR that is not sure. */
  lemma NotDirectoryDiffers(fs1: FileSystem, w1: World, r: Recorder, a: Action, final: Recorder)
    requires !a.Exit? && OnTheWay(fs1, w1, r, final)
    requires Perform(w1, a).1 == NotDirectory && !SureBelowFile(final, Written(r), w1.fs, a.path)
    ensures DiffersSomewhere(w1, r, a, final, true)
  {
    MissingIsSeen(w1, a);
    var x := FileOnTheWay(w1.fs, a.path);
    assert !SureFile(final, Written(r), w1.fs, x);
    MayBeNoFile(fs1, final, x);
    var n := if TypeOf(final, x) == Exist then Directory else Absent;
    var fs2 := Replaced(fs1, x, x, n);
    forall w2 | Alongside(fs2, w1, w2, r) ensures !BelowFile(w2.fs, a.path) {
      NoFileIsLeft(fs1, fs2, w1, w2, r, x, n, a.path);
    }
    OtherErrno(fs2, w1, r, a);
  }

  lemma NoFileIsLeft(fs1: FileSystem, fs2: FileSystem, w1: World, w2: World, r: Recorder, x: Path, n: Node, p: Path)
    requires Follows(fs1, w1, r) && Alongside(fs2, w1, w2, r) && x !in Written(r)
    requires NodeAt(fs1, x).File? && !n.File? && x < p
    requires forall q :: NodeAt(fs2, q) == if q == x then n else NodeAt(fs1, q)
    ensures !BelowFile(w2.fs, p)
  {
    if n.Absent? {
      assert NodeAt(fs1, Parent(x)).Directory?;
      assert p[..|Parent(x)| + 1] == x;
      MissingBelowDirectory(w2.fs, Parent(x), p);
    } else {
      var z := p[..|x| + 1];
      UnwrittenBelowFile(fs1, w1, r, x, z);
      FileAbove(fs1, x, z);
      MissingBelowDirectory(w2.fs, x, p);
    }
  }

  /** The last directory on the way to a path that is missing, but not below a file. */
  lemma {:induction false} LastDirectory(fs: FileSystem, p: Path) returns (y: Path)
    requires NodeAt(fs, p).Absent? && !BelowFile(fs, p)
    ensures y < p && NodeAt(fs, y).Directory? && (|y| + 1 == |p| || NodeAt(fs, p[..|y| + 1]).Absent?)
    decreases |p|
  {
    if NodeAt(fs, Parent(p)).Directory? { return Parent(p); }
    y := LastDirectory(fs, Parent(p));
    assert p[..|y| + 1] == Parent(p)[..|y| + 1];
  }

  /** A file may turn up on the way to a path that is missing. */
  lemma FileMayTurnUp(fs1: FileSystem, w1: World, r: Recorder, p: Path, final: Recorder)
    returns (x: Path, fs2: FileSystem)
    requires OnTheWay(fs1, w1, r, final) && NodeAt(w1.fs, p).Absent? && !BelowFile(w1.fs, p)
    requires !SureNotBelowFile(final, Written(r), w1.fs, p)
    ensures x < p && x !in Written(r) && Candidate(fs2, final) && NodeAt(fs2, x) == EMPTY
  {
    var y := LastDirectory(w1.fs, p);
    if SureDirectory(final, y) {
      x := p[..|y| + 1];
      assert Parent(x) == y && !SureGone(final, Written(r), w1.fs, x);
      MayAppear(fs1, final, x);
    } else {
      x := y;
      MayBeFile(fs1, final, x);
    }
    fs2 := Replaced(fs1, x, x, EMPTY);
  }

  lemma MissingIsAbsent(w: World, a: Action)
    requires !a.Exit? && Perform(w, a).1 == NoEntry
    ensures NodeAt(w.fs, a.path).Absent?
  {
  }

  /** ENOENT that is not sure. */
  lemma NoEntryDiffers(fs1: FileSystem, w1: World, r: Recorder, a: Action, final: Recorder)
    requires !a.Exit? && OnTheWay(fs1, w1, r, final)
    requires Perform(w1, a).1 == NoEntry && !SureNotBelowFile(final, Written(r), w1.fs, a.path)
    ensures DiffersSomewhere(w1, r, a, final, true)
  {
    MissingIsSeen(w1, a);
    MissingIsAbsent(w1, a);
    var x, fs2 := FileMayTurnUp(fs1, w1, r, a.path, final);
    forall w2 | Alongside(fs2, w1, w2, r) ensures BelowFile(w2.fs, a.path) {
      FileAbove(w2.fs, x, a.path);
    }
    OtherErrno(fs2, w1, r, a);
  }

  lemma StepDiffers(fs1: FileSystem, w1: World, r: Recorder, a: Action, final: Recorder, errnos: bool)
    requires !a.Exit? && OnTheWay(fs1, w1, r, final) && !WellRecorded(r, w1, a, final, errnos)
    ensures DiffersSomewhere(w1, r, a, final, errnos)
  {
    var o := Perform(w1, a).1;
    if ForgetsExistence(r, w1, a) && !SureExists(final, a.path) {
      ForgottenDiffers(fs1, w1, r, a, final, errnos);
    } else if a.Unlink? && o == IsADirectory && !SureDirectory(final, a.path) {
      DirectoryDiffers(fs1, w1, r, a, final, errnos);
    } else if a.Unlink? && o == NotDirectory && !SureMissing(final, Written(r), w1.fs, a.path) {
      UnlinkBelowFileDiffers(fs1, w1, r, a, final, errnos);
    } else if o == NotDirectory {
      NotDirectoryDiffers(fs1, w1, r, a, final);
    } else {
      NoEntryDiffers(fs1, w1, r, a, final);
    }
  }

  // ------------------------------------------------------------------------------------------
  // Runs.
  // ------------------------------------------------------------------------------------------

  lemma {:induction false} RunFollows(prog: Program, fs1: FileSystem, w: World, seen: seq<Observation>, r: Recorder,
                                      n: nat, final: Recorder)
    requires Follows(fs1, w, r) && Record(prog, w, seen, r, n) == Some(final)
    ensures OnTheWay(fs1, w, r, final)
    decreases n
  {
    if n > 0 && !prog(seen).Exit? {
      var a := prog(seen);
      var (w', o) := Perform(w, a);
      RegisteredMeets(fs1, w, r, a, fs1);
      StepFollows(fs1, w, r, a);
      RunFollows(prog, fs1, w', seen + [o], RecordStep(r, w, a).value, n - 1, final);
    }
  }

  ghost predicate RepeatsEverywhere(prog: Program, w1: World, seen1: seq<Observation>, r: Recorder, n: nat,
                                    final: Recorder, errnos: bool) {
    forall fs2 :: Candidate(fs2, final) ==> Repeats(prog, w1, seen1, r, n, errnos, fs2)
  }

  lemma NextRepeats(prog: Program, fs1: FileSystem, w1: World, seen1: seq<Observation>, r: Recorder, n: nat,
                    errnos: bool, fs2: FileSystem)
    requires Follows(fs1, w1, r) && Depends(prog, errnos) && n > 0 && !prog(seen1).Exit?
    requires RecordStep(r, w1, prog(seen1)).Some? && Repeats(prog, w1, seen1, r, n, errnos, fs2)
    ensures var a := prog(seen1);
      var (w1', o1) := Perform(w1, a);
      && SeesSame(fs2, w1, r, a, errnos)
      && Repeats(prog, w1', seen1 + [o1], RecordStep(r, w1, a).value, n - 1, errnos, fs2)
  {
    var w2, seen2 :| Continues(prog, w1, seen1, r, n, errnos, fs2, w2, seen2);
    StepContinues(prog, fs1, w1, seen1, r, n, errnos, fs2, w2, seen2);
  }

  lemma NextRepeatsEverywhere(prog: Program, fs1: FileSystem, w1: World, seen1: seq<Observation>, r: Recorder, n: nat,
                              final: Recorder, errnos: bool)
    requires OnTheWay(fs1, w1, r, final) && Depends(prog, errnos) && n > 0 && !prog(seen1).Exit?
    requires RecordStep(r, w1, prog(seen1)).Some? && RepeatsEverywhere(prog, w1, seen1, r, n, final, errnos)
    ensures WellRecorded(r, w1, prog(seen1), final, errnos)
    ensures var a := prog(seen1);
      RepeatsEverywhere(prog, Perform(w1, a).0, seen1 + [Perform(w1, a).1], RecordStep(r, w1, a).value, n - 1, final,
        errnos)
  {
    forall fs2 | Candidate(fs2, final)
      ensures SeesSame(fs2, w1, r, prog(seen1), errnos)
      ensures Repeats(prog, Perform(w1, prog(seen1)).0, seen1 + [Perform(w1, prog(seen1)).1],
                      RecordStep(r, w1, prog(seen1)).value, n - 1, errnos, fs2)
    {
      NextRepeats(prog, fs1, w1, seen1, r, n, errnos, fs2);
    }
    if !WellRecorded(r, w1, prog(seen1), final, errnos) { StepDiffers(fs1, w1, r, prog(seen1), final, errnos); }
  }

  /** A run that is repeated everywhere is recorded well enough. */
  lemma {:induction false} RepeatedIsWellRecorded(prog: Program, fs1: FileSystem, w1: World, seen1: seq<Observation>,
                                                  r: Recorder, n: nat, final: Recorder, errnos: bool)
    requires Follows(fs1, w1, r) && Depends(prog, errnos) && Record(prog, w1, seen1, r, n) == Some(final)
    requires RepeatsEverywhere(prog, w1, seen1, r, n, final, errnos)
    ensures AllWellRecorded(prog, w1, seen1, r, n, final, errnos)
    decreases n
  {
    if n > 0 && !prog(seen1).Exit? {
      var a := prog(seen1);
      var w1', o1, r' := Perform(w1, a).0, Perform(w1, a).1, RecordStep(r, w1, a).value;
      RunFollows(prog, fs1, w1, seen1, r, n, final);
      NextRepeatsEverywhere(prog, fs1, w1, seen1, r, n, final, errnos);
      StepFollows(fs1, w1, r, a);
      RepeatedIsWellRecorded(prog, fs1, w1', seen1 + [o1], r', n - 1, final, errnos);
    }
  }

  /** The run sees the same in `fs2`. */
  ghost predicate RepeatedIn(prog: Program, fs1: FileSystem, fs2: FileSystem, n: nat, errnos: bool) {
    SameSeen(Execute(prog, World(fs1, {}), [], n).1, Execute(prog, World(fs2, {}), [], n).1, errnos)
  }

  lemma RepeatedEverywhereIsWellRecorded(prog: Program, fs1: FileSystem, generations: map<Path, nat>, n: nat,
                                         final: Recorder, errnos: bool)
    requires WellFormed(fs1) && Depends(prog, errnos)
    requires Record(prog, World(fs1, {}), [], Recorder(map[], generations), n) == Some(final)
    requires forall fs2 :: Candidate(fs2, final) ==> RepeatedIn(prog, fs1, fs2, n, errnos)
    ensures AllWellRecorded(prog, World(fs1, {}), [], Recorder(map[], generations), n, final, errnos)
  {
    var w1, r := World(fs1, {}), Recorder(map[], generations);
    forall fs2 | Candidate(fs2, final) ensures Repeats(prog, w1, [], r, n, errnos, fs2) {
      assert Continues(prog, w1, [], r, n, errnos, fs2, World(fs2, {}), []);
    }
    RepeatedIsWellRecorded(prog, fs1, w1, [], r, n, final, errnos);
  }

  /** The main result: a recorded run is repeated, with what replaying it leaves, in every file system
      that its stored inputs match, if and only if each of its steps is recorded well enough.  Without
      `errnos`, ENOENT is not told from ENOTDIR, neither by the program nor in what is compared. */
  lemma ReplayIsSoundIff(prog: Program, fs1: FileSystem, generations: map<Path, nat>, n: nat, final: Recorder,
                         errnos: bool)
    requires WellFormed(fs1) && Depends(prog, errnos)
    requires Record(prog, World(fs1, {}), [], Recorder(map[], generations), n) == Some(final)
    ensures var s := StoredBy(final.usages, Execute(prog, World(fs1, {}), [], n).0.fs);
      (forall fs2 :: WellFormed(fs2) && InputsMatch(s, fs2) ==> Sound(prog, fs1, fs2, n, final, errnos))
      <==> AllWellRecorded(prog, World(fs1, {}), [], Recorder(map[], generations), n, final, errnos)
  {
    var end := Execute(prog, World(fs1, {}), [], n).0.fs;
    var s := StoredBy(final.usages, end);
    if AllWellRecorded(prog, World(fs1, {}), [], Recorder(map[], generations), n, final, errnos) {
      forall fs2 | WellFormed(fs2) && InputsMatch(s, fs2) ensures Sound(prog, fs1, fs2, n, final, errnos) {
        ReplayIsSound(prog, fs1, fs2, generations, n, final, errnos);
      }
    }
    if forall fs2 :: WellFormed(fs2) && InputsMatch(s, fs2) ==> Sound(prog, fs1, fs2, n, final, errnos) {
      forall fs2 | Candidate(fs2, final) ensures RepeatedIn(prog, fs1, fs2, n, errnos) {
        InputsMatchIff(final, end, fs2);
        assert Sound(prog, fs1, fs2, n, final, errnos);
      }
      RepeatedEverywhereIsWellRecorded(prog, fs1, generations, n, final, errnos);
    }
  }

  /** With the two errors told apart there is no condition on the program. */
  lemma EveryReplayIsSoundIff(prog: Program, fs1: FileSystem, generations: map<Path, nat>, n: nat, final: Recorder)
    requires WellFormed(fs1)
    requires Record(prog, World(fs1, {}), [], Recorder(map[], generations), n) == Some(final)
    ensures var s := StoredBy(final.usages, Execute(prog, World(fs1, {}), [], n).0.fs);
      (forall fs2 :: WellFormed(fs2) && InputsMatch(s, fs2) ==> Sound(prog, fs1, fs2, n, final, true))
      <==> AllWellRecorded(prog, World(fs1, {}), [], Recorder(map[], generations), n, final, true)
  {
    SeesAll(prog);
    ReplayIsSoundIff(prog, fs1, generations, n, final, true);
  }

  // ------------------------------------------------------------------------------------------
  // Runs that are not recorded well enough.
  // ------------------------------------------------------------------------------------------

  const F: Path := ["f"]
  const G: Path := ["f", "g"]
  const EMPTY_FS: FileSystem := map[]
  const WITH_F: FileSystem := map[F := EMPTY]
  const WITH_DIRECTORY: FileSystem := map[F := Directory]
  const NEW := Recorder(map[], map[])
  const F_WRITTEN_BEFORE := Recorder(map[], map[F := 1])
  const TRUNCATE := Open(F, ForWriting(true, false, true))

  function CheckThenTruncate(seen: seq<Observation>): Action {
    if |seen| == 0 then Access(F) else if |seen| == 1 then TRUNCATE else Exit
  }

  /** One action, then the end. */
  function Only(a: Action): Program {
    (seen: seq<Observation>) => if |seen| == 0 then a else Exit
  }

  lemma CheckIsRecorded()
    ensures var r := RecordStep(F_WRITTEN_BEFORE, World(WITH_F, {}), Access(F));
      && r.Some? && r.value.usages.Keys == {F} && r.value.generations == map[F := 1]
      && var fu := r.value.usages[F];
         fu.initial == OnlyType(Exist) && !fu.written && fu.generation == 1
  {
  }

  lemma TruncationForgets(r: Recorder)
    requires r.usages.Keys == {F} && r.generations == map[F := 1]
    requires var fu := r.usages[F]; fu.initial == OnlyType(Exist) && !fu.written && fu.generation == 1
    ensures var r' := RecordStep(r, World(WITH_F, {}), TRUNCATE);
      && r'.Some? && r'.value.usages.Keys == {F} && r'.value.usages[F].initial.fileType == NotExistOrIsReg
  {
    var marked := NewGeneration(r, F);
    assert marked.Some? && marked.value.usages[F].initial.fileType == DontKnow;
    assert Perform(World(WITH_F, {}), TRUNCATE).1 == Opened([]);
  }

  lemma CheckThenTruncateIsRecorded()
    ensures var r := Record(CheckThenTruncate, World(WITH_F, {}), [], F_WRITTEN_BEFORE, 2);
      r.Some? && r.value.usages.Keys == {F} && r.value.usages[F].initial.fileType == NotExistOrIsReg
  {
    CheckIsRecorded();
    var r1 := RecordStep(F_WRITTEN_BEFORE, World(WITH_F, {}), Access(F)).value;
    TruncationForgets(r1);
    assert [] + [Done] == [Done];
    assert Record(CheckThenTruncate, World(WITH_F, {}), [Done], r1, 1).Some?;
  }

  lemma SeenDiffers(s: seq<Observation>, t: seq<Observation>, errnos: bool)
    requires |s| > 0 && |t| > 0 && View(s[0], errnos) != View(t[0], errnos)
    ensures !SameSeen(s, t, errnos)
  {
  }

  /** A process that checks for a file which had been written before, then truncates it: opening the
      new generation registers an update that knows nothing, and the check is forgotten.  The stored
      inputs match a file system without the file, where the process sees something else. */
  lemma ForgottenCheckIsUnsound()
    ensures var r := Record(CheckThenTruncate, World(WITH_F, {}), [], F_WRITTEN_BEFORE, 2);
      && WellFormed(WITH_F) && r.Some? && Candidate(EMPTY_FS, r.value)
      && !RepeatedIn(CheckThenTruncate, WITH_F, EMPTY_FS, 2, false)
  {
    CheckThenTruncateIsRecorded();
    assert FirstSeen(World(WITH_F, {})) == Done && FirstSeen(World(EMPTY_FS, {})) == NoEntry;
    SeenFirst(World(WITH_F, {}));
    SeenFirst(World(EMPTY_FS, {}));
    SeenDiffers(Execute(CheckThenTruncate, World(WITH_F, {}), [], 2).1,
                Execute(CheckThenTruncate, World(EMPTY_FS, {}), [], 2).1, false);
  }

  function FirstSeen(w: World): Observation {
    Perform(w, Access(F)).1
  }

  lemma SeenFirst(w: World)
    ensures var seen := Execute(CheckThenTruncate, w, [], 2).1; |seen| == 2 && seen[0] == FirstSeen(w)
  {
    var o := FirstSeen(w);
    assert [] + [o] == [o];
    assert Execute(CheckThenTruncate, w, [], 2) == Execute(CheckThenTruncate, w, [o], 1);
  }

  lemma OnlySees(w: World, a: Action, r: Recorder)
    requires !a.Exit?
    ensures Execute(Only(a), w, [], 1).1 == [Perform(w, a).1]
    ensures Record(Only(a), w, [], r, 1) == RecordStep(r, w, a)
  {
    var o := Perform(w, a).1;
    assert [] + [o] == [o];
  }

  /** A failed unlink is registered only if the path does not exist: the failure on a directory is
      forgotten. */
  lemma FailedUnlinkIsUnsound()
    ensures var r := Record(Only(Unlink(F)), World(WITH_DIRECTORY, {}), [], NEW, 1);
      && WellFormed(WITH_DIRECTORY) && r.Some? && Candidate(EMPTY_FS, r.value)
      && !RepeatedIn(Only(Unlink(F)), WITH_DIRECTORY, EMPTY_FS, 1, false)
  {
    OnlySees(World(WITH_DIRECTORY, {}), Unlink(F), NEW);
    OnlySees(World(EMPTY_FS, {}), Unlink(F), NEW);
    SeenDiffers([IsADirectory], [NoEntry], false);
  }

  /** The record of a missing path does not tell ENOENT from ENOTDIR. */
  lemma ErrnoIsNotRecorded()
    ensures var r := Record(Only(Access(G)), World(EMPTY_FS, {}), [], NEW, 1);
      && WellFormed(EMPTY_FS) && r.Some? && Candidate(WITH_F, r.value)
      && RepeatedIn(Only(Access(G)), EMPTY_FS, WITH_F, 1, false)
      && !RepeatedIn(Only(Access(G)), EMPTY_FS, WITH_F, 1, true)
  {
    assert Parent(G) == F && Parent(F) == [];
    assert MissingError(EMPTY_FS, G) == NoEntry && MissingError(WITH_F, G) == NotDirectory;
    OnlySees(World(EMPTY_FS, {}), Access(G), NEW);
    OnlySees(World(WITH_F, {}), Access(G), NEW);
    SeenDiffers([NoEntry], [NotDirectory], true);
  }
}
