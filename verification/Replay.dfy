/** Replaying a record.

    When the inputs of a recorded run match another file system, is the run repeated there?  The
    record says for sure what holds in every file system that matches it; the run is repeated
    everywhere exactly when this covers the steps that are not registered. */
module Replay {
  import opened Options
  import opened FileUsages
  import opened Recording

  // ------------------------------------------------------------------------------------------
  // Paths.
  // ------------------------------------------------------------------------------------------

  lemma {:induction false} AncestorIsDirectory(fs: FileSystem, x: Path, y: Path)
    requires WellFormed(fs) && x < y && !NodeAt(fs, y).Absent?
    ensures NodeAt(fs, x).Directory?
    decreases |y|
  {
    if Parent(y) != x { AncestorIsDirectory(fs, x, Parent(y)); }
  }

  lemma {:induction false} FileAbove(fs: FileSystem, y: Path, p: Path)
    requires WellFormed(fs) && y < p && NodeAt(fs, y).File?
    ensures BelowFile(fs, p) && NodeAt(fs, p).Absent?
    decreases |p|
  {
    if Parent(p) != y { FileAbove(fs, y, Parent(p)); }
  }

  lemma {:induction false} NoFileAbove(fs: FileSystem, p: Path)
    requires forall y :: y < p ==> !NodeAt(fs, y).File?
    ensures !BelowFile(fs, p)
    decreases |p|
  {
    if p != [] {
      forall y | y < Parent(p) ensures !NodeAt(fs, y).File? { assert y < p; }
      NoFileAbove(fs, Parent(p));
    }
  }

  lemma Prefixes(p: Path, x: Path, y: Path)
    requires x < p && y < p && |x| < |y|
    ensures x < y
  {
    assert x == p[..|x|] && y == p[..|y|];
  }

  /** A directory whose entry on the way to the path is missing: there is no file on the way. */
  lemma MissingBelowDirectory(fs: FileSystem, y: Path, p: Path)
    requires WellFormed(fs) && y < p && NodeAt(fs, y).Directory?
    requires |y| + 1 == |p| || NodeAt(fs, p[..|y| + 1]).Absent?
    ensures !BelowFile(fs, p)
  {
    forall q | q < p ensures !NodeAt(fs, q).File? {
      var z := p[..|y| + 1];
      if |q| < |y| {
        Prefixes(p, q, y);
        AncestorIsDirectory(fs, q, y);
      } else if |q| == |y| {
        assert q == y;
      } else if |q| == |z| {
        assert q == z;
      } else {
        Prefixes(p, z, q);
        if !NodeAt(fs, q).Absent? { AncestorIsDirectory(fs, z, q); }
      }
    }
    NoFileAbove(fs, p);
  }

  // ------------------------------------------------------------------------------------------
  // What the record tells for sure.
  // ------------------------------------------------------------------------------------------

  predicate TellsExistence(t: FileType) {
    t == Exist || t == IsReg || t == IsDir
  }

  predicate NoDirectory(t: FileType) {
    t == NotExist || t == NotExistOrIsReg || t == IsReg
  }

  /** There is a directory: the record says so, or something below is recorded to exist. */
  ghost predicate SureDirectory(r: Recorder, x: Path) {
    x == [] || TypeOf(r, x) == IsDir || exists y :: y in r.usages && x < y && TellsExistence(TypeOf(r, y))
  }

  ghost predicate SureExists(r: Recorder, x: Path) {
    TellsExistence(TypeOf(r, x)) || SureDirectory(r, x)
  }

  /** What is there after the process has written `written`: in `fs`, a world of the recorded run. */
  predicate SureFile(r: Recorder, written: set<Path>, fs: FileSystem, x: Path) {
    if x in written then NodeAt(fs, x).File? else TypeOf(r, x) == IsReg
  }

  predicate SureGone(r: Recorder, written: set<Path>, fs: FileSystem, x: Path) {
    if x in written then NodeAt(fs, x).Absent? else TypeOf(r, x) == NotExist
  }

  /** Looking the path up ends in ENOTDIR, ... */
  ghost predicate SureBelowFile(r: Recorder, written: set<Path>, fs: FileSystem, p: Path) {
    exists y :: y < p && SureFile(r, written, fs, y)
  }

  /** ... or does not: there is a directory on the way, and the next component is the last one or missing. */
  ghost predicate SureNotBelowFile(r: Recorder, written: set<Path>, fs: FileSystem, p: Path) {
    exists y :: y < p && SureDirectory(r, y) && (|y| + 1 == |p| || SureGone(r, written, fs, p[..|y| + 1]))
  }

  /** There is nothing: it is missing itself, or something on the way is no directory. */
  ghost predicate SureMissing(r: Recorder, written: set<Path>, fs: FileSystem, p: Path) {
    SureGone(r, written, fs, p) || exists y :: y < p && NoDirectory(TypeOf(r, y))
  }

  /** A file system that the record matches. */
  ghost predicate Candidate(fs: FileSystem, r: Recorder) {
    WellFormed(fs) && Matches(fs, r)
  }

  lemma SureDirectoryIs(fs: FileSystem, r: Recorder, x: Path)
    requires Candidate(fs, r) && SureDirectory(r, x)
    ensures NodeAt(fs, x).Directory?
  {
    UsageMatches(fs, r, x);
    if x != [] && TypeOf(r, x) != IsDir {
      var y :| y in r.usages && x < y && TellsExistence(TypeOf(r, y));
      UsageMatches(fs, r, y);
      AncestorIsDirectory(fs, x, y);
    }
  }

  lemma SureExistsIs(fs: FileSystem, r: Recorder, x: Path)
    requires Candidate(fs, r) && SureExists(r, x)
    ensures !NodeAt(fs, x).Absent?
  {
    UsageMatches(fs, r, x);
    if SureDirectory(r, x) { SureDirectoryIs(fs, r, x); }
  }

  /** A world of a run in `fs2` in which the written paths are as in `fs`. */
  ghost predicate Replays(fs: FileSystem, written: set<Path>, fs2: FileSystem, w2: World) {
    Overlays(fs2, w2, written) && forall p :: p in written ==> NodeAt(w2.fs, p) == NodeAt(fs, p)
  }

  lemma SureFileIs(r: Recorder, written: set<Path>, fs: FileSystem, fs2: FileSystem, w2: World, x: Path)
    requires Replays(fs, written, fs2, w2) && Matches(fs2, r)
    ensures SureFile(r, written, fs, x) ==> NodeAt(w2.fs, x).File?
    ensures SureGone(r, written, fs, x) ==> NodeAt(w2.fs, x).Absent?
    ensures NoDirectory(TypeOf(r, x)) ==> !NodeAt(w2.fs, x).Directory?
  {
    UsageMatches(fs2, r, x);
  }

  lemma SureBelowFileIs(r: Recorder, written: set<Path>, fs: FileSystem, fs2: FileSystem, w2: World, p: Path)
    requires Replays(fs, written, fs2, w2) && Matches(fs2, r) && SureBelowFile(r, written, fs, p)
    ensures BelowFile(w2.fs, p)
  {
    var y :| y < p && SureFile(r, written, fs, y);
    SureFileIs(r, written, fs, fs2, w2, y);
    FileAbove(w2.fs, y, p);
  }

  lemma SureNotBelowFileIs(r: Recorder, written: set<Path>, fs: FileSystem, fs2: FileSystem, w2: World, p: Path)
    requires Replays(fs, written, fs2, w2) && Matches(fs2, r) && SureNotBelowFile(r, written, fs, p)
    ensures !BelowFile(w2.fs, p)
  {
    var y :| y < p && SureDirectory(r, y) && (|y| + 1 == |p| || SureGone(r, written, fs, p[..|y| + 1]));
    SureDirectoryIs(fs2, r, y);
    SureFileIs(r, written, fs, fs2, w2, p[..|y| + 1]);
    MissingBelowDirectory(w2.fs, y, p);
  }

  lemma SureMissingIs(r: Recorder, written: set<Path>, fs: FileSystem, fs2: FileSystem, w2: World, p: Path)
    requires Replays(fs, written, fs2, w2) && Matches(fs2, r) && SureMissing(r, written, fs, p)
    ensures NodeAt(w2.fs, p).Absent?
  {
    SureFileIs(r, written, fs, fs2, w2, p);
    if !SureGone(r, written, fs, p) && !NodeAt(w2.fs, p).Absent? {
      var y :| y < p && NoDirectory(TypeOf(r, y));
      SureFileIs(r, written, fs, fs2, w2, y);
      AncestorIsDirectory(w2.fs, y, p);
    }
  }

  // ------------------------------------------------------------------------------------------
  // Which runs are recorded well enough.
  // ------------------------------------------------------------------------------------------

  /** What is compared of an observation: everything, or all but the difference between the two
      errors for a missing path. */
  function View(o: Observation, errnos: bool): Observation {
    if errnos then o else Blurred(o)
  }

  ghost predicate SameSeen(s: seq<Observation>, t: seq<Observation>, errnos: bool) {
    |s| == |t| && forall i :: 0 <= i < |s| ==> View(s[i], errnos) == View(t[i], errnos)
  }

  /** What the program does depends only on what is compared. */
  ghost predicate Depends(prog: Program, errnos: bool) {
    forall s, t :: SameSeen(s, t, errnos) ==> prog(s) == prog(t)
  }

  /** Every program depends on what it sees. */
  lemma SeesAll(prog: Program)
    ensures Depends(prog, true)
  {
    forall s, t | SameSeen(s, t, true) ensures prog(s) == prog(t) {
      forall i | 0 <= i < |s| ensures s[i] == t[i] { assert View(s[i], true) == View(t[i], true); }
      assert s == t;
    }
  }

  /** The step is recorded well enough, in view of the final record: existence that is forgotten is
      told otherwise, a failed unlink that is not registered fails for a reason that is recorded, and
      so is the reason why a path is missing, if that is compared. */
  ghost predicate WellRecorded(r: Recorder, w: World, a: Action, final: Recorder, errnos: bool)
    requires !a.Exit?
  {
    var o := Perform(w, a).1;
    && (ForgetsExistence(r, w, a) ==> SureExists(final, a.path))
    && (a.Unlink? && o == IsADirectory ==> SureDirectory(final, a.path))
    && (a.Unlink? && o == NotDirectory ==> SureMissing(final, Written(r), w.fs, a.path))
    && (errnos && o == NotDirectory ==> SureBelowFile(final, Written(r), w.fs, a.path))
    && (errnos && o == NoEntry ==> SureNotBelowFile(final, Written(r), w.fs, a.path))
  }

  ghost predicate AllWellRecorded(prog: Program, w: World, seen: seq<Observation>, r: Recorder, n: nat,
                                  final: Recorder, errnos: bool)
    requires Record(prog, w, seen, r, n).Some?
    decreases n
  {
    n == 0 || prog(seen).Exit? ||
    var a := prog(seen);
    var (w', o) := Perform(w, a);
    && WellRecorded(r, w, a, final, errnos)
    && AllWellRecorded(prog, w', seen + [o], RecordStep(r, w, a).value, n - 1, final, errnos)
  }

  /** What matches the final record matches the record at every step. */
  lemma {:induction false} RunMeets(prog: Program, fs1: FileSystem, w: World, seen: seq<Observation>, r: Recorder,
                                    n: nat, final: Recorder, errnos: bool, fs2: FileSystem)
    requires Follows(fs1, w, r) && Record(prog, w, seen, r, n) == Some(final)
    requires AllWellRecorded(prog, w, seen, r, n, final, errnos)
    requires Candidate(fs2, final)
    ensures Matches(fs2, r)
    decreases n
  {
    if n > 0 && !prog(seen).Exit? {
      var a := prog(seen);
      var (w', o) := Perform(w, a);
      var r' := RecordStep(r, w, a).value;
      StepFollows(fs1, w, r, a);
      RunMeets(prog, fs1, w', seen + [o], r', n - 1, final, errnos, fs2);
      if ForgetsExistence(r, w, a) { SureExistsIs(fs2, final, a.path); }
      StepMeets(fs1, w, r, a, fs2);
    }
  }

  // ------------------------------------------------------------------------------------------
  // Two runs side by side.
  // ------------------------------------------------------------------------------------------

  /** Runs that started in `fs1` and in `fs2`: the written paths agree, the others are as they were. */
  ghost predicate SideBySide(fs1: FileSystem, fs2: FileSystem, w1: World, w2: World, r: Recorder) {
    Follows(fs1, w1, r) && Matches(fs2, r) && Replays(w1.fs, Written(r), fs2, w2) && w2.writable == w1.writable
  }

  /** Everything that decides the action holds in the second world. */
  lemma StepIsRegistered(fs1: FileSystem, fs2: FileSystem, w1: World, w2: World, r: Recorder, a: Action,
                         final: Recorder, errnos: bool)
    requires SideBySide(fs1, fs2, w1, w2, r) && !a.Exit? && RecordStep(r, w1, a).Some?
    requires WellRecorded(r, w1, a, final, errnos) && Matches(fs2, final) && TrueIn(fs2, r, w1, a)
    ensures Registered(w1, w2, a, GenerationOf(Marked(r, w1, a).value, a.path))
  {
    if a.Unlink? && StepUpdate(r, w1, a).None? {
      if NodeAt(w1.fs, a.path).Directory? {
        SureDirectoryIs(fs2, final, a.path);
      } else {
        SureMissingIs(final, Written(r), w1.fs, fs2, w2, a.path);
      }
    }
  }

  lemma MissingIsSeen(w: World, a: Action)
    requires !a.Exit? && Blurred(Perform(w, a).1) == NoEntry
    ensures Perform(w, a).1 == MissingError(w.fs, a.path)
  {
  }

  /** The two errors for a missing path are the same in both worlds. */
  lemma ErrnoIsSame(fs1: FileSystem, fs2: FileSystem, w1: World, w2: World, r: Recorder, a: Action, final: Recorder)
    requires SideBySide(fs1, fs2, w1, w2, r) && !a.Exit?
    requires WellRecorded(r, w1, a, final, true) && Matches(fs2, final)
    requires Blurred(Perform(w2, a).1) == Blurred(Perform(w1, a).1)
    ensures Perform(w2, a).1 == Perform(w1, a).1
  {
    if Blurred(Perform(w1, a).1) == NoEntry {
      MissingIsSeen(w1, a);
      MissingIsSeen(w2, a);
      if BelowFile(w1.fs, a.path) {
        SureBelowFileIs(final, Written(r), w1.fs, fs2, w2, a.path);
      } else {
        SureNotBelowFileIs(final, Written(r), w1.fs, fs2, w2, a.path);
      }
    }
  }

  lemma StepStaysAlike(fs1: FileSystem, fs2: FileSystem, w1: World, w2: World, r: Recorder, a: Action, final: Recorder,
                       errnos: bool)
    requires SideBySide(fs1, fs2, w1, w2, r) && !a.Exit? && RecordStep(r, w1, a).Some?
    requires WellRecorded(r, w1, a, final, errnos) && Matches(fs2, final)
    requires Matches(fs2, RecordStep(r, w1, a).value)
    ensures SideBySide(fs1, fs2, Perform(w1, a).0, Perform(w2, a).0, RecordStep(r, w1, a).value)
    ensures View(Perform(w2, a).1, errnos) == View(Perform(w1, a).1, errnos)
  {
    var g := GenerationOf(Marked(r, w1, a).value, a.path);
    RegisteredMeets(fs1, w1, r, a, fs2);
    StepFollows(fs1, w1, r, a);
    StepIsRegistered(fs1, fs2, w1, w2, r, a, final, errnos);
    ActionIsDetermined(w1, w2, a, g);
    if errnos { ErrnoIsSame(fs1, fs2, w1, w2, r, a, final); }
    ActionOverlays(fs2, w2, a, Written(r));
    WrittenAgree(w1, w2, a, Written(r));
  }

  lemma WrittenAgree(w1: World, w2: World, a: Action, written: set<Path>)
    requires WellFormed(w1.fs) && WellFormed(w2.fs) && !a.Exit? && w1.writable == w2.writable <= written
    requires forall p :: p in written ==> NodeAt(w2.fs, p) == NodeAt(w1.fs, p)
    requires var (w1', o1), (w2', o2) := Perform(w1, a), Perform(w2, a);
      && Blurred(o2) == Blurred(o1)
      && (Wrote(a, o1) || (a.Write? && a.path in w1.writable) ==> NodeAt(w2'.fs, a.path) == NodeAt(w1'.fs, a.path))
    ensures var (w1', o1), (w2', o2) := Perform(w1, a), Perform(w2, a);
      forall p :: p in written || (Wrote(a, o1) && p == a.path) ==> NodeAt(w2'.fs, p) == NodeAt(w1'.fs, p)
  {
    ActionIsLocal(w1, a);
    ActionIsLocal(w2, a);
    ActionChanges(w1, a);
    ActionChanges(w2, a);
  }

  /** One more observation. */
  lemma SeenMore(s: seq<Observation>, t: seq<Observation>, o1: Observation, o2: Observation, errnos: bool)
    requires SameSeen(s, t, errnos) && View(o1, errnos) == View(o2, errnos)
    ensures SameSeen(s + [o1], t + [o2], errnos)
  {
  }

  lemma {:induction false} RunStaysAlike(prog: Program, fs1: FileSystem, fs2: FileSystem, w1: World, w2: World,
                                         seen1: seq<Observation>, seen2: seq<Observation>, r: Recorder, n: nat,
                                         final: Recorder, errnos: bool)
    requires SideBySide(fs1, fs2, w1, w2, r) && Depends(prog, errnos) && SameSeen(seen1, seen2, errnos)
    requires Record(prog, w1, seen1, r, n) == Some(final) && Matches(fs2, final)
    requires AllWellRecorded(prog, w1, seen1, r, n, final, errnos)
    ensures var (w1', seen1'), (w2', seen2') := Execute(prog, w1, seen1, n), Execute(prog, w2, seen2, n);
      SideBySide(fs1, fs2, w1', w2', final) && SameSeen(seen1', seen2', errnos)
    decreases n
  {
    if n > 0 && !prog(seen1).Exit? {
      var a := prog(seen1);
      var (w1', o1) := Perform(w1, a);
      var (w2', o2) := Perform(w2, a);
      var r' := RecordStep(r, w1, a).value;
      StepFollows(fs1, w1, r, a);
      RunMeets(prog, fs1, w1', seen1 + [o1], r', n - 1, final, errnos, fs2);
      StepStaysAlike(fs1, fs2, w1, w2, r, a, final, errnos);
      SeenMore(seen1, seen2, o1, o2, errnos);
      RunStaysAlike(prog, fs1, fs2, w1', w2', seen1 + [o1], seen2 + [o2], r', n - 1, final, errnos);
    }
  }

  // ------------------------------------------------------------------------------------------
  // Storing and replaying.
  // ------------------------------------------------------------------------------------------

  /** A cache entry: the initial states that matter, and the final states of the written paths. */
  datatype Stored = Stored(inputs: map<Path, FileInfo>, files: map<Path, Content>, missing: set<Path>)

  function StoredBy(usages: map<Path, FileUsage>, fs: FileSystem): Stored {
    Stored(map p | p in usages && usages[p].initial.fileType != DontKnow :: usages[p].initial,
           map p | p in usages && usages[p].written && NodeAt(fs, p).File? :: NodeAt(fs, p).content,
           set p | p in usages && usages[p].written && NodeAt(fs, p).Absent? && usages[p].initial.fileType != NotExist)
  }

  /** Collect the inputs and outputs of a finished process from its usages. */
  method Store(usages: map<Path, FileUsage>, fs: FileSystem) returns (s: Stored)
    ensures s == StoredBy(usages, fs)
  {
    var inputs: map<Path, FileInfo>, todo := map[], usages.Keys;
    while todo != {}
      invariant todo <= usages.Keys
      invariant inputs == map p | p in usages && p !in todo && usages[p].initial.fileType != DontKnow ::
        usages[p].initial
      decreases todo
    {
      var p :| p in todo;
      todo := todo - {p};
      if usages[p].initial.fileType != DontKnow {
        inputs := inputs[p := usages[p].initial];
      }
    }
    var files, missing := StoreOutputs(usages, fs);
    s := Stored(inputs, files, missing);
  }

  method StoreOutputs(usages: map<Path, FileUsage>, fs: FileSystem)
    returns (files: map<Path, Content>, missing: set<Path>)
    ensures files == StoredBy(usages, fs).files && missing == StoredBy(usages, fs).missing
  {
    files, missing := map[], {};
    var todo := usages.Keys;
    while todo != {}
      invariant todo <= usages.Keys
      invariant files == map p | p in usages && p !in todo && usages[p].written && NodeAt(fs, p).File? ::
        NodeAt(fs, p).content
      invariant missing == set p | p in usages && p !in todo && usages[p].written && NodeAt(fs, p).Absent? &&
                                   usages[p].initial.fileType != NotExist
      decreases todo
    {
      var p :| p in todo;
      todo := todo - {p};
      if usages[p].written {
        if NodeAt(fs, p).File? {
          files := files[p := NodeAt(fs, p).content];
        } else if NodeAt(fs, p).Absent? && usages[p].initial.fileType != NotExist {
          missing := missing + {p};
        }
      }
    }
  }

  /** Every stored input is true of the file system. */
  ghost predicate InputsMatch(s: Stored, fs: FileSystem) {
    forall p :: p in s.inputs ==> InfoFits(EntryOf(NodeAt(fs, p)), s.inputs[p])
  }

  method PioMatchesFs(s: Stored, fs: FileSystem) returns (ok: bool)
    ensures ok <==> InputsMatch(s, fs)
  {
    var todo := s.inputs.Keys;
    while todo != {}
      invariant todo <= s.inputs.Keys
      invariant forall p :: p in s.inputs && p !in todo ==> InfoFits(EntryOf(NodeAt(fs, p)), s.inputs[p])
      decreases todo
    {
      var p :| p in todo;
      if !InfoFits(EntryOf(NodeAt(fs, p)), s.inputs[p]) {
        return false;
      }
      todo := todo - {p};
    }
    return true;
  }

  /** Every stored file can be created where it belongs. */
  ghost predicate CanApply(s: Stored, fs: FileSystem) {
    forall p :: p in s.files ==> IsFilePlace(fs, p)
  }

  function Applied(s: Stored, fs: FileSystem): FileSystem {
    map p | p in fs.Keys + s.files.Keys && (p in s.missing ==> NodeAt(fs, p).Directory?) ::
      if p in s.files then File(s.files[p]) else fs[p]
  }

  lemma InputsMatchIff(r: Recorder, fs: FileSystem, fs2: FileSystem)
    ensures InputsMatch(StoredBy(r.usages, fs), fs2) <==> Matches(fs2, r)
  {
    var s := StoredBy(r.usages, fs);
    if InputsMatch(s, fs2) {
      forall p | p in r.usages ensures InfoFits(EntryOf(NodeAt(fs2, p)), r.usages[p].initial) {
        assert r.usages[p].initial.fileType != DontKnow ==> p in s.inputs;
      }
    }
  }

  /** The second run wrote the same paths, and replaying the stored outputs of the first one succeeds and
      leaves the same types and contents as the second one. */
  ghost predicate SameEnd(fs1: FileSystem, fs2: FileSystem, w1: World, w2: World, final: Recorder) {
    var s := StoredBy(final.usages, w1.fs);
    && (forall p :: if p in Written(final) then NodeAt(w2.fs, p) == NodeAt(w1.fs, p)
                    else NodeAt(w1.fs, p) == NodeAt(fs1, p) && NodeAt(w2.fs, p) == NodeAt(fs2, p))
    && CanApply(s, fs2)
    && (forall p :: NodeAt(Applied(s, fs2), p) == NodeAt(w2.fs, p))
  }

  /** The run is repeated in `fs2`, and replaying it does what the run does. */
  ghost predicate Sound(prog: Program, fs1: FileSystem, fs2: FileSystem, n: nat, final: Recorder, errnos: bool) {
    var (w1, seen1), (w2, seen2) := Execute(prog, World(fs1, {}), [], n), Execute(prog, World(fs2, {}), [], n);
    SameSeen(seen1, seen2, errnos) && SameEnd(fs1, fs2, w1, w2, final)
  }

  /** If the stored inputs of a run that is recorded well enough match a second file system, then the
      run is repeated there. */
  lemma ReplayIsSound(prog: Program, fs1: FileSystem, fs2: FileSystem, generations: map<Path, nat>, n: nat,
                      final: Recorder, errnos: bool)
    requires WellFormed(fs1) && WellFormed(fs2) && Depends(prog, errnos)
    requires Record(prog, World(fs1, {}), [], Recorder(map[], generations), n) == Some(final)
    requires AllWellRecorded(prog, World(fs1, {}), [], Recorder(map[], generations), n, final, errnos)
    requires InputsMatch(StoredBy(final.usages, Execute(prog, World(fs1, {}), [], n).0.fs), fs2)
    ensures Sound(prog, fs1, fs2, n, final, errnos)
  {
    var w1, w2 := World(fs1, {}), World(fs2, {});
    InputsMatchIff(final, Execute(prog, w1, [], n).0.fs, fs2);
    RunStaysAlike(prog, fs1, fs2, w1, w2, [], [], Recorder(map[], generations), n, final, errnos);
    ReplayedNodes(fs1, fs2, Execute(prog, w1, [], n).0, Execute(prog, w2, [], n).0, final);
  }

  lemma ReplayedNodes(fs1: FileSystem, fs2: FileSystem, w1: World, w2: World, r: Recorder)
    requires SideBySide(fs1, fs2, w1, w2, r)
    ensures SameEnd(fs1, fs2, w1, w2, r)
  {
    var s := StoredBy(r.usages, w1.fs);
    forall p | p in s.files ensures IsFilePlace(fs2, p) {
      assert p in Written(r) && IsFilePlace(w2.fs, p);
    }
    forall p ensures NodeAt(Applied(s, fs2), p) == NodeAt(w2.fs, p) {
      ReplayedNode(fs1, fs2, w1, w2, r, p);
    }
  }

  lemma ReplayedNode(fs1: FileSystem, fs2: FileSystem, w1: World, w2: World, r: Recorder, p: Path)
    requires SideBySide(fs1, fs2, w1, w2, r)
    ensures NodeAt(Applied(StoredBy(r.usages, w1.fs), fs2), p) == NodeAt(w2.fs, p)
  {
    if p in Written(r) {
      assert NodeAt(w2.fs, p) == NodeAt(w1.fs, p) && IsFilePlace(w2.fs, p);
      assert InfoFits(EntryOf(NodeAt(fs2, p)), r.usages[p].initial) && ProperUsage(r.usages[p]);
    }
  }

  /** The file system with the stored files written, except those in `todo`. */
  function WithFiles(s: Stored, fs: FileSystem, todo: set<Path>): FileSystem {
    map p | p in fs.Keys + s.files.Keys && (p in fs || p !in todo) ::
      if p in s.files && p !in todo then File(s.files[p]) else fs[p]
  }

  /** Replay: write the stored files, then remove the paths that were left missing. */
  method ApplyShortcut(s: Stored, fs: FileSystem) returns (ok: bool, fs': FileSystem)
    ensures ok <==> CanApply(s, fs)
    ensures ok ==> fs' == Applied(s, fs)
  {
    fs' := fs;
    var todo := s.files.Keys;
    while todo != {}
      invariant todo <= s.files.Keys && fs' == WithFiles(s, fs, todo)
      invariant forall p :: p in s.files && p !in todo ==> IsFilePlace(fs, p)
      decreases todo
    {
      var p :| p in todo;
      SameDirectories(fs, s, todo);
      if !IsFilePlace(fs', p) {
        return false, fs';
      }
      todo := todo - {p};
      fs' := fs'[p := File(s.files[p])];
    }
    RemovalIsReplay(s, fs);
    fs' := WithoutMissing(s, fs');
    ok := true;
  }

  function WithoutMissing(s: Stored, fs: FileSystem): FileSystem {
    map p | p in fs && (p in s.missing ==> NodeAt(fs, p).Directory?) :: fs[p]
  }

  lemma RemovalIsReplay(s: Stored, fs: FileSystem)
    requires CanApply(s, fs)
    ensures WithoutMissing(s, WithFiles(s, fs, {})) == Applied(s, fs)
  {
    SameDirectories(fs, s, {});
  }

  lemma SameDirectories(fs: FileSystem, s: Stored, todo: set<Path>)
    requires forall p :: p in s.files && p !in todo ==> IsFilePlace(fs, p)
    ensures var fs' := WithFiles(s, fs, todo);
      && (forall p :: NodeAt(fs', p).Directory? <==> NodeAt(fs, p).Directory?)
      && (forall p :: IsFilePlace(fs', p) <==> IsFilePlace(fs, p))
  {
    var fs' := WithFiles(s, fs, todo);
    forall p ensures NodeAt(fs', p).Directory? <==> NodeAt(fs, p).Directory? {
      if p in s.files && p !in todo { assert IsFilePlace(fs, p); }
    }
  }

}
