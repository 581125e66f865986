/** Recording a process and replaying the record.

    A process is a deterministic program: what it does next depends only on what it has observed so
    far.  It opens, writes, closes, stats, access-checks and unlinks files, in a file system without
    permission bits.  While it runs, every operation is turned into usage updates the way the
    supervisor does, and these are merged.  What is stored are the merged initial states (inputs) and
    the final states of the written paths (outputs). */
module Recording {
  import opened Options
  import opened FileUsages

  // ------------------------------------------------------------------------------------------
  // The file system.
  // ------------------------------------------------------------------------------------------

  /** The components of an absolute path; [] is the root directory. */
  type Path = seq<string>

  datatype Node = Absent | File(content: Content) | Directory

  type FileSystem = map<Path, Node>

  function Parent(p: Path): Path
    requires p != []
  {
    p[..|p| - 1]
  }

  function NodeAt(fs: FileSystem, p: Path): Node {
    if p == [] then Directory else if p in fs then fs[p] else Absent
  }

  /** Everything that exists is in a directory. */
  ghost predicate WellFormed(fs: FileSystem) {
    forall p :: p != [] && !NodeAt(fs, p).Absent? ==> NodeAt(fs, Parent(p)).Directory?
  }

  /** The entry as the usages see it. */
  function EntryOf(n: Node): Entry {
    match n
    case Absent => Missing
    case File(c) => Reg(c, {})
    case Directory => Dir({}, {})
  }

  // ------------------------------------------------------------------------------------------
  // What a process does and sees.
  // ------------------------------------------------------------------------------------------

  datatype OpenMode = ReadOnly | ForWriting(creat: bool, excl: bool, trunc: bool)

  datatype Action =
    | Open(path: Path, mode: OpenMode)
    | Write(path: Path, offset: nat, data: Content)
    | Close(path: Path)
    | Stat(path: Path)
    | Access(path: Path)
    | Unlink(path: Path)
    | Exit

  /** NoEntry is ENOENT, NotDirectory ENOTDIR; a successful open shows the content. */
  datatype Observation =
    | Opened(content: Content) | OpenedDirectory | NoEntry | NotDirectory | Exists | IsADirectory
    | StatFile(size: nat) | StatDirectory | Done | BadDescriptor

  /** A file system and the paths the process has open for writing. */
  datatype World = World(fs: FileSystem, writable: set<Path>)

  /** Overwrite from `offset` on, filling a gap with zero bytes. */
  function Patched(c: Content, offset: nat, data: Content): Content {
    var zeroes := seq(if offset > |c| then offset - |c| else 0, _ => 0 as bv8);
    var padded := c + zeroes;
    padded[..offset] + data + (if offset + |data| < |padded| then padded[offset + |data|..] else [])
  }

  /** A missing path lies below a regular file: the error is ENOTDIR. */
  predicate BelowFile(fs: FileSystem, p: Path) {
    p != [] && (NodeAt(fs, Parent(p)).File? || (NodeAt(fs, Parent(p)).Absent? && BelowFile(fs, Parent(p))))
  }

  /** The error for a path that is missing. */
  function MissingError(fs: FileSystem, p: Path): Observation {
    if BelowFile(fs, p) then NotDirectory else NoEntry
  }

  function Opening(w: World, p: Path, mode: OpenMode): (World, Observation) {
    var n := NodeAt(w.fs, p);
    if mode.ReadOnly? then
      (w, match n case Absent => MissingError(w.fs, p) case File(c) => Opened(c) case Directory => OpenedDirectory)
    else if mode.creat && mode.excl && !n.Absent? then
      (w, Exists)
    else
      match n
      case Directory => (w, IsADirectory)
      case File(c) =>
        var left := if mode.trunc then [] else c;
        (World(w.fs[p := File(left)], w.writable + {p}), Opened(left))
      case Absent =>
        if mode.creat && p != [] && NodeAt(w.fs, Parent(p)).Directory?
        then (World(w.fs[p := File([])], w.writable + {p}), Opened([]))
        else (w, MissingError(w.fs, p))
  }

  function Perform(w: World, a: Action): (World, Observation) {
    match a
    case Open(p, mode) => Opening(w, p, mode)
    case Write(p, offset, data) =>
      if p in w.writable && NodeAt(w.fs, p).File?
      then (w.(fs := w.fs[p := File(Patched(w.fs[p].content, offset, data))]), Done)
      else (w, BadDescriptor)
    case Close(p) => (w.(writable := w.writable - {p}), Done)
    case Stat(p) =>
      (w, match NodeAt(w.fs, p)
          case Absent => MissingError(w.fs, p)
          case File(c) => StatFile(|c|)
          case Directory => StatDirectory)
    case Access(p) => (w, if NodeAt(w.fs, p).Absent? then MissingError(w.fs, p) else Done)
    case Unlink(p) =>
      (match NodeAt(w.fs, p)
       case Absent => (w, MissingError(w.fs, p))
       case Directory => (w, IsADirectory)
       case File(_) => (World(w.fs - {p}, w.writable - {p}), Done))
    case Exit => (w, Done)
  }

  type Program = seq<Observation> -> Action

  /** The first `n` steps of the program. */
  function Execute(prog: Program, w: World, seen: seq<Observation>, n: nat): (World, seq<Observation>)
    decreases n
  {
    if n == 0 || prog(seen).Exit? then (w, seen)
    else
      var (w', o) := Perform(w, prog(seen));
      Execute(prog, w', seen + [o], n - 1)
  }

  // ------------------------------------------------------------------------------------------
  // What the supervisor makes of it.
  // ------------------------------------------------------------------------------------------

  function FromType(t: FileType, generation: nat): Update {
    Update(Some(t), None, NoHash, {}, {}, false, false, false, generation, DontKnow)
  }

  const FAILED := Update(None, None, NoHash, {}, {}, false, false, false, 0, DontKnow)

  /** The update for ENOTDIR: the parent is a regular file, or it is not known what happened. */
  function FromEnotdir(fs: FileSystem, p: Path, generation: nat): Update {
    if p != [] && NodeAt(fs, Parent(p)).File? then FromType(DontKnow, generation).(parentType := IsReg) else FAILED
  }

  /** get_from_open_params(): `before` and `after` are the file system around the call. */
  function FromOpen(before: FileSystem, after: FileSystem, p: Path, mode: OpenMode, o: Observation,
                    generation: nat): Update {
    match o
    case Opened(c) =>
      if mode.ReadOnly? then
        FromType(IsReg, generation).(size := Some(|c|), hash := HashIs(OfContent(c)))
      else
        FromWriting(mode, c, generation).(parentType := IsDir, written := true)
    case NotDirectory => FromEnotdir(before, p, generation)
    case NoEntry =>
      if mode.ForWriting? && mode.creat then FromType(DontKnow, generation).(parentType := NotExist)
      else FromType(NotExist, generation)
    case Exists => FromType(Exist, generation)
    case _ => FAILED
  }

  /** Cases A to F of a successful open for writing; `c` is the content after the open. */
  function FromWriting(mode: OpenMode, c: Content, generation: nat): Update
    requires mode.ForWriting?
  {
    if mode.creat && mode.excl then                                   // C and F
      FromType(NotExist, generation).(modeChanged := true)
    else if mode.trunc then
      if !mode.creat then FromType(IsReg, generation)                 // A
      else FromType(NotExistOrIsReg, generation).(modeChanged := true) // B
    else if !mode.creat then                                          // D
      FromType(IsReg, generation).(hash := HashIs(OfContent(c)))
    else if |c| > 0 then                                              // E, a file with contents
      FromType(IsReg, generation).(size := Some(|c|), hash := HashIs(OfContent(c)), modeChanged := true)
    else                                                              // E, an empty or new file
      FromType(NotExistOrIsReg, generation).(size := Some(0), modeChanged := true)
  }

  /** The update of the path the action names; None where nothing is registered. */
  function UpdateFor(w: World, a: Action, generation: nat): Option<Update>
    requires !a.Exit?
  {
    var (w', o) := Perform(w, a);
    match a
    case Open(p, mode) => Some(FromOpen(w.fs, w'.fs, p, mode, o, generation))
    case Write(_, _, _) => None
    case Close(_) => None
    case Stat(p) =>
      (match o
       case StatFile(size) => Some(FromType(IsReg, generation).(size := Some(size)))
       case StatDirectory => Some(FromType(IsDir, generation))
       case _ => Some(FromType(NotExist, generation)))
    case Access(p) => Some(FromType(if o == Done then Exist else NotExist, generation))
    case Unlink(p) =>
      if o == Done then Some(FromType(IsReg, generation).(written := true))
      else if o == NoEntry then Some(FromType(NotExist, generation))
      else None
  }

  /** The call is preceded by marking the path as open for writing. */
  predicate MarksWriter(w: World, a: Action) {
    match a
    case Open(p, mode) =>
      mode.ForWriting? && p !in w.writable && ((mode.trunc && !mode.excl) || Perform(w, a).1.Opened?)
    case Unlink(p) => p !in w.writable
    case _ => false
  }

  /** The recorder: usages and generations. */
  datatype Recorder = Recorder(usages: map<Path, FileUsage>, generations: map<Path, nat>)

  function UsageOf(r: Recorder, p: Path): FileUsage {
    if p in r.usages then r.usages[p] else NOTHING_KNOWN
  }

  function GenerationOf(r: Recorder, p: Path): nat {
    if p in r.generations then r.generations[p] else 0
  }

  /** One registration; None when the process can no longer be shortcut. */
  function Note(r: Recorder, p: Path, u: Update): Option<Recorder> {
    var fu := UsageOf(r, p);
    if !GenerationFits(fu, u) then None
    else
      var merged := Merge(fu, u, false);
      if merged.None? then None
      else Some(r.(usages := r.usages[p := merged.value]))
  }

  /** The directory first (unless it is the root), then the path. */
  function NoteWithParent(r: Recorder, p: Path, u: Update): Option<Recorder> {
    if u.parentType == DontKnow || p == [] || Parent(p) == [] then Note(r, p, u)
    else
      var r' := Note(r, Parent(p), FromType(u.parentType, GenerationOf(r, Parent(p))));
      if r'.None? then None else Note(r'.value, p, u)
  }

  /** A new generation of the file; an old file's new generation is registered. */
  function NewGeneration(r: Recorder, p: Path): Option<Recorder> {
    var g := GenerationOf(r, p) + 1;
    var r' := r.(generations := r.generations[p := g]);
    if p in r.generations then Note(r', p, FromType(DontKnow, g)) else Some(r')
  }

  /** Before a call that may change the path. */
  function Marked(r: Recorder, w: World, a: Action): Option<Recorder>
    requires !a.Exit?
  {
    if MarksWriter(w, a) then NewGeneration(r, a.path) else Some(r)
  }

  function RecordStep(r: Recorder, w: World, a: Action): Option<Recorder>
    requires !a.Exit?
  {
    var marked := Marked(r, w, a);
    if marked.None? then None
    else
      var u := UpdateFor(w, a, GenerationOf(marked.value, a.path));
      if u.Some? then NoteWithParent(marked.value, a.path, u.value) else marked
  }

  function Record(prog: Program, w: World, seen: seq<Observation>, r: Recorder, n: nat): Option<Recorder>
    decreases n
  {
    if n == 0 || prog(seen).Exit? then Some(r)
    else
      var (w', o) := Perform(w, prog(seen));
      var r' := RecordStep(r, w, prog(seen));
      if r'.None? then None else Record(prog, w', seen + [o], r'.value, n - 1)
  }

  // ------------------------------------------------------------------------------------------
  // The record of a step.
  // ------------------------------------------------------------------------------------------

  function Written(r: Recorder): set<Path> {
    set p | p in r.usages && r.usages[p].written
  }

  function TypeOf(r: Recorder, p: Path): FileType {
    UsageOf(r, p).initial.fileType
  }

  function StepUpdate(r: Recorder, w: World, a: Action): Option<Update>
    requires !a.Exit? && Marked(r, w, a).Some?
  {
    UpdateFor(w, a, GenerationOf(Marked(r, w, a).value, a.path))
  }

  /** A file that had a generation before, from a write or an attempt at one, and is known only to exist, gets a new
      generation. */
  predicate ForgetsExistence(r: Recorder, w: World, a: Action) {
    !a.Exit? && MarksWriter(w, a) && a.path in r.generations && a.path !in Written(r) && TypeOf(r, a.path) == Exist
  }

  // ------------------------------------------------------------------------------------------
  // The updates say enough.
  // ------------------------------------------------------------------------------------------

  /** The update is true of the node, and so is what it says about the directory. */
  predicate TrueOf(fs: FileSystem, p: Path, u: Update) {
    && ValidUpdate(u) && UpdateFits(EntryOf(NodeAt(fs, p)), u)
    && (u.parentType != DontKnow ==> p != [] && Fits(EntryOf(NodeAt(fs, Parent(p))), u.parentType, None, None))
  }

  lemma WritingIsTrue(w: World, p: Path, mode: OpenMode, g: nat)
    requires WellFormed(w.fs) && mode.ForWriting? && Opening(w, p, mode).1.Opened?
    ensures TrueOf(w.fs, p, UpdateFor(w, Open(p, mode), g).value)
  {
  }

  lemma OpenUpdateIsTrue(w: World, p: Path, mode: OpenMode, g: nat)
    requires WellFormed(w.fs) && UpdateFor(w, Open(p, mode), g).value.fileType.Some?
    ensures TrueOf(w.fs, p, UpdateFor(w, Open(p, mode), g).value)
  {
    if mode.ForWriting? && Opening(w, p, mode).1.Opened? { WritingIsTrue(w, p, mode, g); }
  }

  /** The update is true of what the process found. */
  lemma UpdateIsTrue(w: World, a: Action, g: nat)
    requires WellFormed(w.fs) && !a.Exit? && UpdateFor(w, a, g).Some? && UpdateFor(w, a, g).value.fileType.Some?
    ensures TrueOf(w.fs, a.path, UpdateFor(w, a, g).value)
  {
    if a.Open? { OpenUpdateIsTrue(w, a.path, a.mode, g); }
  }

  /** The two errors for a missing path are not told apart. */
  function Blurred(o: Observation): Observation {
    if o == NotDirectory then NoEntry else o
  }

  /** Two worlds agree on a path, or the second one satisfies what is registered about it. */
  ghost predicate Alike(w1: World, w2: World, p: Path, u: Update) {
    NodeAt(w1.fs, p) == NodeAt(w2.fs, p) || UpdateFits(EntryOf(NodeAt(w2.fs, p)), u)
  }

  /** The same for the directory of the path, where something is registered about it. */
  ghost predicate ParentAlike(w1: World, w2: World, p: Path, t: FileType) {
    p != [] && t != DontKnow ==>
      || NodeAt(w1.fs, Parent(p)) == NodeAt(w2.fs, Parent(p))
      || Fits(EntryOf(NodeAt(w2.fs, Parent(p))), t, None, None)
  }

  /** Cases A to F and the failures: an open whose registered facts hold shows the process the same
      thing and leaves the same file. */
  lemma OpenIsDetermined(w1: World, w2: World, p: Path, mode: OpenMode, g: nat)
    requires WellFormed(w1.fs) && WellFormed(w2.fs)
    requires var u := UpdateFor(w1, Open(p, mode), g).value;
      u.fileType.Some? && Alike(w1, w2, p, u) && ParentAlike(w1, w2, p, u.parentType)
    ensures Blurred(Opening(w2, p, mode).1) == Blurred(Opening(w1, p, mode).1)
    ensures mode.ForWriting? && Opening(w1, p, mode).1.Opened? ==>
      NodeAt(Opening(w2, p, mode).0.fs, p) == NodeAt(Opening(w1, p, mode).0.fs, p)
  {
  }

  /** Everything that decides the action holds in the second world. */
  ghost predicate Registered(w1: World, w2: World, a: Action, g: nat)
    requires !a.Exit?
  {
    var u := UpdateFor(w1, a, g);
    if u.Some? then
      u.value.fileType.Some? && Alike(w1, w2, a.path, u.value) && ParentAlike(w1, w2, a.path, u.value.parentType)
    else if a.Unlink? then
      if NodeAt(w1.fs, a.path).Directory? then NodeAt(w2.fs, a.path).Directory? else NodeAt(w2.fs, a.path).Absent?
    else
      a.path in w1.writable ==> NodeAt(w1.fs, a.path) == NodeAt(w2.fs, a.path)
  }

  /** The action created, truncated, opened for writing or removed the file. */
  predicate Wrote(a: Action, o: Observation) {
    match a
    case Open(_, mode) => mode.ForWriting? && o.Opened?
    case Unlink(_) => o == Done
    case _ => false
  }

  /** The update says so exactly then. */
  lemma WrittenIffWrote(w: World, a: Action, g: nat)
    requires !a.Exit?
    ensures UpdateFor(w, a, g).Some? && UpdateFor(w, a, g).value.written <==> Wrote(a, Perform(w, a).1)
  {
  }

  lemma ActionIsDetermined(w1: World, w2: World, a: Action, g: nat)
    requires WellFormed(w1.fs) && WellFormed(w2.fs) && w1.writable == w2.writable
    requires !a.Exit? && Registered(w1, w2, a, g)
    ensures var (w1', o1), (w2', o2) := Perform(w1, a), Perform(w2, a);
      && Blurred(o2) == Blurred(o1)
      && w2'.writable == w1'.writable
      && (Wrote(a, o1) || (a.Write? && a.path in w1.writable) ==> NodeAt(w2'.fs, a.path) == NodeAt(w1'.fs, a.path))
  {
    if a.Open? { OpenIsDetermined(w1, w2, a.path, a.mode, g); }
  }

  /** An action changes at most the path it names, and keeps the file system well formed. */
  lemma ActionIsLocal(w: World, a: Action)
    requires WellFormed(w.fs) && !a.Exit?
    ensures var w' := Perform(w, a).0;
      && WellFormed(w'.fs)
      && (forall q :: q != a.path ==> NodeAt(w'.fs, q) == NodeAt(w.fs, q))
      && (forall q :: NodeAt(w'.fs, q).Directory? <==> NodeAt(w.fs, q).Directory?)
  {
    var w' := Perform(w, a).0;
    assert a.path == [] ==> w'.fs == w.fs;
    forall p | p != [] && !NodeAt(w'.fs, p).Absent?
      ensures NodeAt(w'.fs, Parent(p)).Directory?
    {
      if p != a.path {
        assert !NodeAt(w.fs, p).Absent? && NodeAt(w.fs, Parent(p)).Directory?;
      }
    }
  }

  // ------------------------------------------------------------------------------------------
  // One registration.
  // ------------------------------------------------------------------------------------------

  /** The inputs match: every recorded initial state is true of the file system. */
  ghost predicate Matches(fs: FileSystem, r: Recorder) {
    forall p :: p in r.usages ==> InfoFits(EntryOf(NodeAt(fs, p)), r.usages[p].initial)
  }

  lemma UsageMatches(fs: FileSystem, r: Recorder, p: Path)
    requires Matches(fs, r)
    ensures InfoFits(EntryOf(NodeAt(fs, p)), UsageOf(r, p).initial)
  {
  }

  /** Only a path that was written can be recorded as missing or regular, and it is known to have been no directory. */
  predicate ProperUsage(fu: FileUsage) {
    && ValidInfo(fu.initial)
    && (if fu.written then fu.initial.fileType in {NotExist, NotExistOrIsReg, IsReg}
         else fu.initial.fileType != NotExistOrIsReg)
  }

  ghost predicate Proper(r: Recorder) {
    forall p :: p in r.usages ==> ProperUsage(r.usages[p])
  }

  /** The updates that are registered. */
  predicate ProperUpdate(u: Update) {
    && ValidUpdate(u) && u.fileType.Some?
    && (u.fileType.value == NotExistOrIsReg ==> u.written)
    && (u.written ==> u.fileType.value in {NotExist, NotExistOrIsReg, IsReg})
  }

  lemma UpdateIsProper(w: World, a: Action, g: nat)
    requires !a.Exit? && UpdateFor(w, a, g).Some? && UpdateFor(w, a, g).value.fileType.Some?
    ensures ProperUpdate(UpdateFor(w, a, g).value)
  {
  }

  /** Merging a true update into a usage that does not forget: exactly what satisfied both satisfies the result. */
  lemma UsageMeets(fu: FileUsage, u: Update, e1: Entry, e: Entry)
    requires ProperUsage(fu) && ProperUpdate(u) && GenerationFits(fu, u) && Merge(fu, u, false).Some?
    requires !fu.written ==> InfoFits(e1, fu.initial) && UpdateFits(e1, u)
    requires !fu.written && fu.initial.fileType == Exist ==> u.fileType.value != DontKnow
    ensures ProperUsage(Merge(fu, u, false).value)
    ensures InfoFits(e, Merge(fu, u, false).value.initial) <==>
      InfoFits(e, fu.initial) && (fu.written || UpdateFits(e, u))
  {
    if !fu.written {
      MergeInitialKeepsValid(fu.initial, u);
      MergeIsMeet(fu.initial, u, e1, e);
    }
  }

  /** The update can be registered at the path without anything being forgotten. */
  ghost predicate CanMeet(fs1: FileSystem, r: Recorder, p: Path, u: Update) {
    && Proper(r) && Matches(fs1, r) && ProperUpdate(u)
    && (p !in Written(r) ==>
         UpdateFits(EntryOf(NodeAt(fs1, p)), u) && !(TypeOf(r, p) == Exist && u.fileType.value == DontKnow))
  }

  /** One registration: what matches the result is what matched before and satisfies the update. */
  lemma NoteMeets(fs1: FileSystem, r: Recorder, p: Path, u: Update, fs2: FileSystem)
    requires CanMeet(fs1, r, p, u) && Note(r, p, u).Some?
    ensures Proper(Note(r, p, u).value) && Matches(fs1, Note(r, p, u).value)
    ensures Matches(fs2, Note(r, p, u).value) <==>
      Matches(fs2, r) && (p in Written(r) || UpdateFits(EntryOf(NodeAt(fs2, p)), u))
  {
    var fu, r' := UsageOf(r, p), Note(r, p, u).value;
    UsageMatches(fs1, r, p);
    assert ProperUsage(fu);
    UsageMeets(fu, u, EntryOf(NodeAt(fs1, p)), EntryOf(NodeAt(fs1, p)));
    UsageMeets(fu, u, EntryOf(NodeAt(fs1, p)), EntryOf(NodeAt(fs2, p)));
    OthersMatch(fs1, r, r', p);
    OthersMatch(fs2, r, r', p);
  }

  lemma OthersMatch(fs: FileSystem, r: Recorder, r': Recorder, p: Path)
    requires p in r'.usages && forall q :: q != p ==> (q in r.usages <==> q in r'.usages)
    requires forall q :: q != p && q in r.usages ==> r'.usages[q] == r.usages[q]
    ensures Matches(fs, r) && InfoFits(EntryOf(NodeAt(fs, p)), UsageOf(r', p).initial) ==> Matches(fs, r')
    ensures Matches(fs, r') && InfoFits(EntryOf(NodeAt(fs, p)), UsageOf(r, p).initial) ==> Matches(fs, r)
  {
    if Matches(fs, r') && InfoFits(EntryOf(NodeAt(fs, p)), UsageOf(r, p).initial) {
      forall q | q in r.usages ensures InfoFits(EntryOf(NodeAt(fs, q)), r.usages[q].initial) {
        assert q != p ==> InfoFits(EntryOf(NodeAt(fs, q)), r'.usages[q].initial);
      }
    }
  }

  lemma NoteWrites(r: Recorder, p: Path, u: Update)
    requires Note(r, p, u).Some?
    ensures Written(Note(r, p, u).value) == Written(r) + if u.written then {p} else {}
  {
  }

  // ------------------------------------------------------------------------------------------
  // What a step registers.
  // ------------------------------------------------------------------------------------------

  /** What the update says about the directory can be registered. */
  ghost predicate ParentHolds(fs: FileSystem, r: Recorder, p: Path, t: FileType) {
    t != DontKnow && p != [] && Parent(p) != [] ==>
      Parent(p) in Written(r) || Fits(EntryOf(NodeAt(fs, Parent(p))), t, None, None)
  }

  predicate ProperParent(t: FileType) {
    t == DontKnow || t == IsDir || t == IsReg || t == NotExist
  }

  /** Registering the directory does not get into the way of registering the path. */
  lemma DirectoryMeets(fs1: FileSystem, r: Recorder, p: Path, u: Update, t: FileType, g: nat, fs2: FileSystem)
    requires CanMeet(fs1, r, p, u) && ProperParent(t) && t != DontKnow && p != []
    requires Parent(p) in Written(r) || Fits(EntryOf(NodeAt(fs1, Parent(p))), t, None, None)
    requires Note(r, Parent(p), FromType(t, g)).Some?
    ensures var r' := Note(r, Parent(p), FromType(t, g)).value;
      && CanMeet(fs1, r', p, u) && Written(r') == Written(r)
      && (Matches(fs2, r') <==>
          Matches(fs2, r) && (Parent(p) in Written(r) || Fits(EntryOf(NodeAt(fs2, Parent(p))), t, None, None)))
  {
    var dir, v := Parent(p), FromType(t, g);
    var r' := Note(r, dir, v).value;
    NoteMeets(fs1, r, dir, v, fs2);
    NoteWrites(r, dir, v);
    assert UsageOf(r', p) == UsageOf(r, p);
  }

  lemma UpdateMeets(fs1: FileSystem, r: Recorder, p: Path, u: Update, fs2: FileSystem)
    requires CanMeet(fs1, r, p, u) && ProperParent(u.parentType) && ParentHolds(fs1, r, p, u.parentType)
    requires NoteWithParent(r, p, u).Some?
    ensures var r' := NoteWithParent(r, p, u).value;
      && Proper(r') && Matches(fs1, r') && Written(r') == Written(r) + (if u.written then {p} else {})
      && (Matches(fs2, r') <==> Matches(fs2, r) && (p in Written(r) || UpdateFits(EntryOf(NodeAt(fs2, p)), u)) &&
                                ParentHolds(fs2, r, p, u.parentType))
  {
    if u.parentType == DontKnow || p == [] || Parent(p) == [] {
      NoteMeets(fs1, r, p, u, fs2);
      NoteWrites(r, p, u);
    } else {
      var g := GenerationOf(r, Parent(p));
      var mid := Note(r, Parent(p), FromType(u.parentType, g)).value;
      DirectoryMeets(fs1, r, p, u, u.parentType, g, fs2);
      NoteMeets(fs1, mid, p, u, fs2);
      NoteWrites(mid, p, u);
    }
  }

  /** A new generation changes what is known about the path only where it forgets. */
  lemma GenerationMerge(fu: FileUsage, g: nat)
    requires ProperUsage(fu) && GenerationFits(fu, FromType(DontKnow, g))
    ensures var m := Merge(fu, FromType(DontKnow, g), false);
      && m.Some? && m.value.written == fu.written && ProperUsage(m.value)
      && m.value.initial == (if !fu.written && fu.initial.fileType == Exist then fu.initial.(fileType := DontKnow)
           else fu.initial)
  {
  }

  /** The record is changed at one path, without a write. */
  ghost predicate ChangedAt(r: Recorder, r': Recorder, p: Path) {
    && r.usages.Keys <= r'.usages.Keys <= r.usages.Keys + {p} && Written(r') == Written(r)
    && (forall q :: q != p ==> UsageOf(r', q) == UsageOf(r, q))
  }

  lemma NoteChanges(r: Recorder, p: Path, u: Update)
    requires Note(r, p, u).Some? && !u.written
    ensures ChangedAt(r, Note(r, p, u).value, p)
    ensures Note(r, p, u).value.usages[p] == Merge(UsageOf(r, p), u, false).value
  {
  }

  lemma NewGenerationKeeps(r: Recorder, p: Path)
    requires Proper(r) && NewGeneration(r, p).Some?
    ensures var m := NewGeneration(r, p).value; var i := UsageOf(r, p).initial;
      && ChangedAt(r, m, p) && Proper(m)
      && UsageOf(m, p).initial ==
           (if p in r.generations && !UsageOf(r, p).written && i.fileType == Exist then i.(fileType := DontKnow) else i)
  {
    if p in r.generations {
      var g := GenerationOf(r, p) + 1;
      var r' := r.(generations := r.generations[p := g]);
      assert UsageOf(r', p) == UsageOf(r, p) && ProperUsage(UsageOf(r, p));
      NoteChanges(r', p, FromType(DontKnow, g));
      GenerationMerge(UsageOf(r, p), g);
    }
  }

  lemma MarkKeeps(r: Recorder, w: World, a: Action)
    requires Proper(r) && !a.Exit? && Marked(r, w, a).Some?
    ensures var m := Marked(r, w, a).value; var i := UsageOf(r, a.path).initial;
      && ChangedAt(r, m, a.path) && Proper(m)
      && UsageOf(m, a.path).initial == (if ForgetsExistence(r, w, a) then i.(fileType := DontKnow) else i)
  {
    if MarksWriter(w, a) { NewGenerationKeeps(r, a.path); }
  }

  lemma MarkMeets(fs: FileSystem, r: Recorder, w: World, a: Action)
    requires Proper(r) && !a.Exit? && Marked(r, w, a).Some?
    ensures Matches(fs, r) ==> Matches(fs, Marked(r, w, a).value)
    ensures Matches(fs, Marked(r, w, a).value) && (ForgetsExistence(r, w, a) ==> !NodeAt(fs, a.path).Absent?) ==>
      Matches(fs, r)
  {
    var m := Marked(r, w, a).value;
    MarkKeeps(r, w, a);
    if Matches(fs, r) {
      forall q | q in m.usages ensures InfoFits(EntryOf(NodeAt(fs, q)), m.usages[q].initial) {
        UsageMatches(fs, r, q);
        assert m.usages[q] == UsageOf(m, q);
      }
    }
    if Matches(fs, m) && (ForgetsExistence(r, w, a) ==> !NodeAt(fs, a.path).Absent?) {
      forall q | q in r.usages ensures InfoFits(EntryOf(NodeAt(fs, q)), r.usages[q].initial) {
        UsageMatches(fs, m, q);
        assert r.usages[q] == UsageOf(r, q) && ProperUsage(r.usages[q]);
      }
    }
  }

  // ------------------------------------------------------------------------------------------
  // One step of one run.
  // ------------------------------------------------------------------------------------------

  /** A path in a directory that is not a directory itself. */
  predicate IsFilePlace(fs: FileSystem, p: Path) {
    p != [] && NodeAt(fs, Parent(p)).Directory? && !NodeAt(fs, p).Directory?
  }

  /** The world of a run that started in `fs` and wrote the paths `written`. */
  ghost predicate Overlays(fs: FileSystem, w: World, written: set<Path>) {
    && WellFormed(fs) && WellFormed(w.fs) && w.writable <= written
    && (forall p :: p in written ==> IsFilePlace(w.fs, p))
    && (forall p :: p !in written ==> NodeAt(w.fs, p) == NodeAt(fs, p))
    && (forall p :: NodeAt(w.fs, p).Directory? <==> NodeAt(fs, p).Directory?)
  }

  lemma ActionChanges(w: World, a: Action)
    requires WellFormed(w.fs) && !a.Exit?
    ensures var (w', o) := Perform(w, a);
      && w'.writable <= w.writable + (if Wrote(a, o) then {a.path} else {})
      && (Wrote(a, o) ==> IsFilePlace(w'.fs, a.path))
      && (!Wrote(a, o) && !(a.Write? && a.path in w.writable) ==> w'.fs == w.fs)
  {
  }

  lemma ActionOverlays(fs: FileSystem, w: World, a: Action, written: set<Path>)
    requires Overlays(fs, w, written) && !a.Exit?
    ensures var (w', o) := Perform(w, a); Overlays(fs, w', written + if Wrote(a, o) then {a.path} else {})
  {
    ActionIsLocal(w, a);
    ActionChanges(w, a);
    var (w', o) := Perform(w, a);
    forall p | p in written ensures IsFilePlace(w'.fs, p) {
      assert IsFilePlace(w.fs, p);
    }
  }

  /** The world of a run that started in `fs` and was recorded in `r`. */
  ghost predicate Follows(fs: FileSystem, w: World, r: Recorder) {
    Overlays(fs, w, Written(r)) && Proper(r) && Matches(fs, r)
  }

  lemma FailedNote(r: Recorder, p: Path)
    requires p !in Written(r)
    ensures Note(r, p, FAILED).None?
  {
  }

  lemma FailedIsNoFilePlace(w: World, a: Action, g: nat)
    requires WellFormed(w.fs) && !a.Exit? && UpdateFor(w, a, g).Some? && UpdateFor(w, a, g).value.fileType.None?
    ensures UpdateFor(w, a, g).value == FAILED && !IsFilePlace(w.fs, a.path)
  {
  }

  /** An error that is not understood ends the recording: it cannot happen to a path that is already written. */
  lemma FailedIsNotMerged(fs: FileSystem, w: World, r: Recorder, a: Action)
    requires Follows(fs, w, r) && !a.Exit? && RecordStep(r, w, a).Some? && StepUpdate(r, w, a).Some?
    ensures StepUpdate(r, w, a).value.fileType.Some?
  {
    var m, u := Marked(r, w, a).value, StepUpdate(r, w, a).value;
    MarkKeeps(r, w, a);
    if u.fileType.None? {
      FailedIsNoFilePlace(w, a, GenerationOf(m, a.path));
      FailedNote(m, a.path);
    }
  }

  /** An update that knows nothing about the path comes from a missing one. */
  lemma KnowsNothingOnlyIfAbsent(w: World, a: Action, g: nat)
    requires !a.Exit? && UpdateFor(w, a, g).Some? && UpdateFor(w, a, g).value.fileType == Some(DontKnow)
    ensures NodeAt(w.fs, a.path).Absent?
  {
  }

  lemma ParentTypeIsProper(w: World, a: Action, g: nat)
    requires !a.Exit? && UpdateFor(w, a, g).Some?
    ensures ProperParent(UpdateFor(w, a, g).value.parentType)
  {
  }

  /** The update of a step can be registered. */
  lemma StepCanMeet(fs: FileSystem, w: World, r: Recorder, a: Action)
    requires Follows(fs, w, r) && !a.Exit? && RecordStep(r, w, a).Some? && StepUpdate(r, w, a).Some?
    ensures var m, u := Marked(r, w, a).value, StepUpdate(r, w, a).value;
      CanMeet(fs, m, a.path, u) && ProperParent(u.parentType) && ParentHolds(fs, m, a.path, u.parentType)
  {
    var m, u := Marked(r, w, a).value, StepUpdate(r, w, a).value;
    var g := GenerationOf(m, a.path);
    FailedIsNotMerged(fs, w, r, a);
    UpdateIsProper(w, a, g);
    UpdateIsTrue(w, a, g);
    ParentTypeIsProper(w, a, g);
    MarkKeeps(r, w, a);
    MarkMeets(fs, r, w, a);
    UsageMatches(fs, m, a.path);
    if u.fileType.value == DontKnow { KnowsNothingOnlyIfAbsent(w, a, g); }
  }

  /** What a step registers about the path and its directory is true in `fs`. */
  ghost predicate TrueIn(fs: FileSystem, r: Recorder, w: World, a: Action)
    requires !a.Exit? && Marked(r, w, a).Some?
  {
    var u := StepUpdate(r, w, a);
    u.Some? ==>
      && u.value.fileType.Some? && (a.path in Written(r) || UpdateFits(EntryOf(NodeAt(fs, a.path)), u.value))
      && ParentHolds(fs, r, a.path, u.value.parentType)
  }

  /** A step adds what it registers to the record: what matches the result matched before, but for
      what a new generation forgets, and satisfies the update. */
  lemma RegisteredMeets(fs1: FileSystem, w: World, r: Recorder, a: Action, fs2: FileSystem)
    requires Follows(fs1, w, r) && !a.Exit? && RecordStep(r, w, a).Some?
    ensures var m, r' := Marked(r, w, a).value, RecordStep(r, w, a).value;
      && Proper(r') && Matches(fs1, r')
      && Written(r') == Written(r) + (if Wrote(a, Perform(w, a).1) then {a.path} else {})
      && (Matches(fs2, r') <==> Matches(fs2, m) && TrueIn(fs2, r, w, a))
  {
    MarkKeeps(r, w, a);
    MarkMeets(fs1, r, w, a);
    WrittenIffWrote(w, a, GenerationOf(Marked(r, w, a).value, a.path));
    if StepUpdate(r, w, a).Some? {
      StepCanMeet(fs1, w, r, a);
      UpdateMeets(fs1, Marked(r, w, a).value, a.path, StepUpdate(r, w, a).value, fs2);
    }
  }

  lemma StepFollows(fs: FileSystem, w: World, r: Recorder, a: Action)
    requires Follows(fs, w, r) && !a.Exit? && RecordStep(r, w, a).Some?
    ensures Follows(fs, Perform(w, a).0, RecordStep(r, w, a).value)
  {
    RegisteredMeets(fs, w, r, a, fs);
    ActionOverlays(fs, w, a, Written(r));
  }

  /** What matches the record after the step matched it before, if what was forgotten still holds. */
  lemma StepMeets(fs1: FileSystem, w: World, r: Recorder, a: Action, fs2: FileSystem)
    requires Follows(fs1, w, r) && !a.Exit? && RecordStep(r, w, a).Some?
    requires Matches(fs2, RecordStep(r, w, a).value)
    requires ForgetsExistence(r, w, a) ==> !NodeAt(fs2, a.path).Absent?
    ensures Matches(fs2, r) && TrueIn(fs2, r, w, a)
  {
    RegisteredMeets(fs1, w, r, a, fs2);
    MarkMeets(fs2, r, w, a);
  }
}
