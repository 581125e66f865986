/**
 * Runs of the supervisor's bookkeeping as values: process creation, disabling, registrations and writers in any
 * order, and the log of what was registered.
 */
module Bookkeeping {
  import opened Options
  import opened ProcTree
  import opened FileNames
  import opened FileUsages
  import opened FactSets
  import opened Bubbling
  import opened Registration
  import Writers

  datatype World = World(fifos: seq<Option<FileName>>, usages: seq<map<FileName, FileUsage>>,
                         known: seq<map<FileName, Facts>>, files: Writers.State)
  {
    ghost function Env(): Env {
      Registration.Env(files.parent, fifos, files.generation)
    }

    ghost function Books(): Books {
      Bubbling.Books(files.can, usages, known)
    }

    ghost function With(b: Books): World {
      this.(usages := b.usages, known := b.known, files := files.(can := b.can))
    }
  }

  datatype Event =
    | Create(parentExecPoint: int, fifo: Option<FileName>)
    | Disable(p: int, stop: int)
    | AskAncestor(p: int)
    | Registers(p: int, name: FileName, u: Update)
    | Open(name: FileName, p: int)
    | Close(name: FileName)

  const EMPTY := World([], [], [], Writers.INITIAL)

  ghost predicate Shaped(w: World) {
    Writers.Shape(w.files) && Sized(w.Env(), w.Books())
  }

  ghost predicate Inv(w: World) {
    Shaped(w) && Writers.Inv(w.files) && GoodBut(w.Env(), w.Books(), {})
  }

  /** What the source's callers guarantee: existing processes, files closed only while open. */
  predicate AllowedIn(parent: seq<int>, open: map<FileName, Writers.OpenFile>, e: Event)
    requires Tree(parent)
  {
    match e
    case Create(up, _) => if parent == [] then up == NONE else IsProc(parent, up)
    case Disable(p, stop) => IsProc(parent, p) && AtOrAbove(parent, stop, p)
    case AskAncestor(p) => IsProc(parent, p)
    case Registers(p, _, _) => IsProc(parent, p)
    case Open(_, p) => IsProc(parent, p)
    case Close(name) => name.inIgnoreLocation || name in open
  }

  predicate Allowed(w: World, e: Event)
    requires Tree(w.files.parent)
  {
    AllowedIn(w.files.parent, w.files.ofds, e)
  }

  ghost predicate ValidEvent(e: Event) {
    e.Registers? ==> ValidUpdate(e.u)
  }

  ghost function Registered(w: World, p: int, name: FileName, u: Update): World
    requires Shaped(w) && IsProc(w.files.parent, p)
  {
    w.With(Register(w.Env(), w.Books(), name, u, p, false).books)
  }

  /** Opening a file that was written before starts a new generation, which is registered. */
  ghost predicate NewGeneration(w: World, name: FileName) {
    !name.inIgnoreLocation && name !in w.files.ofds && name in w.files.generation
  }

  ghost function Opened(w: World, name: FileName, p: int): World
    requires Shaped(w) && IsProc(w.files.parent, p)
  {
    w.(files := Writers.Step(w.files, Writers.Open(name, p, w.fifos[p])))
  }

  ghost function GenerationUpdate(w: World, name: FileName): Update {
    TypeUpdate(DontKnow, Writers.Generation(w.files, name) + 1)
  }

  lemma OpenedIsShaped(w: World, name: FileName, p: int)
    requires Shaped(w) && IsProc(w.files.parent, p)
    ensures Shaped(Opened(w, name, p)) && Opened(w, name, p).files.parent == w.files.parent
  {
    if !name.inIgnoreLocation && name in w.files.ofds {
      LowestCommonExists(w.files.parent, p, w.files.ofds[name].owner);
    }
  }

  lemma OpenedKeepsInv(w: World, name: FileName, p: int)
    requires Inv(w) && IsProc(w.files.parent, p)
    ensures Inv(Opened(w, name, p)) && Opened(w, name, p).files.parent == w.files.parent
    ensures Fewer(Opened(w, name, p).files.can, w.files.can)
    ensures NewGeneration(w, name) ==> Opened(w, name, p).files.can == w.files.can
  {
    var now := Opened(w, name, p);
    Writers.StepKeepsInv(w.files, Writers.Open(name, p, w.fifos[p]));
    if !name.inIgnoreLocation && name in w.files.ofds {
      Writers.JoinedSkips(w.files.parent, w.files.can, p, w.files.ofds[name].owner);
    }
    FewerIsGood(w.Env(), now.Env(), w.Books(), now.files.can);
  }

  lemma FewerIsGood(env: Env, env': Env, b: Books, can: seq<bool>)
    requires Sized(env, b) && GoodBut(env, b, {}) && Fewer(can, b.can) && env'.parent == env.parent &&
      env'.fifos == env.fifos
    ensures Sized(env', b.(can := can)) && GoodBut(env', b.(can := can), {})
  {
    var b1 := b.(can := can);
    forall g ensures AllValid(b1, g) && (TrackedBy(env'.fifos, g) ==> Good(env'.parent, b1, g)) {
      FewerOnlyTouches(b, b1, {});
      assert SameFor(b, b1, g) && AllValid(b, g);
      StaysValid(b, b1, g);
      if TrackedBy(env.fifos, g) { FewerStaysGood(env.parent, b, can, g); }
    }
  }

  ghost function Step(w: World, e: Event): World
    requires Shaped(w) && Allowed(w, e)
  {
    match e
    case Create(up, fifo) =>
      World(w.fifos + [fifo], w.usages + [map[]], w.known + [map[]], Writers.Step(w.files, Writers.Create(up)))
    case Disable(p, stop) => w.(files := w.files.(can := DisableChain(w.files.parent, w.files.can, p, stop)))
    case AskAncestor(_) => w
    case Registers(p, name, u) => Registered(w, p, name, u)
    case Open(name, p) =>
      OpenedIsShaped(w, name, p);
      if NewGeneration(w, name) then Registered(Opened(w, name, p), p, name, GenerationUpdate(w, name))
        else Opened(w, name, p)
    case Close(name) => w.(files := Writers.Step(w.files, Writers.Close(name)))
  }

  lemma RegistrationKeepsInv(w: World, p: int, name: FileName, u: Update)
    requires Inv(w) && IsProc(w.files.parent, p) && ValidUpdate(u)
    ensures
      var r := Register(w.Env(), w.Books(), name, u, p, false);
      && Inv(Registered(w, p, name, u)) && Fewer(r.books.can, w.files.can)
      && OnlyTouches(w.Books(), r.books, Touched(name, u))
      && Finished(w.Env(), w.Books(), r, name, u, p, {})
  {
    var r := Register(w.Env(), w.Books(), name, u, p, false);
    StartIsUnderWay(w.Env(), w.Books(), name, u, p, {});
    RegisterFinishes(w.Env(), w.Books(), w.Books(), name, u, p, {}, p, false, {});
    Writers.DisableKeepsInv(w.files, r.books.can);
  }

  /**
   * Which processes a registration keeps from being shortcut: those that missed a change, and, if the registration
   * gave up, others up from the process; or what it says about the directory does.  A process at or above that can
   * still be shortcut agrees with the update, unless a level below it had known it all.  When the registration
   * fails, some level contradicts the update, and nothing from there up can be shortcut.
   */
  lemma FlagsAfterRegistration(w: World, p: int, name: FileName, u: Update, q: int)
    requires Inv(w) && IsProc(w.files.parent, p) && ValidUpdate(u) && IsProc(w.files.parent, q)
    ensures
      var parent, b := w.files.parent, w.Books();
      var r := Register(w.Env(), b, name, u, p, false);
      && (r.books.can[q] ==> b.can[q])
      && (b.can[q] && !r.books.can[q] ==> ExplainedAt(w.Env(), b, name, u, p, !r.ok, q))
      && (r.books.can[q] && AtOrAbove(parent, q, p) && TrackedBy(w.fifos, name) ==> CleanAt(parent, b, name, u, p, q))
      && (!r.ok ==> GaveUp(parent, b, r.books.can, name, u, p))
  {
    RegistrationKeepsInv(w, p, name, u);
  }

  lemma StepKeepsInv(w: World, e: Event)
    requires Inv(w) && Allowed(w, e) && ValidEvent(e)
    ensures Inv(Step(w, e))
  {
    match e
    case Create(up, fifo) => CreateKeepsInv(w, up, fifo);
    case Disable(p, stop) =>
      DisableChainFewer(w.files.parent, w.files.can, p, stop);
      var can := DisableChain(w.files.parent, w.files.can, p, stop);
      Writers.DisableKeepsInv(w.files, can);
      FewerIsGood(w.Env(), w.Env(), w.Books(), can);
    case AskAncestor(_) =>
    case Registers(p, name, u) => RegistrationKeepsInv(w, p, name, u);
    case Open(name, p) =>
      OpenedKeepsInv(w, name, p);
      if NewGeneration(w, name) { RegistrationKeepsInv(Opened(w, name, p), p, name, GenerationUpdate(w, name)); }
    case Close(name) =>
      Writers.StepKeepsInv(w.files, Writers.Close(name));
      FewerIsGood(w.Env(), Step(w, e).Env(), w.Books(), w.files.can);
  }

  lemma CreateKeepsInv(w: World, up: int, fifo: Option<FileName>)
    requires Inv(w) && Allowed(w, Create(up, fifo))
    ensures Inv(Step(w, Create(up, fifo)))
  {
    var now := Step(w, Create(up, fifo));
    Writers.StepKeepsInv(w.files, Writers.Create(up));
    forall g ensures AllValid(now.Books(), g) && (TrackedBy(now.fifos, g) ==> Good(now.files.parent, now.Books(), g)) {
      assert AllValid(w.Books(), g);
      NewProcessStaysValid(w.Books(), now.Books(), g);
      if TrackedBy(now.fifos, g) {
        assert TrackedBy(w.fifos, g);
        NewProcessStaysGood(w.files.parent, now.files.parent, w.Books(), now.Books(), g);
      }
    }
  }

  lemma NewProcessStaysValid(b: Books, b': Books, g: FileName)
    requires |b.usages| == |b.known| && b'.usages == b.usages + [map[]] && AllValid(b, g)
    ensures AllValid(b', g)
  {
    forall q | 0 <= q < |b'.usages| ensures ValidInfo(UsageOf(b', q, g).initial) {
      assert q < |b.usages| ==> ValidInfo(UsageOf(b, q, g).initial) && UsageOf(b', q, g) == UsageOf(b, q, g);
    }
  }

  // ------------------------------------------------------------------------------------------
  // Runs.
  // ------------------------------------------------------------------------------------------

  ghost predicate ValidEvents(events: seq<Event>) {
    forall i :: 0 <= i < |events| ==> ValidEvent(events[i])
  }

  /** The world after the events; one that is not allowed is left out. */
  ghost function After(events: seq<Event>): (w: World)
    requires ValidEvents(events)
    ensures Inv(w)
  {
    if events == [] then
      EmptyIsGood();
      EMPTY
    else
      var before, e := After(events[..|events| - 1]), events[|events| - 1];
      if Allowed(before, e) then
        StepKeepsInv(before, e);
        Step(before, e)
      else before
  }

  lemma EmptyIsGood()
    ensures Inv(EMPTY)
  {
  }

  // ------------------------------------------------------------------------------------------
  // The log.
  // ------------------------------------------------------------------------------------------

  /**
   * A registration.  `late` and `lateMode` are the processes for which the path had already been written, or its
   * permission bits changed; `irregular` those to which the update was told but whose record does not conjoin it.
   */
  datatype Observation = Observation(p: int, name: FileName, u: Update, late: set<int>, lateMode: set<int>,
                                     irregular: set<int>)

  ghost function Observe(w: World, p: int, name: FileName, u: Update): Observation
    requires Shaped(w) && IsProc(w.files.parent, p)
  {
    var b := w.Books();
    Observation(p, name, u,
                set q | 0 <= q < |w.usages| && UsageOf(b, q, name).written,
                set q | 0 <= q < |w.usages| && UsageOf(b, q, name).modeChanged,
                set c | 0 <= c < |w.usages| && b.can[c] && AtOrAbove(w.files.parent, c, p) &&
                  Irregular(UsageOf(b, c, name), u))
  }

  /** What a registration tells about the directory that holds the path comes first. */
  ghost function ObserveAll(w: World, p: int, name: FileName, u: Update): seq<Observation>
    requires Shaped(w) && IsProc(w.files.parent, p)
  {
    (if DirectoryApplies(name, u) && !name.inIgnoreLocation && Some(name) != w.fifos[p] then
       [Observe(w, p, name.parentDir.value, DirectoryUpdate(w.Env(), name.parentDir.value, u.parentType))]
     else []) +
    [Observe(w, p, name, u)]
  }

  ghost function Observations(w: World, e: Event): seq<Observation>
    requires Shaped(w) && Allowed(w, e)
  {
    match e
    case Registers(p, name, u) => ObserveAll(w, p, name, u)
    case Open(name, p) =>
      OpenedIsShaped(w, name, p);
      if NewGeneration(w, name) then ObserveAll(Opened(w, name, p), p, name, GenerationUpdate(w, name)) else []
    case _ => []
  }

  /** Everything that was registered in a run, in order. */
  ghost function LogOf(events: seq<Event>): seq<Observation>
    requires ValidEvents(events)
  {
    if events == [] then []
    else
      var earlier, e := events[..|events| - 1], events[|events| - 1];
      LogOf(earlier) + if Allowed(After(earlier), e) then Observations(After(earlier), e) else []
  }

  /** The observation was made at or below `q`. */
  ghost predicate MadeBelow(parent: seq<int>, o: Observation, q: int, g: FileName)
    requires Tree(parent)
  {
    o.name == g && IsProc(parent, o.p) && AtOrAbove(parent, q, o.p)
  }

  /** ... before `q` recorded a write of the path, ... */
  ghost predicate Concerns(parent: seq<int>, o: Observation, q: int, g: FileName)
    requires Tree(parent)
  {
    MadeBelow(parent, o, q, g) && q !in o.late
  }

  /** ... or a change of its permission bits. */
  ghost predicate ConcernsMode(parent: seq<int>, o: Observation, q: int, g: FileName)
    requires Tree(parent)
  {
    MadeBelow(parent, o, q, g) && q !in o.lateMode
  }

  /** It was such a write, ... */
  ghost predicate Writes(parent: seq<int>, o: Observation, q: int, g: FileName)
    requires Tree(parent)
  {
    MadeBelow(parent, o, q, g) && o.u.written
  }

  /** ... or such a change. */
  ghost predicate ChangesMode(parent: seq<int>, o: Observation, q: int, g: FileName)
    requires Tree(parent)
  {
    MadeBelow(parent, o, q, g) && o.u.modeChanged
  }

  ghost predicate AnyWrites(parent: seq<int>, log: seq<Observation>, q: int, g: FileName)
    requires Tree(parent)
  {
    exists i :: 0 <= i < |log| && Writes(parent, log[i], q, g)
  }

  ghost predicate AnyChangesMode(parent: seq<int>, log: seq<Observation>, q: int, g: FileName)
    requires Tree(parent)
  {
    exists i :: 0 <= i < |log| && ChangesMode(parent, log[i], q, g)
  }

  /** Some observation of `g` did not conjoin at `q` or below. */
  ghost predicate SpoiltIn(parent: seq<int>, log: seq<Observation>, q: int, g: FileName)
    requires Tree(parent)
  {
    exists i, c :: 0 <= i < |log| && log[i].name == g && c in log[i].irregular && IsProc(parent, c) &&
      AtOrAbove(parent, q, c)
  }

  /** What `q` knows about `g` is in the log ... */
  ghost predicate FromLog(parent: seq<int>, b: Books, log: seq<Observation>, q: int, g: FileName)
    requires Bubbling.Shape(parent, b) && IsProc(parent, q)
  {
    var k := FactsOf(b, q, g);
    && (forall v :: v in k.content ==> exists i :: 0 <= i < |log| && Concerns(parent, log[i], q, g) && log[i].u == v)
    && (forall v :: v in k.mode ==> exists i :: 0 <= i < |log| && ConcernsMode(parent, log[i], q, g) && log[i].u == v)
    && (k.spoiled ==> SpoiltIn(parent, log, q, g))
    && (UsageOf(b, q, g).written ==> AnyWrites(parent, log, q, g))
    && (UsageOf(b, q, g).modeChanged ==> AnyChangesMode(parent, log, q, g))
  }

  /** ... and what is in the log it knows, if it can still be shortcut. */
  ghost predicate KnowsLogged(parent: seq<int>, b: Books, o: Observation, q: int)
    requires Bubbling.Shape(parent, b) && IsProc(parent, q)
  {
    && (b.can[q] && Concerns(parent, o, q, o.name) ==> o.u in FactsOf(b, q, o.name).content)
    && (b.can[q] && ConcernsMode(parent, o, q, o.name) ==> o.u in FactsOf(b, q, o.name).mode)
    && (b.can[q] && MadeBelow(parent, o, q, o.name) ==> Marks(UsageOf(b, q, o.name), o.u))
  }

  ghost predicate Ledger(w: World, log: seq<Observation>) {
    && Inv(w)
    && (forall q, g :: 0 <= q < |w.files.parent| ==> FromLog(w.files.parent, w.Books(), log, q, g))
    && (forall i, q :: 0 <= i < |log| && 0 <= q < |w.files.parent| && TrackedBy(w.fifos, log[i].name) ==>
          KnowsLogged(w.files.parent, w.Books(), log[i], q))
    && (forall i :: 0 <= i < |log| ==> IsProc(w.files.parent, log[i].p) && InTree(w.files.parent, log[i].irregular))
  }

  ghost predicate InTree(parent: seq<int>, ps: set<int>) {
    forall c :: c in ps ==> 0 <= c < |parent|
  }

  // ------------------------------------------------------------------------------------------
  // Every event keeps the ledger.
  // ------------------------------------------------------------------------------------------

  lemma AnyInLongerLog(parent: seq<int>, log: seq<Observation>, more: seq<Observation>, q: int, g: FileName)
    requires Tree(parent)
    ensures AnyWrites(parent, log, q, g) ==> AnyWrites(parent, log + more, q, g)
    ensures AnyChangesMode(parent, log, q, g) ==> AnyChangesMode(parent, log + more, q, g)
  {
    forall i | 0 <= i < |log| ensures (log + more)[i] == log[i] {}
  }

  lemma FromLongerLog(parent: seq<int>, b: Books, log: seq<Observation>, more: seq<Observation>, q: int, g: FileName)
    requires Bubbling.Shape(parent, b) && IsProc(parent, q) && FromLog(parent, b, log, q, g)
    ensures FromLog(parent, b, log + more, q, g)
  {
    var k, all := FactsOf(b, q, g), log + more;
    AnyInLongerLog(parent, log, more, q, g);
    forall v | v in k.content ensures exists i :: 0 <= i < |all| && Concerns(parent, all[i], q, g) && all[i].u == v {
      var i :| 0 <= i < |log| && Concerns(parent, log[i], q, g) && log[i].u == v;
      assert all[i] == log[i];
    }
    forall v | v in k.mode ensures exists i :: 0 <= i < |all| && ConcernsMode(parent, all[i], q, g) && all[i].u == v {
      var i :| 0 <= i < |log| && ConcernsMode(parent, log[i], q, g) && log[i].u == v;
      assert all[i] == log[i];
    }
    if k.spoiled {
      var i, c :| 0 <= i < |log| && log[i].name == g && c in log[i].irregular && IsProc(parent, c) &&
        AtOrAbove(parent, q, c);
      assert all[i] == log[i];
    }
  }

  /** The last observation accounts for what was learned. */
  lemma EffectIsLogged(w: World, r: Books, log: seq<Observation>, p: int, g: FileName, v: Update, i: int, q: int)
    requires Inv(w) && IsProc(w.files.parent, p) && Bubbling.Shape(w.files.parent, r) && IsProc(w.files.parent, q)
    requires FromLog(w.files.parent, w.Books(), log, q, g)
    requires 0 <= i < |log| && log[i] == Observe(w, p, g, v) && EffectAt(w.files.parent, w.Books(), r, g, v, p, q)
    ensures FromLog(w.files.parent, r, log, q, g)
  {
    var parent, k' := w.files.parent, FactsOf(r, q, g);
    forall x | x in k'.content ensures exists j :: 0 <= j < |log| && Concerns(parent, log[j], q, g) && log[j].u == x {
      if x !in FactsOf(w.Books(), q, g).content { assert Concerns(parent, log[i], q, g) && log[i].u == x; }
    }
    forall x | x in k'.mode ensures exists j :: 0 <= j < |log| && ConcernsMode(parent, log[j], q, g) && log[j].u == x {
      if x !in FactsOf(w.Books(), q, g).mode { assert ConcernsMode(parent, log[i], q, g) && log[i].u == x; }
    }
    if k'.spoiled && !FactsOf(w.Books(), q, g).spoiled {
      var c :| 0 <= c < |parent| && w.files.can[c] && AtOrAbove(parent, q, c) && AtOrAbove(parent, c, p) &&
        Irregular(UsageOf(w.Books(), c, g), v);
      assert c in log[i].irregular;
    }
    if UsageOf(r, q, g).written && !UsageOf(w.Books(), q, g).written { assert Writes(parent, log[i], q, g); }
    if UsageOf(r, q, g).modeChanged && !UsageOf(w.Books(), q, g).modeChanged {
      assert ChangesMode(parent, log[i], q, g);
    }
  }

  lemma SameIsFromLog(parent: seq<int>, b: Books, b': Books, log: seq<Observation>, q: int, g: FileName)
    requires Bubbling.Shape(parent, b) && Bubbling.Shape(parent, b') && IsProc(parent, q)
    requires FromLog(parent, b, log, q, g) && FactsOf(b', q, g) == FactsOf(b, q, g)
    requires UsageOf(b', q, g) == UsageOf(b, q, g)
    ensures FromLog(parent, b', log, q, g)
  {
  }

  /** What was told stays known. */
  lemma StillKnows(parent: seq<int>, b: Books, b': Books, o: Observation, q: int)
    requires Bubbling.Shape(parent, b) && Bubbling.Shape(parent, b') && IsProc(parent, q)
    requires KnowsLogged(parent, b, o, q) && Grows(b, b') && Fewer(b'.can, b.can)
    ensures KnowsLogged(parent, b', o, q)
  {
    assert GrowsAt(b, b', o.name, q);
  }

  lemma LearnedIsKnown(w: World, r: Books, p: int, g: FileName, v: Update, q: int)
    requires Inv(w) && IsProc(w.files.parent, p) && Bubbling.Shape(w.files.parent, r) && IsProc(w.files.parent, q)
    requires Learned(w.files.parent, w.Books(), r, g, v, p)
    ensures KnowsLogged(w.files.parent, r, Observe(w, p, g, v), q)
  {
    if r.can[q] && AtOrAbove(w.files.parent, q, p) { assert LearnedAt(w.Books(), r, g, v, q); }
  }

  /** A registration that is ignored changes nothing. */
  lemma IgnoredIsSame(w: World, p: int, name: FileName, u: Update)
    requires Inv(w) && IsProc(w.files.parent, p) && (name.inIgnoreLocation || Some(name) == w.fifos[p])
    ensures Registered(w, p, name, u) == w
  {
  }

  lemma RegistrationIsFromLog(w: World, log: seq<Observation>, p: int, name: FileName, u: Update, q: int, g: FileName)
    requires Ledger(w, log) && IsProc(w.files.parent, p) && ValidUpdate(u) && IsProc(w.files.parent, q)
    ensures
      var now := Registered(w, p, name, u);
      Bubbling.Shape(now.files.parent, now.Books()) &&
        FromLog(now.files.parent, now.Books(), log + ObserveAll(w, p, name, u), q, g)
  {
    var now, all := Registered(w, p, name, u), log + ObserveAll(w, p, name, u);
    RegistrationKeepsInv(w, p, name, u);
    FromLongerLog(w.files.parent, w.Books(), log, ObserveAll(w, p, name, u), q, g);
    assert AllValid(w.Books(), g);
    if g == name {
      EffectIsLogged(w, now.Books(), all, p, g, u, |all| - 1, q);
    } else if name.inIgnoreLocation || Some(name) == w.fifos[p] {
      IgnoredIsSame(w, p, name, u);
    } else if DirectoryApplies(name, u) && g == name.parentDir.value {
      EffectIsLogged(w, now.Books(), all, p, g, DirectoryUpdate(w.Env(), g, u.parentType), |log|, q);
    } else {
      assert SameFor(w.Books(), now.Books(), g) && SameAt(w.Books(), now.Books(), g, q);
      SameIsFromLog(w.files.parent, w.Books(), now.Books(), all, q, g);
    }
  }

  lemma RegistrationIsKnown(w: World, log: seq<Observation>, p: int, name: FileName, u: Update, i: int, q: int)
    requires Ledger(w, log) && IsProc(w.files.parent, p) && ValidUpdate(u) && IsProc(w.files.parent, q)
    requires
      var all := log + ObserveAll(w, p, name, u);
      0 <= i < |all| && TrackedBy(w.fifos, all[i].name)
    ensures
      var now := Registered(w, p, name, u);
      Bubbling.Shape(now.files.parent, now.Books()) &&
      KnowsLogged(now.files.parent, now.Books(), (log + ObserveAll(w, p, name, u))[i], q)
  {
    var now, all := Registered(w, p, name, u), log + ObserveAll(w, p, name, u);
    RegistrationKeepsInv(w, p, name, u);
    if i < |log| {
      assert KnowsLogged(w.files.parent, w.Books(), log[i], q);
      StillKnows(w.files.parent, w.Books(), now.Books(), log[i], q);
    } else if i == |all| - 1 {
      LoggedIsLearned(w.files.parent, w.Books(), now.Books(), name, u, p);
      LearnedIsKnown(w, now.Books(), p, name, u, q);
    } else {
      DirectoryIsTold(w.Env(), w.Books(), name, u, p);
      LearnedIsKnown(w, now.Books(), p, name.parentDir.value,
        DirectoryUpdate(w.Env(), name.parentDir.value, u.parentType), q);
    }
  }

  lemma RegistrationKeepsLedger(w: World, log: seq<Observation>, p: int, name: FileName, u: Update)
    requires Ledger(w, log) && IsProc(w.files.parent, p) && ValidUpdate(u)
    ensures Ledger(Registered(w, p, name, u), log + ObserveAll(w, p, name, u))
  {
    var now, all := Registered(w, p, name, u), log + ObserveAll(w, p, name, u);
    RegistrationKeepsInv(w, p, name, u);
    forall q, g | 0 <= q < |now.files.parent| ensures FromLog(now.files.parent, now.Books(), all, q, g) {
      RegistrationIsFromLog(w, log, p, name, u, q, g);
    }
    forall i, q | 0 <= i < |all| && 0 <= q < |now.files.parent| && TrackedBy(now.fifos, all[i].name)
      ensures KnowsLogged(now.files.parent, now.Books(), all[i], q)
    {
      RegistrationIsKnown(w, log, p, name, u, i, q);
    }
  }

  /** Fewer processes can be shortcut, and nothing else that matters here has changed. */
  lemma FewerKeepsLedger(w: World, now: World, log: seq<Observation>)
    requires Ledger(w, log) && Inv(now) && now.files.parent == w.files.parent && now.fifos == w.fifos
    requires now.usages == w.usages && now.known == w.known && Fewer(now.files.can, w.files.can)
    ensures Ledger(now, log)
  {
    FewerOnlyTouches(w.Books(), now.Books(), {});
    forall q, g | 0 <= q < |now.files.parent| ensures FromLog(now.files.parent, now.Books(), log, q, g) {
      assert FromLog(w.files.parent, w.Books(), log, q, g);
      SameIsFromLog(w.files.parent, w.Books(), now.Books(), log, q, g);
    }
    forall i, q | 0 <= i < |log| && 0 <= q < |now.files.parent| && TrackedBy(now.fifos, log[i].name)
      ensures KnowsLogged(now.files.parent, now.Books(), log[i], q)
    {
      assert KnowsLogged(w.files.parent, w.Books(), log[i], q);
      StillKnows(w.files.parent, w.Books(), now.Books(), log[i], q);
    }
  }

  lemma ConcernsInLargerTree(parent: seq<int>, up: int, o: Observation, q: int, g: FileName)
    requires Tree(parent) && NONE <= up < |parent| && IsProc(parent, o.p) && 0 <= q <= |parent|
    ensures Tree(parent + [up])
    ensures Concerns(parent + [up], o, q, g) <==> Concerns(parent, o, q, g) && q < |parent|
    ensures ConcernsMode(parent + [up], o, q, g) <==> ConcernsMode(parent, o, q, g) && q < |parent|
    ensures MadeBelow(parent + [up], o, q, g) <==> MadeBelow(parent, o, q, g) && q < |parent|
  {
    AboveInLargerTree(parent, parent + [up], q, o.p);
    if AtOrAbove(parent, q, o.p) { AboveIsOlder(parent, q, o.p); }
  }

  lemma CreatedIsFromLog(w: World, log: seq<Observation>, up: int, fifo: Option<FileName>, q: int, g: FileName)
    requires Ledger(w, log) && Allowed(w, Create(up, fifo)) && 0 <= q <= |w.files.parent|
    ensures
      var now := Step(w, Create(up, fifo));
      Inv(now) && FromLog(now.files.parent, now.Books(), log, q, g)
  {
    var now := Step(w, Create(up, fifo));
    CreateKeepsInv(w, up, fifo);
    if q < |w.files.parent| {
      assert FromLog(w.files.parent, w.Books(), log, q, g) && FactsOf(now.Books(), q, g) == FactsOf(w.Books(), q, g);
      FromLogInLargerTree(w.files.parent, up, w.Books(), now.Books(), log, q, g);
    }
  }

  lemma FromLogInLargerTree(parent: seq<int>, up: int, b: Books, b': Books, log: seq<Observation>, q: int, g: FileName)
    requires Bubbling.Shape(parent, b) && NONE <= up < |parent| && Bubbling.Shape(parent + [up], b') &&
      IsProc(parent, q)
    requires forall i :: 0 <= i < |log| ==> IsProc(parent, log[i].p) && InTree(parent, log[i].irregular)
    requires FromLog(parent, b, log, q, g) && FactsOf(b', q, g) == FactsOf(b, q, g)
    requires UsageOf(b', q, g) == UsageOf(b, q, g)
    ensures FromLog(parent + [up], b', log, q, g)
  {
    var parent', k := parent + [up], FactsOf(b, q, g);
    forall i | 0 <= i < |log|
      ensures Concerns(parent', log[i], q, g) == Concerns(parent, log[i], q, g) &&
        ConcernsMode(parent', log[i], q, g) == ConcernsMode(parent, log[i], q, g) &&
        MadeBelow(parent', log[i], q, g) == MadeBelow(parent, log[i], q, g)
    {
      ConcernsInLargerTree(parent, up, log[i], q, g);
    }
    forall v | v in k.content ensures exists i :: 0 <= i < |log| && Concerns(parent', log[i], q, g) && log[i].u == v {
      var i :| 0 <= i < |log| && Concerns(parent, log[i], q, g) && log[i].u == v;
      assert Concerns(parent', log[i], q, g);
    }
    forall v | v in k.mode ensures exists i :: 0 <= i < |log| && ConcernsMode(parent', log[i], q, g) && log[i].u == v {
      var i :| 0 <= i < |log| && ConcernsMode(parent, log[i], q, g) && log[i].u == v;
      assert ConcernsMode(parent', log[i], q, g);
    }
    if k.spoiled {
      var i, c :| 0 <= i < |log| && log[i].name == g && c in log[i].irregular && IsProc(parent, c) &&
        AtOrAbove(parent, q, c);
      AboveInLargerTree(parent, parent', q, c);
      assert SpoiltIn(parent', log, q, g);
    }
  }

  lemma CreatedKnows(w: World, log: seq<Observation>, up: int, fifo: Option<FileName>, i: int, q: int)
    requires Ledger(w, log) && Allowed(w, Create(up, fifo)) && 0 <= i < |log| && 0 <= q <= |w.files.parent|
    requires TrackedBy(w.fifos, log[i].name)
    ensures
      var now := Step(w, Create(up, fifo));
      Inv(now) && KnowsLogged(now.files.parent, now.Books(), log[i], q)
  {
    var now, o := Step(w, Create(up, fifo)), log[i];
    CreateKeepsInv(w, up, fifo);
    ConcernsInLargerTree(w.files.parent, up, o, q, o.name);
    if q < |w.files.parent| {
      assert KnowsLogged(w.files.parent, w.Books(), o, q) &&
        FactsOf(now.Books(), q, o.name) == FactsOf(w.Books(), q, o.name);
    }
  }

  lemma CreateKeepsLedger(w: World, log: seq<Observation>, up: int, fifo: Option<FileName>)
    requires Ledger(w, log) && Allowed(w, Create(up, fifo))
    ensures Ledger(Step(w, Create(up, fifo)), log)
  {
    var now := Step(w, Create(up, fifo));
    CreateKeepsInv(w, up, fifo);
    forall q, g | 0 <= q < |now.files.parent| ensures FromLog(now.files.parent, now.Books(), log, q, g) {
      CreatedIsFromLog(w, log, up, fifo, q, g);
    }
    forall i, q | 0 <= i < |log| && 0 <= q < |now.files.parent| && TrackedBy(now.fifos, log[i].name)
      ensures KnowsLogged(now.files.parent, now.Books(), log[i], q)
    {
      assert TrackedBy(w.fifos, log[i].name);
      CreatedKnows(w, log, up, fifo, i, q);
    }
  }

  lemma StepKeepsLedger(w: World, log: seq<Observation>, e: Event)
    requires Ledger(w, log) && Allowed(w, e) && ValidEvent(e)
    ensures Ledger(Step(w, e), log + Observations(w, e))
  {
    assert log + [] == log;
    StepKeepsInv(w, e);
    match e
    case Create(up, fifo) => CreateKeepsLedger(w, log, up, fifo);
    case Disable(p, stop) =>
      DisableChainFewer(w.files.parent, w.files.can, p, stop);
      FewerKeepsLedger(w, Step(w, e), log);
    case AskAncestor(_) =>
    case Registers(p, name, u) => RegistrationKeepsLedger(w, log, p, name, u);
    case Open(name, p) =>
      OpenedKeepsInv(w, name, p);
      FewerKeepsLedger(w, Opened(w, name, p), log);
      if NewGeneration(w, name) {
        RegistrationKeepsLedger(Opened(w, name, p), log, p, name, GenerationUpdate(w, name));
      }
    case Close(name) => FewerKeepsLedger(w, Step(w, e), log);
  }

  /** In every run, what the processes know is what was registered. */
  lemma {:induction false} RunKeepsLedger(events: seq<Event>)
    requires ValidEvents(events)
    ensures Ledger(After(events), LogOf(events))
  {
    if events == [] {
      EmptyIsGood();
    } else {
      var earlier, e := events[..|events| - 1], events[|events| - 1];
      RunKeepsLedger(earlier);
      if Allowed(After(earlier), e) { StepKeepsLedger(After(earlier), LogOf(earlier), e); }
      assert LogOf(earlier) + [] == LogOf(earlier);
    }
  }

  // ------------------------------------------------------------------------------------------
  // Before the first write.
  // ------------------------------------------------------------------------------------------

  /** The processes for which the path had been written, or its permission bits changed, are those with such an
      observation before. */
  ghost predicate LateIff(parent: seq<int>, log: seq<Observation>, i: int, q: int)
    requires Tree(parent) && 0 <= i < |log|
  {
    && (q in log[i].late <==> AnyWrites(parent, log[..i], q, log[i].name))
    && (q in log[i].lateMode <==> AnyChangesMode(parent, log[..i], q, log[i].name))
  }

  ghost predicate InOrder(w: World, log: seq<Observation>) {
    && Tree(w.files.parent) && |w.files.can| == |w.files.parent|
    && (forall i, q ::
          0 <= i < |log| && 0 <= q < |w.files.parent| && w.files.can[q] && TrackedBy(w.fifos, log[i].name) ==>
          LateIff(w.files.parent, log, i, q))
    && (forall i :: 0 <= i < |log| ==> IsProc(w.files.parent, log[i].p))
    && (forall i :: 0 <= i < |log| ==> InTree(w.files.parent, log[i].late) && InTree(w.files.parent, log[i].lateMode))
  }

  lemma FewerStaysInOrder(w: World, now: World, log: seq<Observation>)
    requires InOrder(w, log) && now.files.parent == w.files.parent && now.fifos == w.fifos
    requires Fewer(now.files.can, w.files.can)
    ensures InOrder(now, log)
  {
  }

  lemma AnyInLargerTree(parent: seq<int>, up: int, log: seq<Observation>, q: int, g: FileName)
    requires Tree(parent) && NONE <= up < |parent| && 0 <= q <= |parent|
    requires forall i :: 0 <= i < |log| ==> IsProc(parent, log[i].p)
    ensures Tree(parent + [up])
    ensures AnyWrites(parent + [up], log, q, g) <==> AnyWrites(parent, log, q, g) && q < |parent|
    ensures AnyChangesMode(parent + [up], log, q, g) <==> AnyChangesMode(parent, log, q, g) && q < |parent|
  {
    forall i | 0 <= i < |log|
      ensures MadeBelow(parent + [up], log[i], q, g) <==> MadeBelow(parent, log[i], q, g) && q < |parent|
    {
      ConcernsInLargerTree(parent, up, log[i], q, g);
    }
  }

  lemma CreateStaysInOrder(w: World, log: seq<Observation>, up: int, fifo: Option<FileName>)
    requires Shaped(w) && InOrder(w, log) && Allowed(w, Create(up, fifo))
    ensures InOrder(Step(w, Create(up, fifo)), log)
  {
    var now := Step(w, Create(up, fifo));
    var parent := w.files.parent;
    forall i, q | 0 <= i < |log| && 0 <= q < |now.files.parent| && now.files.can[q] && TrackedBy(now.fifos, log[i].name)
      ensures LateIff(now.files.parent, log, i, q)
    {
      AnyInLargerTree(parent, up, log[..i], q, log[i].name);
      if q < |parent| {
        assert TrackedBy(w.fifos, log[i].name);
        assert LateIff(parent, log, i, q);
      }
    }
  }

  /** Who has recorded a write is in the log. */
  lemma ObservedInOrder(w: World, log: seq<Observation>, p: int, g: FileName, v: Update, q: int)
    requires Ledger(w, log) && IsProc(w.files.parent, p) && IsProc(w.files.parent, q)
    requires w.files.can[q] && TrackedBy(w.fifos, g)
    ensures
      var o := Observe(w, p, g, v);
      && (q in o.late <==> AnyWrites(w.files.parent, log, q, g))
      && (q in o.lateMode <==> AnyChangesMode(w.files.parent, log, q, g))
  {
    assert FromLog(w.files.parent, w.Books(), log, q, g);
    forall i | 0 <= i < |log| && log[i].name == g ensures KnowsLogged(w.files.parent, w.Books(), log[i], q) {
    }
  }

  /** What is told about a directory is no write. */
  lemma NoWriteInBetween(parent: seq<int>, log: seq<Observation>, o: Observation, q: int, g: FileName)
    requires Tree(parent) && !o.u.written && !o.u.modeChanged
    ensures AnyWrites(parent, log + [o], q, g) <==> AnyWrites(parent, log, q, g)
    ensures AnyChangesMode(parent, log + [o], q, g) <==> AnyChangesMode(parent, log, q, g)
  {
    AnyInLongerLog(parent, log, [o], q, g);
  }

  lemma NewInOrder(w: World, log: seq<Observation>, p: int, name: FileName, u: Update, i: int, q: int)
    requires Ledger(w, log) && IsProc(w.files.parent, p) && IsProc(w.files.parent, q) && w.files.can[q]
    requires
      var all := log + ObserveAll(w, p, name, u);
      |log| <= i < |all| && TrackedBy(w.fifos, all[i].name)
    ensures LateIff(w.files.parent, log + ObserveAll(w, p, name, u), i, q)
  {
    var all := log + ObserveAll(w, p, name, u);
    ObservedInOrder(w, log, p, all[i].name, all[i].u, q);
    if i == |log| {
      assert all[..i] == log;
    } else {
      assert all[..i] == log + [all[|log|]];
      NoWriteInBetween(w.files.parent, log, all[|log|], q, all[i].name);
    }
  }

  lemma RegistrationStaysInOrder(w: World, log: seq<Observation>, p: int, name: FileName, u: Update)
    requires Ledger(w, log) && InOrder(w, log) && IsProc(w.files.parent, p) && ValidUpdate(u)
    ensures InOrder(Registered(w, p, name, u), log + ObserveAll(w, p, name, u))
  {
    var now, all := Registered(w, p, name, u), log + ObserveAll(w, p, name, u);
    RegistrationKeepsInv(w, p, name, u);
    forall i, q | 0 <= i < |all| && 0 <= q < |now.files.parent| && now.files.can[q] && TrackedBy(now.fifos, all[i].name)
      ensures LateIff(now.files.parent, all, i, q)
    {
      if i < |log| {
        assert LateIff(w.files.parent, log, i, q) && all[..i] == log[..i];
      } else {
        NewInOrder(w, log, p, name, u, i, q);
      }
    }
  }

  lemma StepStaysInOrder(w: World, log: seq<Observation>, e: Event)
    requires Ledger(w, log) && InOrder(w, log) && Allowed(w, e) && ValidEvent(e)
    ensures InOrder(Step(w, e), log + Observations(w, e))
  {
    assert log + [] == log;
    match e
    case Create(up, fifo) => CreateStaysInOrder(w, log, up, fifo);
    case Disable(p, stop) =>
      DisableChainFewer(w.files.parent, w.files.can, p, stop);
      FewerStaysInOrder(w, Step(w, e), log);
    case AskAncestor(_) =>
    case Registers(p, name, u) => RegistrationStaysInOrder(w, log, p, name, u);
    case Open(name, p) =>
      OpenedKeepsInv(w, name, p);
      FewerStaysInOrder(w, Opened(w, name, p), log);
      if NewGeneration(w, name) {
        FewerKeepsLedger(w, Opened(w, name, p), log);
        RegistrationStaysInOrder(Opened(w, name, p), log, p, name, GenerationUpdate(w, name));
      }
    case Close(name) => FewerStaysInOrder(w, Step(w, e), log);
  }

  /** In every run the log alone tells which observations came before the first write. */
  lemma {:induction false} RunIsInOrder(events: seq<Event>)
    requires ValidEvents(events)
    ensures InOrder(After(events), LogOf(events))
  {
    if events != [] {
      var earlier, e := events[..|events| - 1], events[|events| - 1];
      RunIsInOrder(earlier);
      RunKeepsLedger(earlier);
      if Allowed(After(earlier), e) { StepStaysInOrder(After(earlier), LogOf(earlier), e); }
      assert LogOf(earlier) + [] == LogOf(earlier);
    }
  }

  // ------------------------------------------------------------------------------------------
  // The record is exact.
  // ------------------------------------------------------------------------------------------

  /** An observation at or below `q`, with no write of the path there before it. */
  ghost predicate BeforeWrites(parent: seq<int>, log: seq<Observation>, i: int, q: int, g: FileName)
    requires Tree(parent) && 0 <= i < |log|
  {
    MadeBelow(parent, log[i], q, g) && !AnyWrites(parent, log[..i], q, g)
  }

  ghost predicate BeforeChanges(parent: seq<int>, log: seq<Observation>, i: int, q: int, g: FileName)
    requires Tree(parent) && 0 <= i < |log|
  {
    MadeBelow(parent, log[i], q, g) && !AnyChangesMode(parent, log[..i], q, g)
  }

  ghost predicate SatisfiesAll(parent: seq<int>, log: seq<Observation>, q: int, g: FileName, e: Entry)
    requires Tree(parent)
  {
    forall i :: 0 <= i < |log| && BeforeWrites(parent, log, i, q, g) ==> UpdateFits(e, log[i].u)
  }

  ghost predicate SatisfiesAllModes(parent: seq<int>, log: seq<Observation>, q: int, g: FileName, e: Entry)
    requires Tree(parent)
  {
    forall i :: 0 <= i < |log| && BeforeChanges(parent, log, i, q, g) ==>
      ModeFits(e, log[i].u.mode, log[i].u.modeMask)
  }

  lemma BeforeIsConcern(w: World, log: seq<Observation>, i: int, q: int, g: FileName)
    requires InOrder(w, log) && 0 <= i < |log| && IsProc(w.files.parent, q) && w.files.can[q] && TrackedBy(w.fifos, g)
    ensures BeforeWrites(w.files.parent, log, i, q, g) <==> Concerns(w.files.parent, log[i], q, g)
    ensures BeforeChanges(w.files.parent, log, i, q, g) <==> ConcernsMode(w.files.parent, log[i], q, g)
  {
    if log[i].name == g { assert LateIff(w.files.parent, log, i, q); }
  }

  lemma FactsAreTheLog(w: World, log: seq<Observation>, q: int, g: FileName, e: Entry)
    requires Ledger(w, log) && InOrder(w, log) && IsProc(w.files.parent, q) && w.files.can[q] && TrackedBy(w.fifos, g)
    ensures AllFit(e, FactsOf(w.Books(), q, g).content) <==> SatisfiesAll(w.files.parent, log, q, g, e)
    ensures AllModesFit(e, FactsOf(w.Books(), q, g).mode) <==> SatisfiesAllModes(w.files.parent, log, q, g, e)
  {
    assert FromLog(w.files.parent, w.Books(), log, q, g);
    forall i | 0 <= i < |log|
      ensures BeforeWrites(w.files.parent, log, i, q, g) <==> Concerns(w.files.parent, log[i], q, g)
      ensures BeforeChanges(w.files.parent, log, i, q, g) <==> ConcernsMode(w.files.parent, log[i], q, g)
      ensures log[i].name == g ==> KnowsLogged(w.files.parent, w.Books(), log[i], q)
    {
      BeforeIsConcern(w, log, i, q, g);
    }
  }

  /**
   * No observation is lost and none is made up: in every run, the initial state recorded by a process that can
   * still be shortcut is satisfied by exactly the entries that satisfy every observation made at or below it
   * before its first write, provided that they can be true together and all of them conjoined.
   */
  lemma RecordIsExact(events: seq<Event>, q: int, g: FileName, truth: Entry, e: Entry)
    requires ValidEvents(events)
    requires
      var w, log := After(events), LogOf(events);
      && IsProc(w.files.parent, q) && w.files.can[q] && TrackedBy(w.fifos, g)
      && SatisfiesAll(w.files.parent, log, q, g, truth) && !SpoiltIn(w.files.parent, log, q, g)
    ensures
      var w, log := After(events), LogOf(events);
      InfoFits(e, UsageOf(w.Books(), q, g).initial) <==> SatisfiesAll(w.files.parent, log, q, g, e)
  {
    var w, log := After(events), LogOf(events);
    RunKeepsLedger(events);
    RunIsInOrder(events);
    FactsAreTheLog(w, log, q, g, truth);
    FactsAreTheLog(w, log, q, g, e);
    assert FromLog(w.files.parent, w.Books(), log, q, g) && Good(w.files.parent, w.Books(), g);
    assert Sound(UsageOf(w.Books(), q, g), FactsOf(w.Books(), q, g)) && Consistent(FactsOf(w.Books(), q, g).content);
  }

  /** The same for the permission bits, before their first change. */
  lemma ModeRecordIsExact(events: seq<Event>, q: int, g: FileName, truth: Entry, e: Entry)
    requires ValidEvents(events)
    requires
      var w, log := After(events), LogOf(events);
      && IsProc(w.files.parent, q) && w.files.can[q] && TrackedBy(w.fifos, g)
      && SatisfiesAllModes(w.files.parent, log, q, g, truth)
    ensures
      var w, log := After(events), LogOf(events);
      var i := UsageOf(w.Books(), q, g).initial;
      ModeFits(e, i.mode, i.modeMask) <==> SatisfiesAllModes(w.files.parent, log, q, g, e)
  {
    var w, log := After(events), LogOf(events);
    RunKeepsLedger(events);
    RunIsInOrder(events);
    FactsAreTheLog(w, log, q, g, truth);
    FactsAreTheLog(w, log, q, g, e);
    assert Good(w.files.parent, w.Books(), g);
    assert Sound(UsageOf(w.Books(), q, g), FactsOf(w.Books(), q, g)) && ModesConsistent(FactsOf(w.Books(), q, g).mode);
  }
}
