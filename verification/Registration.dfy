/**
 * What one registration of a file usage does to the books, level by level: the closest process that can be
 * shortcut merges the update, then its nearest ancestor that can be shortcut, and so on, until a level does not
 * change, contradicts the update, or turns out to have missed a change.
 */
module Registration {
  import opened Options
  import opened ProcTree
  import opened FileNames
  import opened FileUsages
  import opened FactSets
  import opened Bubbling

  /** What stays the same during a registration. */
  datatype Env = Env(parent: seq<int>, fifos: seq<Option<FileName>>, generations: map<FileName, nat>)

  datatype Outcome = Outcome(books: Books, ok: bool)

  /** What was done one level below: the usage found there and the propagated bit of the merged one. */
  datatype Below = Nothing | Level(usage: Option<FileUsage>, bit: bool)

  ghost predicate Sized(env: Env, b: Books) {
    Bubbling.Shape(env.parent, b) && |env.fifos| == |env.parent|
  }

  /** Paths whose usages are recorded: not ignored, and no process's jobserver fifo. */
  ghost predicate TrackedBy(fifos: seq<Option<FileName>>, f: FileName) {
    !f.inIgnoreLocation && Some(f) !in fifos
  }

  /** An update that only says the type. */
  function TypeUpdate(t: FileType, generation: nat): Update {
    Update(Some(t), None, NoHash, {}, {}, false, false, false, generation, DontKnow)
  }

  /** Where a level repeats the merge of the one below, its result is taken over. */
  function BitOf(below: Below, usage: Option<FileUsage>, propagated: bool): bool {
    if below.Level? && below.usage == usage then below.bit else propagated
  }

  function Rank(u: Update): nat {
    if u.parentType != DontKnow then 1 else 0
  }

  /** The update about the directory that holds the path. */
  function DirectoryUpdate(env: Env, dir: FileName, t: FileType): Update {
    TypeUpdate(t, if dir in env.generations then env.generations[dir] else 0)
  }

  /** register_file_usage_update() */
  ghost function Register(env: Env, b: Books, f: FileName, u: Update, p: int, spoil: bool): (r: Outcome)
    requires Sized(env, b) && IsProc(env.parent, p)
    ensures Sized(env, r.books)
    decreases Rank(u), p + 1, 1
  {
    var proc := Closest(env.parent, b.can, p);
    if f.inIgnoreLocation || Some(f) == env.fifos[p] || proc == NONE then
      Outcome(b, true)
    else
      var b1 := if u.parentType != DontKnow then RegisterDirectory(env, b, f, u.parentType, proc).books else b;
      Bubble(env, b1, f, u, p, proc, !b.can[p], Nothing, spoil)
  }

  /** register_parent_directory() */
  ghost function RegisterDirectory(env: Env, b: Books, f: FileName, t: FileType, proc: int): (r: Outcome)
    requires Sized(env, b) && IsProc(env.parent, proc)
    ensures Sized(env, r.books)
    decreases 1, proc + 1, 0
  {
    if f.parentDir.None? then Outcome(b, false)
    else if f.parentDir.value.path == "/" then Outcome(b, true)
    else Register(env, b, f.parentDir.value, DirectoryUpdate(env, f.parentDir.value, t), proc, false)
  }

  /** The books after merging at one level. */
  ghost function Merged(b: Books, proc: int, f: FileName, u: Update, after: FileUsage, spoil: bool): Books
    requires 0 <= proc < |b.usages| == |b.known|
  {
    Put(b, proc, f, after, Learn(UsageOf(b, proc, f), FactsOf(b, proc, f), u, spoil))
  }

  /** The levels from `proc` up. */
  ghost function Bubble(env: Env, b: Books, f: FileName, u: Update, p: int, proc: int, propagated: bool, below: Below,
                        spoil: bool): (r: Outcome)
    requires Sized(env, b) && IsProc(env.parent, p) && NONE <= proc <= p
    ensures Sized(env, r.books)
    decreases Rank(u), proc + 1, 0
  {
    if proc == NONE then
      Outcome(b, true)
    else if Misses(LevelUsage(b, proc, f), u) then
      var b1 := b.(can := b.can[proc := false]);
      var next := Nearest(env.parent, b1.can, proc);
      if next == NONE then Outcome(b1, true) else Register(env, b1, f, u, next, spoil)
    else
      var usage := LevelUsage(b, proc, f);
      var bit := BitOf(below, usage, propagated);
      var merged := Merge(OrNothing(usage), u, bit);
      if merged.None? then
        Outcome(b.(can := DisableChain(env.parent, b.can, p, NONE)), false)
      else
        var spoil1 := spoil || Irregular(OrNothing(usage), u);
        var b1 := Merged(b, proc, f, u, merged.value, spoil1);
        if merged == usage then
          Outcome(Noted(env.parent, b1, f, u, proc, spoil1), true)
        else
          Bubble(env, b1, f, u, p, Nearest(env.parent, b.can, proc), true, Level(usage, bit), spoil1)
  }

  // ------------------------------------------------------------------------------------------
  // What may have changed.
  // ------------------------------------------------------------------------------------------

  /** What stands in the way of merging `v` stood in the way before. */
  predicate NoWorse(usage: Option<FileUsage>, usage': Option<FileUsage>, v: Update) {
    && (Misses(usage', v) ==> Misses(usage, v))
    && (Contradicts(usage', v) ==> Contradicts(usage, v))
    && (Irregular(OrNothing(usage'), v) ==> Irregular(OrNothing(usage), v))
    && (OrNothing(usage).written ==> OrNothing(usage').written)
    && (OrNothing(usage).modeChanged ==> OrNothing(usage').modeChanged)
  }

  lemma MergedIsNoWorse(usage: Option<FileUsage>, v: Update, after: FileUsage)
    requires ValidUpdate(v) && ValidInfo(OrNothing(usage).initial) && Stepped(OrNothing(usage), v, after)
    ensures NoWorse(usage, Some(after), v) && ValidInfo(after.initial)
  {
    MergeInitialKeepsValid(OrNothing(usage).initial, v);
  }

  ghost predicate AllValid(b: Books, g: FileName) {
    forall q :: 0 <= q < |b.usages| ==> ValidInfo(UsageOf(b, q, g).initial)
  }

  /** At `q` or below, some level that could be shortcut did not conjoin the update. */
  ghost predicate IrregularBelow(parent: seq<int>, b: Books, g: FileName, v: Update, x: int, q: int)
    requires Bubbling.Shape(parent, b) && Ref(parent, x)
  {
    exists c :: 0 <= c < |parent| && b.can[c] && AtOrAbove(parent, q, c) && AtOrAbove(parent, c, x) &&
      Irregular(UsageOf(b, c, g), v)
  }

  /** The most that the registration of `v` at `x` may have changed in what `q` knows about `g`. */
  ghost predicate EffectAt(parent: seq<int>, b: Books, b': Books, g: FileName, v: Update, x: int, q: int)
    requires Bubbling.Shape(parent, b) && Bubbling.Shape(parent, b') && Ref(parent, x) && IsProc(parent, q)
  {
    var k, k', fu := FactsOf(b, q, g), FactsOf(b', q, g), UsageOf(b, q, g);
    && NoWorse(LevelUsage(b, q, g), LevelUsage(b', q, g), v)
    && k'.content <= k.content + (if AtOrAbove(parent, q, x) && !fu.written then {v} else {})
    && k'.mode <= k.mode + (if AtOrAbove(parent, q, x) && !fu.modeChanged then {v} else {})
    && (k'.spoiled ==> k.spoiled || IrregularBelow(parent, b, g, v, x, q))
    && OnlyMarks(fu, UsageOf(b', q, g), v, AtOrAbove(parent, q, x))
  }

  /** A write or a change of permission bits is new only if the update brought it, and was told. */
  predicate OnlyMarks(fu: FileUsage, fu': FileUsage, v: Update, told: bool) {
    && (fu'.written ==> fu.written || (told && v.written))
    && (fu'.modeChanged ==> fu.modeChanged || (told && v.modeChanged))
  }

  ghost predicate Effect(parent: seq<int>, b: Books, b': Books, g: FileName, v: Update, x: int)
    requires Bubbling.Shape(parent, b) && Bubbling.Shape(parent, b') && Ref(parent, x)
  {
    AllValid(b, g) ==> AllValid(b', g) && forall q :: 0 <= q < |parent| ==> EffectAt(parent, b, b', g, v, x, q)
  }

  lemma SameIsEffect(parent: seq<int>, b: Books, b': Books, g: FileName, v: Update, x: int)
    requires Bubbling.Shape(parent, b) && Bubbling.Shape(parent, b') && Ref(parent, x) && b'.usages == b.usages &&
      b'.known == b.known
    ensures Effect(parent, b, b', g, v, x)
  {
    forall q | 0 <= q < |parent| ensures UsageOf(b', q, g) == UsageOf(b, q, g) && EffectAt(parent, b, b', g, v, x, q) {
    }
  }

  lemma IrregularStaysBelow(parent: seq<int>, b: Books, mid: Books, g: FileName, v: Update, x: int, y: int, q: int)
    requires Bubbling.Shape(parent, b) && Bubbling.Shape(parent, mid) && Ref(parent, x) && Ref(parent, y)
    requires AtOrAbove(parent, y, x) && Fewer(mid.can, b.can)
    requires forall c :: 0 <= c < |parent| ==> EffectAt(parent, b, mid, g, v, x, c)
    requires IrregularBelow(parent, mid, g, v, y, q)
    ensures IrregularBelow(parent, b, g, v, x, q)
  {
    var c :| 0 <= c < |parent| && mid.can[c] && AtOrAbove(parent, q, c) && AtOrAbove(parent, c, y) &&
      Irregular(UsageOf(mid, c, g), v);
    assert EffectAt(parent, b, mid, g, v, x, c);
    AboveTransitive(parent, c, y, x);
  }

  /** Registering the same once more, at or above the same process. */
  lemma EffectTwice(parent: seq<int>, b: Books, mid: Books, b': Books, g: FileName, v: Update, x: int, y: int)
    requires Bubbling.Shape(parent, b) && Bubbling.Shape(parent, mid) && Bubbling.Shape(parent, b')
    requires Ref(parent, x) && Ref(parent, y) && AtOrAbove(parent, y, x) && Fewer(mid.can, b.can)
    requires Effect(parent, b, mid, g, v, x) && Effect(parent, mid, b', g, v, y)
    ensures Effect(parent, b, b', g, v, x)
  {
    forall q | AllValid(b, g) && 0 <= q < |parent| ensures EffectAt(parent, b, b', g, v, x, q) {
      assert EffectAt(parent, b, mid, g, v, x, q) && EffectAt(parent, mid, b', g, v, y, q);
      if AtOrAbove(parent, q, y) { AboveTransitive(parent, q, y, x); }
      if IrregularBelow(parent, mid, g, v, y, q) { IrregularStaysBelow(parent, b, mid, g, v, x, y, q); }
    }
  }

  lemma SpoilIsBelow(parent: seq<int>, base: Books, f: FileName, u: Update, origin: int, done: set<int>, last: int,
                     q: int)
    requires Bubbling.Shape(parent, base) && Ref(parent, origin) && DoneOk(parent, base, origin, done)
    requires 0 <= q <= last && AtOrAbove(parent, q, origin) && SpoilAt(base, f, u, done, last)
    ensures IrregularBelow(parent, base, f, u, origin, q)
  {
    var c :| c in done && last <= c && Irregular(UsageOf(base, c, f), u);
    AboveLinear(parent, q, c, origin);
  }

  lemma SteppedEffect(parent: seq<int>, base: Books, now: Books, f: FileName, u: Update, origin: int, done: set<int>,
                      q: int)
    requires Bubbling.Shape(parent, base) && Bubbling.Shape(parent, now) && Ref(parent, origin) && ValidUpdate(u)
    requires DoneOk(parent, base, origin, done) && q in done && SteppedAt(base, now, f, u, done, q)
    requires ValidInfo(UsageOf(base, q, f).initial)
    ensures EffectAt(parent, base, now, f, u, origin, q) && ValidInfo(UsageOf(now, q, f).initial)
  {
    MergedIsNoWorse(LevelUsage(base, q, f), u, UsageOf(now, q, f));
    if SpoilAt(base, f, u, done, q) { SpoilIsBelow(parent, base, f, u, origin, done, q, q); }
  }

  /** What has been merged so far. */
  lemma ProgressEffect(parent: seq<int>, base: Books, now: Books, f: FileName, u: Update, origin: int, done: set<int>,
                       proc: int)
    requires Bubbling.Shape(parent, base) && Bubbling.Shape(parent, now) && Ref(parent, origin) && ValidUpdate(u)
    requires Progress(parent, base, now, f, u, origin, done, proc)
    ensures Effect(parent, base, now, f, u, origin)
  {
    forall q | AllValid(base, f) && 0 <= q < |parent|
      ensures EffectAt(parent, base, now, f, u, origin, q) && ValidInfo(UsageOf(now, q, f).initial)
    {
      assert ValidInfo(UsageOf(base, q, f).initial);
      if q in done {
        SteppedEffect(parent, base, now, f, u, origin, done, q);
      } else {
        assert SameAt(base, now, f, q);
      }
    }
  }

  lemma LearnedEffect(parent: seq<int>, base: Books, later: Books, f: FileName, u: Update, origin: int, q: int,
                      spoil: bool)
    requires Bubbling.Shape(parent, base) && Bubbling.Shape(parent, later) && Ref(parent, origin) && IsProc(parent, q)
    requires LevelUsage(later, q, f) == LevelUsage(base, q, f)
    requires FactsOf(later, q, f) == FactsOf(base, q, f) ||
      (AtOrAbove(parent, q, origin) &&
        FactsOf(later, q, f) == Learn(UsageOf(base, q, f), FactsOf(base, q, f), u, spoil))
    requires spoil && AtOrAbove(parent, q, origin) && FactsOf(later, q, f) != FactsOf(base, q, f) ==>
      IrregularBelow(parent, base, f, u, origin, q)
    ensures EffectAt(parent, base, later, f, u, origin, q)
  {
  }

  lemma NotedEffect(parent: seq<int>, base: Books, now: Books, f: FileName, u: Update, origin: int, done: set<int>,
                    last: int, q: int)
    requires Bubbling.Shape(parent, base) && Bubbling.Shape(parent, now) && Ref(parent, origin)
    requires Exits(parent, base, now, f, u, origin, done, last) && IsProc(parent, q) && q !in done
    ensures EffectAt(parent, base, Noted(parent, now, f, u, last, SpoilAt(base, f, u, done, last)), f, u, origin, q)
  {
    var spoil := SpoilAt(base, f, u, done, last);
    NotedFacts(parent, now, f, u, last, spoil, q);
    assert SameAt(base, now, f, q);
    if LeftAlone(parent, now.can, last, q) {
      AboveTransitive(parent, q, last, origin);
      if spoil { SpoilIsBelow(parent, base, f, u, origin, done, last, q); }
    }
    LearnedEffect(parent, base, Noted(parent, now, f, u, last, spoil), f, u, origin, q, spoil);
  }

  lemma ExitEffect(parent: seq<int>, base: Books, now: Books, f: FileName, u: Update, origin: int, done: set<int>,
                   last: int)
    requires Bubbling.Shape(parent, base) && Bubbling.Shape(parent, now) && Ref(parent, origin) && ValidUpdate(u)
    requires Exits(parent, base, now, f, u, origin, done, last)
    ensures Effect(parent, base, Noted(parent, now, f, u, last, SpoilAt(base, f, u, done, last)), f, u, origin)
  {
    var later := Noted(parent, now, f, u, last, SpoilAt(base, f, u, done, last));
    forall q | AllValid(base, f) && 0 <= q < |parent|
      ensures EffectAt(parent, base, later, f, u, origin, q) && ValidInfo(UsageOf(later, q, f).initial)
    {
      assert ValidInfo(UsageOf(base, q, f).initial);
      NotedFacts(parent, now, f, u, last, SpoilAt(base, f, u, done, last), q);
      if q in done {
        AboveIsNotLeftAlone(parent, base, now, f, u, origin, done, last, q);
        SteppedEffect(parent, base, now, f, u, origin, done, q);
      } else {
        assert SameAt(base, now, f, q);
        NotedEffect(parent, base, now, f, u, origin, done, last, q);
      }
    }
  }

  lemma AboveIsNotLeftAlone(parent: seq<int>, base: Books, now: Books, f: FileName, u: Update, origin: int,
                            done: set<int>, last: int, q: int)
    requires Bubbling.Shape(parent, base) && Bubbling.Shape(parent, now) && Ref(parent, origin)
    requires Exits(parent, base, now, f, u, origin, done, last) && q in done
    ensures IsProc(parent, last) && !LeftAlone(parent, now.can, last, q)
  {
  }

  // ------------------------------------------------------------------------------------------
  // Who loses what.
  // ------------------------------------------------------------------------------------------

  ghost predicate DirectoryApplies(f: FileName, u: Update) {
    u.parentType != DontKnow && f.parentDir.Some? && f.parentDir.value.path != "/"
  }

  /** Some level from `x` up that could be shortcut contradicts the update. */
  ghost predicate AnyContradicts(parent: seq<int>, b: Books, g: FileName, v: Update, x: int)
    requires Bubbling.Shape(parent, b) && Ref(parent, x)
  {
    exists c :: 0 <= c < |parent| && b.can[c] && AtOrAbove(parent, c, x) && Contradicts(LevelUsage(b, c, g), v)
  }

  /** The process missed a change, or the registration of the path gave up. */
  ghost predicate Blamed(parent: seq<int>, b: Books, g: FileName, v: Update, x: int, gaveUp: bool, q: int)
    requires Bubbling.Shape(parent, b) && Ref(parent, x) && IsProc(parent, q)
  {
    AtOrAbove(parent, q, x) && (Misses(LevelUsage(b, q, g), v) || (gaveUp && AnyContradicts(parent, b, g, v, x)))
  }

  /** A process can not be shortcut any more only because of the update, or of what it says about the directory. */
  ghost predicate Explained(env: Env, base: Books, can: seq<bool>, f: FileName, u: Update, origin: int, gaveUp: bool)
    requires Sized(env, base) && |can| == |env.parent| && Ref(env.parent, origin)
  {
    forall q :: 0 <= q < |can| && base.can[q] && !can[q] ==> ExplainedAt(env, base, f, u, origin, gaveUp, q)
  }

  ghost predicate ExplainedAt(env: Env, base: Books, f: FileName, u: Update, origin: int, gaveUp: bool, q: int)
    requires Sized(env, base) && Ref(env.parent, origin) && IsProc(env.parent, q)
  {
    || Blamed(env.parent, base, f, u, origin, gaveUp, q)
    || (DirectoryApplies(f, u) &&
        Blamed(env.parent, base, f.parentDir.value, DirectoryUpdate(env, f.parentDir.value, u.parentType), origin, true,
          q))
  }

  /** What was registered about the directory. */
  ghost predicate DirectoryEffect(env: Env, base: Books, b: Books, f: FileName, u: Update, origin: int)
    requires Sized(env, base) && Sized(env, b) && Ref(env.parent, origin)
  {
    DirectoryApplies(f, u) ==>
      Effect(env.parent, base, b, f.parentDir.value, DirectoryUpdate(env, f.parentDir.value, u.parentType), origin)
  }

  /** Merging changes nothing but perhaps the propagated bit. */
  predicate ChangesNothing(usage: Option<FileUsage>, u: Update) {
    usage.Some? && !Misses(usage, u) && Merge(usage.value, u, usage.value.propagated) == usage
  }

  /** A process that can still be shortcut agrees with the update, unless some level below has known it all along. */
  ghost predicate CleanAt(parent: seq<int>, base: Books, f: FileName, u: Update, origin: int, q: int)
    requires Bubbling.Shape(parent, base) && Ref(parent, origin) && IsProc(parent, q)
  {
    || (!Misses(LevelUsage(base, q, f), u) && !Contradicts(LevelUsage(base, q, f), u))
    || exists s :: q < s < |parent| && base.can[s] && AtOrAbove(parent, s, origin) &&
         ChangesNothing(LevelUsage(base, s, f), u)
  }

  ghost predicate Clean(parent: seq<int>, base: Books, can: seq<bool>, f: FileName, u: Update, origin: int)
    requires Bubbling.Shape(parent, base) && |can| == |parent| && Ref(parent, origin)
  {
    forall q :: 0 <= q < |parent| && can[q] && AtOrAbove(parent, q, origin) ==> CleanAt(parent, base, f, u, origin, q)
  }

  /** The update contradicts some level, and nothing from there up can be shortcut. */
  ghost predicate GaveUp(parent: seq<int>, base: Books, can: seq<bool>, f: FileName, u: Update, origin: int)
    requires Bubbling.Shape(parent, base) && |can| == |parent| && Ref(parent, origin)
  {
    exists c :: 0 <= c < |parent| && base.can[c] && AtOrAbove(parent, c, origin) &&
      Contradicts(LevelUsage(base, c, f), u) &&
      NoneFrom(parent, can, c)
  }

  ghost predicate NoneFrom(parent: seq<int>, can: seq<bool>, c: int)
    requires Tree(parent) && |can| == |parent| && Ref(parent, c)
  {
    forall q :: 0 <= q < |parent| && AtOrAbove(parent, q, c) ==> !can[q]
  }

  lemma BlamedBefore(parent: seq<int>, base: Books, b: Books, g: FileName, v: Update, x: int, y: int, q: int)
    requires Bubbling.Shape(parent, base) && Bubbling.Shape(parent, b) && Fewer(b.can, base.can)
    requires Ref(parent, x) && Ref(parent, y) && AtOrAbove(parent, y, x) && IsProc(parent, q)
    requires AllValid(base, g) && Effect(parent, base, b, g, v, x) && Blamed(parent, b, g, v, y, true, q)
    ensures Blamed(parent, base, g, v, x, true, q)
  {
    assert EffectAt(parent, base, b, g, v, x, q);
    AboveTransitive(parent, q, y, x);
    if AnyContradicts(parent, b, g, v, y) {
      var c :| 0 <= c < |parent| && b.can[c] && AtOrAbove(parent, c, y) && Contradicts(LevelUsage(b, c, g), v);
      assert EffectAt(parent, base, b, g, v, x, c);
      AboveTransitive(parent, c, y, x);
      assert AnyContradicts(parent, base, g, v, x);
    }
  }

  // ------------------------------------------------------------------------------------------
  // A registration keeps the books good and tells everyone.
  // ------------------------------------------------------------------------------------------

  /** The recorded usage of every tracked path but these is exactly what was observed. */
  ghost predicate GoodBut(env: Env, b: Books, except: set<FileName>)
    requires Sized(env, b)
  {
    (forall g :: AllValid(b, g)) && forall g :: TrackedBy(env.fifos, g) && g !in except ==> Good(env.parent, b, g)
  }

  ghost predicate SpoiltBy(base: Books, f: FileName, u: Update, done: set<int>)
    requires forall c :: c in done ==> 0 <= c < |base.usages|
  {
    exists c :: c in done && Irregular(UsageOf(base, c, f), u)
  }

  /** The registration of `u`, which started at `origin` with the books `base`, has merged the levels `done`. */
  ghost predicate UnderWay(env: Env, base: Books, b: Books, f: FileName, u: Update, origin: int, done: set<int>,
                           proc: int, spoil: bool, except: set<FileName>)
  {
    && Sized(env, base) && Sized(env, b) && Ref(env.parent, origin) && ValidUpdate(u)
    && Progress(env.parent, base, b, f, u, origin, done, proc) && (spoil <==> SpoiltBy(base, f, u, done))
    && f !in except && GoodBut(env, b, except + {f}) && (TrackedBy(env.fifos, f) ==> Good(env.parent, base, f))
    && Losses(env, base, b, f, u, origin)
  }

  /** What was lost so far, and to what. */
  ghost predicate Losses(env: Env, base: Books, b: Books, f: FileName, u: Update, origin: int)
    requires Sized(env, base) && Sized(env, b) && Ref(env.parent, origin)
  {
    (forall g :: AllValid(base, g)) && Explained(env, base, b.can, f, u, origin, false) &&
      DirectoryEffect(env, base, b, f, u, origin)
  }

  /** The registration is over. */
  ghost predicate Finished(env: Env, base: Books, r: Outcome, f: FileName, u: Update, origin: int,
                           except: set<FileName>)
    requires Sized(env, base) && Sized(env, r.books) && Ref(env.parent, origin)
  {
    && GoodBut(env, r.books, except) && (TrackedBy(env.fifos, f) ==> Told(env, base, r, f, u, origin))
    && Effect(env.parent, base, r.books, f, u, origin) && DirectoryEffect(env, base, r.books, f, u, origin)
    && Explained(env, base, r.books.can, f, u, origin, !r.ok)
    && (!r.ok ==> GaveUp(env.parent, base, r.books.can, f, u, origin))
  }

  /** Every process that can still be shortcut knows the update and agrees with it. */
  ghost predicate Told(env: Env, base: Books, r: Outcome, f: FileName, u: Update, origin: int)
    requires Sized(env, base) && Sized(env, r.books) && Ref(env.parent, origin)
  {
    Logged(env.parent, base, r.books, f, u, origin) && Clean(env.parent, base, r.books.can, f, u, origin)
  }

  lemma OthersStayGood(env: Env, b: Books, r: Books, f: FileName, except: set<FileName>)
    requires Sized(env, b) && Sized(env, r) && GoodBut(env, b, except + {f}) && OnlyTouches(b, r, {f}) &&
      Fewer(r.can, b.can)
    requires AllValid(r, f) && (TrackedBy(env.fifos, f) && f !in except ==> Good(env.parent, r, f))
    ensures GoodBut(env, r, except)
  {
    forall g ensures AllValid(r, g) && (TrackedBy(env.fifos, g) && g !in except ==> Good(env.parent, r, g)) {
      if g != f {
        assert SameFor(b, r, g) && AllValid(b, g);
        StaysValid(b, r, g);
        if TrackedBy(env.fifos, g) && g !in except { UntouchedStaysGood(env.parent, b, r, g); }
      }
    }
  }

  lemma StaysValid(b: Books, r: Books, g: FileName)
    requires |b.usages| == |r.usages| && SameFor(b, r, g) && AllValid(b, g)
    ensures AllValid(r, g)
  {
    forall q | 0 <= q < |r.usages| ensures ValidInfo(UsageOf(r, q, g).initial) {
      assert SameAt(b, r, g, q);
    }
  }

  lemma DirectoryUntouched(env: Env, base: Books, b: Books, b1: Books, f: FileName, u: Update, origin: int)
    requires Sized(env, base) && Sized(env, b) && Sized(env, b1) && Ref(env.parent, origin)
    requires DirectoryEffect(env, base, b, f, u, origin) && OnlyTouches(b, b1, {f})
    ensures DirectoryEffect(env, base, b1, f, u, origin)
  {
    if DirectoryApplies(f, u) {
      var dir, v := f.parentDir.value, DirectoryUpdate(env, f.parentDir.value, u.parentType);
      assert SameFor(b, b1, dir);
      forall q | AllValid(base, dir) && 0 <= q < |env.parent|
        ensures EffectAt(env.parent, base, b1, dir, v, origin, q) && ValidInfo(UsageOf(b1, q, dir).initial)
      {
        assert EffectAt(env.parent, base, b, dir, v, origin, q) && SameAt(b, b1, dir, q) &&
          ValidInfo(UsageOf(b, q, dir).initial);
      }
    }
  }

  lemma MergedIsClean(parent: seq<int>, base: Books, now: Books, f: FileName, u: Update, origin: int, done: set<int>,
                      q: int)
    requires Bubbling.Shape(parent, base) && Bubbling.Shape(parent, now) && Ref(parent, origin)
    requires DoneOk(parent, base, origin, done) && q in done && SteppedAt(base, now, f, u, done, q)
    ensures CleanAt(parent, base, f, u, origin, q)
  {
  }

  /** Every level that can still be shortcut has been merged. */
  lemma AllMergedFinishes(env: Env, base: Books, b: Books, f: FileName, u: Update, origin: int, done: set<int>,
                          proc: int, spoil: bool, except: set<FileName>)
    requires UnderWay(env, base, b, f, u, origin, done, proc, spoil, except)
    requires forall q :: 0 <= q < |env.parent| && b.can[q] && AtOrAbove(env.parent, q, origin) ==> q in done
    ensures Finished(env, base, Outcome(b, true), f, u, origin, except)
  {
    if TrackedBy(env.fifos, f) { AllMergedIsGood(env.parent, base, b, f, u, origin, done, proc); }
    AllMergedIsLogged(env.parent, base, b, f, u, origin, done, proc);
    ProgressEffect(env.parent, base, b, f, u, origin, done, proc);
    FewerOnlyTouches(b, b, {f});
    OthersStayGood(env, b, b, f, except);
    forall q | 0 <= q < |env.parent| && b.can[q] && AtOrAbove(env.parent, q, origin)
      ensures CleanAt(env.parent, base, f, u, origin, q)
    {
      MergedIsClean(env.parent, base, b, f, u, origin, done, q);
    }
  }

  lemma FewerIsUnderWay(env: Env, base: Books, b: Books, can: seq<bool>, f: FileName, u: Update, origin: int,
                        done: set<int>, proc: int, spoil: bool, except: set<FileName>)
    requires UnderWay(env, base, b, f, u, origin, done, proc, spoil, except) && Fewer(can, b.can)
    requires Explained(env, base, can, f, u, origin, false)
    ensures UnderWay(env, base, b.(can := can), f, u, origin, done, proc, spoil, except)
  {
    var b1 := b.(can := can);
    FewerOnlyTouches(b, b1, {f});
    FewerOnlyTouches(b, b1, {});
    assert SameFor(b, b1, f);
    UntouchedStaysInProgress(env.parent, base, b, b1, f, u, origin, done, proc);
    DirectoryUntouched(env, base, b, b1, f, u, origin);
    forall g ensures AllValid(b1, g) && (TrackedBy(env.fifos, g) && g !in except + {f} ==> Good(env.parent, b1, g)) {
      assert SameFor(b, b1, g) && AllValid(b, g);
      StaysValid(b, b1, g);
      if TrackedBy(env.fifos, g) && g !in except + {f} { FewerStaysGood(env.parent, b, can, g); }
    }
  }

  /** The update contradicts what is recorded: nothing from the process up can be shortcut. */
  lemma GivingUpFinishes(env: Env, base: Books, b: Books, f: FileName, u: Update, origin: int, done: set<int>, p: int,
                         proc: int, spoil: bool, except: set<FileName>)
    requires UnderWay(env, base, b, f, u, origin, done, proc, spoil, except)
    requires 0 <= proc <= p < |env.parent| && AtOrAbove(env.parent, p, origin)
    requires base.can[proc] && AtOrAbove(env.parent, proc, origin) && Contradicts(LevelUsage(b, proc, f), u)
    ensures
      var r := b.(can := DisableChain(env.parent, b.can, p, NONE));
      Fewer(r.can, b.can) && OnlyTouches(b, r, {f}) && Finished(env, base, Outcome(r, false), f, u, origin, except)
  {
    var r := b.(can := DisableChain(env.parent, b.can, p, NONE));
    DisabledChainIsMerged(env.parent, base, b, f, u, origin, done, proc, p);
    FewerOnlyTouches(b, r, {f});
    assert SameAt(base, b, f, proc);
    ChainIsExplained(env, base, b, f, u, origin, p, proc);
    if TrackedBy(env.fifos, f) { AllMergedIsGood(env.parent, base, r, f, u, origin, done, proc); }
    AllMergedIsLogged(env.parent, base, r, f, u, origin, done, proc);
    ProgressEffect(env.parent, base, r, f, u, origin, done, proc);
    OthersStayGood(env, b, r, f, except);
    DirectoryUntouched(env, base, b, r, f, u, origin);
    forall q | 0 <= q < |env.parent| && r.can[q] && AtOrAbove(env.parent, q, origin)
      ensures CleanAt(env.parent, base, f, u, origin, q)
    {
      MergedIsClean(env.parent, base, r, f, u, origin, done, q);
    }
  }

  lemma ChainIsExplained(env: Env, base: Books, b: Books, f: FileName, u: Update, origin: int, p: int, proc: int)
    requires Sized(env, base) && Sized(env, b) && Ref(env.parent, origin) &&
      Explained(env, base, b.can, f, u, origin, false)
    requires 0 <= proc <= p < |env.parent| && AtOrAbove(env.parent, p, origin) && AtOrAbove(env.parent, proc, origin)
    requires base.can[proc] && Contradicts(LevelUsage(base, proc, f), u)
    ensures
      var can := DisableChain(env.parent, b.can, p, NONE);
      Explained(env, base, can, f, u, origin, true) && GaveUp(env.parent, base, can, f, u, origin)
  {
    var can := DisableChain(env.parent, b.can, p, NONE);
    assert AnyContradicts(env.parent, base, f, u, origin);
    AboveLinear(env.parent, proc, p, origin);
    forall q | 0 <= q < |can| && base.can[q] && !can[q] ensures ExplainedAt(env, base, f, u, origin, true, q) {
      DisableChainExact(env.parent, b.can, p, NONE, q);
      if b.can[q] {
        OnChainIsAbove(env.parent, p, NONE, q);
        AboveTransitive(env.parent, q, p, origin);
      } else {
        assert ExplainedAt(env, base, f, u, origin, false, q);
      }
    }
    forall q | 0 <= q < |can| && AtOrAbove(env.parent, q, proc) ensures !can[q] {
      AboveTransitive(env.parent, q, proc, p);
      AboveIsOnChain(env.parent, p, q);
      DisableChainExact(env.parent, b.can, p, NONE, q);
    }
    assert NoneFrom(env.parent, can, proc);
  }

  lemma {:induction false} OnChainIsAbove(parent: seq<int>, p: int, stop: int, q: int)
    requires Tree(parent) && Ref(parent, p) && OnChain(parent, p, stop, q)
    ensures AtOrAbove(parent, q, p)
    decreases p
  {
    if q != p { OnChainIsAbove(parent, parent[p], stop, q); }
  }

  lemma SpoilIsSpoilt(base: Books, f: FileName, u: Update, done: set<int>, proc: int)
    requires 0 <= proc < |base.usages| && forall c :: c in done ==> proc < c < |base.usages|
    ensures SpoilAt(base, f, u, done + {proc}, proc) <==>
      SpoiltBy(base, f, u, done) || Irregular(UsageOf(base, proc, f), u)
    ensures SpoiltBy(base, f, u, done + {proc}) <==> SpoiltBy(base, f, u, done) || Irregular(UsageOf(base, proc, f), u)
  {
    if SpoiltBy(base, f, u, done) {
      var c :| c in done && Irregular(UsageOf(base, c, f), u);
      assert c in done + {proc};
    }
    if Irregular(UsageOf(base, proc, f), u) { assert proc in done + {proc}; }
  }

  lemma MergedStaysGood(env: Env, b: Books, f: FileName, u: Update, proc: int, except: set<FileName>, after: FileUsage,
                        spoil: bool)
    requires Sized(env, b) && IsProc(env.parent, proc) && ValidUpdate(u) && GoodBut(env, b, except + {f})
    requires Stepped(UsageOf(b, proc, f), u, after)
    ensures
      var b1 := Merged(b, proc, f, u, after, spoil);
      OnlyTouches(b, b1, {f}) && GoodBut(env, b1, except + {f})
  {
    var b1 := Merged(b, proc, f, u, after, spoil);
    PutOnlyTouches(b, proc, f, after, u, spoil);
    assert AllValid(b, f);
    forall q | 0 <= q < |b1.usages| ensures ValidInfo(UsageOf(b1, q, f).initial) {
      assert ValidInfo(UsageOf(b, q, f).initial);
      if q == proc { MergedIsNoWorse(LevelUsage(b, proc, f), u, after); }
    }
    assert except + {f} + {f} == except + {f};
    OthersStayGood(env, b, b1, f, except + {f});
  }

  /** One more level is merged. */
  lemma LevelIsUnderWay(env: Env, base: Books, b: Books, f: FileName, u: Update, origin: int, done: set<int>, proc: int,
                        spoil: bool, except: set<FileName>, after: FileUsage, spoil1: bool)
    requires UnderWay(env, base, b, f, u, origin, done, proc, spoil, except)
    requires IsProc(env.parent, proc) && base.can[proc] && AtOrAbove(env.parent, proc, origin)
    requires !Misses(LevelUsage(b, proc, f), u) && Stepped(UsageOf(b, proc, f), u, after)
    requires spoil1 == (spoil || Irregular(UsageOf(b, proc, f), u))
    ensures
      var b1, next := Merged(b, proc, f, u, after, spoil1), Nearest(env.parent, b.can, proc);
      && spoil1 == SpoilAt(base, f, u, done + {proc}, proc) && OnlyTouches(b, b1, {f})
      && UnderWay(env, base, b1, f, u, origin, done + {proc}, next, spoil1, except)
  {
    var b1 := Merged(b, proc, f, u, after, spoil1);
    assert SameAt(base, b, f, proc);
    SpoilIsSpoilt(base, f, u, done, proc);
    ProgressStep(env.parent, base, b, f, u, origin, done, proc, after, Nearest(env.parent, b.can, proc));
    MergedStaysGood(env, b, f, u, proc, except, after, spoil1);
    DirectoryUntouched(env, base, b, b1, f, u, origin);
  }

  lemma UnchangedExits(env: Env, base: Books, b: Books, f: FileName, u: Update, origin: int, done: set<int>, proc: int,
                       spoil: bool, except: set<FileName>, after: FileUsage, spoil1: bool)
    requires UnderWay(env, base, b, f, u, origin, done, proc, spoil, except)
    requires IsProc(env.parent, proc) && base.can[proc] && AtOrAbove(env.parent, proc, origin)
    requires !Misses(LevelUsage(b, proc, f), u) && Stepped(UsageOf(b, proc, f), u, after) &&
      Some(after) == LevelUsage(b, proc, f)
    requires spoil1 == (spoil || Irregular(UsageOf(b, proc, f), u))
    ensures Exits(env.parent, base, Merged(b, proc, f, u, after, spoil1), f, u, origin, done + {proc}, proc)
    ensures ChangesNothing(LevelUsage(base, proc, f), u)
  {
    LevelIsUnderWay(env, base, b, f, u, origin, done, proc, spoil, except, after, spoil1);
    assert SameAt(base, b, f, proc);
  }

  lemma ExitIsClean(parent: seq<int>, base: Books, b: Books, f: FileName, u: Update, origin: int, done: set<int>,
                    last: int)
    requires Bubbling.Shape(parent, base) && Bubbling.Shape(parent, b) && Ref(parent, origin)
    requires Exits(parent, base, b, f, u, origin, done, last) && ChangesNothing(LevelUsage(base, last, f), u)
    ensures Clean(parent, base, b.can, f, u, origin)
  {
    forall q | 0 <= q < |parent| && b.can[q] && AtOrAbove(parent, q, origin)
      ensures CleanAt(parent, base, f, u, origin, q)
    {
      if q in done { MergedIsClean(parent, base, b, f, u, origin, done, q); }
    }
  }

  /** The level does not change: nothing above needs to. */
  lemma ExitFinishes(env: Env, base: Books, b: Books, b1: Books, f: FileName, u: Update, origin: int, done: set<int>,
                     proc: int, spoil: bool, except: set<FileName>)
    requires Sized(env, base) && Sized(env, b) && Sized(env, b1) && Ref(env.parent, origin) && ValidUpdate(u)
    requires Exits(env.parent, base, b1, f, u, origin, done, proc) && spoil == SpoilAt(base, f, u, done, proc)
    requires ChangesNothing(LevelUsage(base, proc, f), u) && OnlyTouches(b, b1, {f}) && b1.can == b.can
    requires f !in except && GoodBut(env, b, except + {f}) && (TrackedBy(env.fifos, f) ==> Good(env.parent, base, f))
    requires Losses(env, base, b, f, u, origin)
    ensures
      var r := Noted(env.parent, b1, f, u, proc, spoil);
      OnlyTouches(b, r, {f}) && Finished(env, base, Outcome(r, true), f, u, origin, except)
  {
    var r := Noted(env.parent, b1, f, u, proc, spoil);
    NotedOnlyTouches(env.parent, b1, f, u, proc, spoil);
    OnlyTouchesTransitive(b, b1, r, {f});
    if TrackedBy(env.fifos, f) {
      EarlyExitIsGood(env.parent, base, b1, f, u, origin, done, proc);
      EarlyExitIsLogged(env.parent, base, b1, f, u, origin, done, proc);
    }
    ExitEffect(env.parent, base, b1, f, u, origin, done, proc);
    ExitIsClean(env.parent, base, b1, f, u, origin, done, proc);
    OthersStayGood(env, b, r, f, except);
    DirectoryUntouched(env, base, b, r, f, u, origin);
  }

  ghost function Touched(f: FileName, u: Update): set<FileName> {
    {f} + if DirectoryApplies(f, u) then {f.parentDir.value} else {}
  }

  /** The registration tells every process that can still be shortcut, and keeps the books good. */
  lemma RegisterFinishes(env: Env, base: Books, b: Books, f: FileName, u: Update, origin: int, done: set<int>, p: int,
                         spoil: bool, except: set<FileName>)
    requires UnderWay(env, base, b, f, u, origin, done, p, spoil, except)
    requires IsProc(env.parent, p) && AtOrAbove(env.parent, p, origin)
    requires u.parentType != DontKnow && f.parentDir.Some? ==> f.parentDir.value !in except
    ensures
      var r := Register(env, b, f, u, p, spoil);
      Fewer(r.books.can, b.can) && OnlyTouches(b, r.books, Touched(f, u)) &&
        Finished(env, base, r, f, u, origin, except)
    decreases Rank(u), p + 1, 4
  {
    FewerOnlyTouches(b, b, Touched(f, u));
    var proc := Closest(env.parent, b.can, p);
    ProgressFromClosest(env.parent, base, b, f, u, origin, done, p, proc);
    if f.inIgnoreLocation || Some(f) == env.fifos[p] {
      IgnoredFinishes(env, base, b, f, u, origin, done, p, spoil, except);
    } else if proc == NONE {
      AllMergedFinishes(env, base, b, f, u, origin, done, proc, spoil, except);
    } else if u.parentType == DontKnow {
      BubbleFinishes(env, base, b, f, u, origin, done, p, proc, !b.can[p], Nothing, spoil, except);
    } else {
      DirectoryFinishes(env, base, b, f, u, origin, done, proc, spoil, except);
      var b1 := RegisterDirectory(env, b, f, u.parentType, proc).books;
      BubbleFinishes(env, base, b1, f, u, origin, done, p, proc, !b.can[p], Nothing, spoil, except);
      OnlyTouchesTransitive(b, b1, Register(env, b, f, u, p, spoil).books, Touched(f, u));
    }
  }

  lemma IgnoredFinishes(env: Env, base: Books, b: Books, f: FileName, u: Update, origin: int, done: set<int>, p: int,
                        spoil: bool, except: set<FileName>)
    requires UnderWay(env, base, b, f, u, origin, done, p, spoil, except) && !TrackedBy(env.fifos, f)
    ensures Finished(env, base, Outcome(b, true), f, u, origin, except)
  {
    ProgressEffect(env.parent, base, b, f, u, origin, done, p);
    FewerOnlyTouches(b, b, {f});
    OthersStayGood(env, b, b, f, except);
  }

  lemma StartIsUnderWay(env: Env, b: Books, f: FileName, u: Update, p: int, except: set<FileName>)
    requires Sized(env, b) && IsProc(env.parent, p) && ValidUpdate(u) && GoodBut(env, b, except) && f !in except
    ensures UnderWay(env, b, b, f, u, p, {}, p, false, except)
  {
    AllAboveOlder(env.parent, p);
    if DirectoryApplies(f, u) {
      SameIsEffect(env.parent, b, b, f.parentDir.value, DirectoryUpdate(env, f.parentDir.value, u.parentType), p);
    }
  }

  /** Registering what the update tells about the directory does not disturb the registration of the path itself. */
  lemma DirectoryFinishes(env: Env, base: Books, b: Books, f: FileName, u: Update, origin: int, done: set<int>,
                          proc: int, spoil: bool, except: set<FileName>)
    requires UnderWay(env, base, b, f, u, origin, done, proc, spoil, except)
    requires IsProc(env.parent, proc) && AtOrAbove(env.parent, proc, origin)
    requires u.parentType != DontKnow && (f.parentDir.Some? ==> f.parentDir.value !in except)
    ensures
      var r := RegisterDirectory(env, b, f, u.parentType, proc).books;
      && Fewer(r.can, b.can) && OnlyTouches(b, r, Touched(f, u)) && SameFor(b, r, f)
      && UnderWay(env, base, r, f, u, origin, done, proc, spoil, except)
    decreases 1, proc + 1, 0
  {
    FewerOnlyTouches(b, b, Touched(f, u));
    FewerOnlyTouches(b, b, {});
    assert SameFor(b, b, f);
    if f.parentDir.Some? && f.parentDir.value.path != "/" {
      var dir := f.parentDir.value;
      var v := DirectoryUpdate(env, dir, u.parentType);
      var r := Register(env, b, dir, v, proc, false);
      StartIsUnderWay(env, b, dir, v, proc, except + {f});
      RegisterFinishes(env, b, b, dir, v, proc, {}, proc, false, except + {f});
      OnlyTouchesMore(b, r.books, {dir}, Touched(f, u));
      assert SameFor(b, r.books, f);
      DirectoryIsUnderWay(env, base, b, r, f, u, origin, done, proc, spoil, except);
    }
  }

  lemma DirectoryIsUnderWay(env: Env, base: Books, b: Books, r: Outcome, f: FileName, u: Update, origin: int,
                            done: set<int>, proc: int, spoil: bool, except: set<FileName>)
    requires UnderWay(env, base, b, f, u, origin, done, proc, spoil, except) && Sized(env, r.books)
    requires IsProc(env.parent, proc) && AtOrAbove(env.parent, proc, origin) && DirectoryApplies(f, u)
    requires Fewer(r.books.can, b.can) && SameFor(b, r.books, f)
    requires
      var dir := f.parentDir.value;
      Finished(env, b, r, dir, DirectoryUpdate(env, dir, u.parentType), proc, except + {f})
    ensures UnderWay(env, base, r.books, f, u, origin, done, proc, spoil, except)
  {
    var dir := f.parentDir.value;
    var v := DirectoryUpdate(env, dir, u.parentType);
    UntouchedStaysInProgress(env.parent, base, b, r.books, f, u, origin, done, proc);
    EffectTwice(env.parent, base, b, r.books, dir, v, origin, proc);
    forall q | 0 <= q < |env.parent| && base.can[q] && !r.books.can[q]
      ensures ExplainedAt(env, base, f, u, origin, false, q)
    {
      if b.can[q] {
        assert ExplainedAt(env, b, dir, v, proc, !r.ok, q);
        BlamedBefore(env.parent, base, b, dir, v, origin, proc, q);
      }
    }
  }

  lemma BubbleFinishes(env: Env, base: Books, b: Books, f: FileName, u: Update, origin: int, done: set<int>, p: int,
                       proc: int, propagated: bool, below: Below, spoil: bool, except: set<FileName>)
    requires UnderWay(env, base, b, f, u, origin, done, proc, spoil, except)
    requires IsProc(env.parent, p) && AtOrAbove(env.parent, p, origin) && NONE <= proc <= p
    requires proc != NONE ==> base.can[proc] && AtOrAbove(env.parent, proc, origin)
    requires u.parentType != DontKnow && f.parentDir.Some? ==> f.parentDir.value !in except
    ensures
      var r := Bubble(env, b, f, u, p, proc, propagated, below, spoil);
      Fewer(r.books.can, b.can) && OnlyTouches(b, r.books, Touched(f, u)) &&
        Finished(env, base, r, f, u, origin, except)
    decreases Rank(u), proc + 1, 3
  {
    FewerOnlyTouches(b, b, Touched(f, u));
    if proc == NONE {
      AllMergedFinishes(env, base, b, f, u, origin, done, proc, spoil, except);
    } else if Misses(LevelUsage(b, proc, f), u) {
      MissFinishes(env, base, b, f, u, origin, done, proc, spoil, except);
    } else {
      var usage := LevelUsage(b, proc, f);
      var bit := BitOf(below, usage, propagated);
      if Merge(OrNothing(usage), u, bit).None? {
        GivingUpFinishes(env, base, b, f, u, origin, done, p, proc, spoil, except);
        OnlyTouchesMore(b, Bubble(env, b, f, u, p, proc, propagated, below, spoil).books, {f}, Touched(f, u));
      } else {
        MergeFinishes(env, base, b, f, u, origin, done, p, proc, propagated, below, spoil, except);
      }
    }
  }

  /** What a merge of one level leads to. */
  lemma BubbleMerges(env: Env, b: Books, f: FileName, u: Update, p: int, proc: int, propagated: bool, below: Below,
                     spoil: bool)
    requires Sized(env, b) && IsProc(env.parent, p) && 0 <= proc <= p
    requires !Misses(LevelUsage(b, proc, f), u)
    requires Merge(OrNothing(LevelUsage(b, proc, f)), u, BitOf(below, LevelUsage(b, proc, f), propagated)).Some?
    ensures
      var usage := LevelUsage(b, proc, f);
      var bit := BitOf(below, usage, propagated);
      var merged := Merge(OrNothing(usage), u, bit);
      var spoil1 := spoil || Irregular(OrNothing(usage), u);
      var b1 := Merged(b, proc, f, u, merged.value, spoil1);
      Bubble(env, b, f, u, p, proc, propagated, below, spoil) ==
        if merged == usage then Outcome(Noted(env.parent, b1, f, u, proc, spoil1), true)
        else Bubble(env, b1, f, u, p, Nearest(env.parent, b.can, proc), true, Level(usage, bit), spoil1)
  {
  }

  lemma MergeFinishes(env: Env, base: Books, b: Books, f: FileName, u: Update, origin: int, done: set<int>, p: int,
                      proc: int, propagated: bool, below: Below, spoil: bool, except: set<FileName>)
    requires UnderWay(env, base, b, f, u, origin, done, proc, spoil, except)
    requires IsProc(env.parent, p) && AtOrAbove(env.parent, p, origin) && 0 <= proc <= p
    requires base.can[proc] && AtOrAbove(env.parent, proc, origin)
    requires u.parentType != DontKnow && f.parentDir.Some? ==> f.parentDir.value !in except
    requires !Misses(LevelUsage(b, proc, f), u)
    requires
      var usage := LevelUsage(b, proc, f);
      Merge(OrNothing(usage), u, BitOf(below, usage, propagated)).Some?
    ensures
      var r := Bubble(env, b, f, u, p, proc, propagated, below, spoil);
      Fewer(r.books.can, b.can) && OnlyTouches(b, r.books, Touched(f, u)) &&
        Finished(env, base, r, f, u, origin, except)
    decreases Rank(u), proc + 1, 2
  {
    var usage := LevelUsage(b, proc, f);
    var bit := BitOf(below, usage, propagated);
    var merged := Merge(OrNothing(usage), u, bit);
    var spoil1 := spoil || Irregular(OrNothing(usage), u);
    BubbleMerges(env, b, f, u, p, proc, propagated, below, spoil);
    if merged == usage {
      UnchangedFinishes(env, base, b, f, u, origin, done, proc, spoil, except, merged.value, spoil1);
      OnlyTouchesMore(b, Bubble(env, b, f, u, p, proc, propagated, below, spoil).books, {f}, Touched(f, u));
    } else {
      ChangedFinishes(env, base, b, f, u, origin, done, p, proc, Level(usage, bit), spoil, except, merged.value,
        spoil1);
    }
  }

  lemma UnchangedFinishes(env: Env, base: Books, b: Books, f: FileName, u: Update, origin: int, done: set<int>,
                          proc: int, spoil: bool, except: set<FileName>, after: FileUsage, spoil1: bool)
    requires UnderWay(env, base, b, f, u, origin, done, proc, spoil, except)
    requires IsProc(env.parent, proc) && base.can[proc] && AtOrAbove(env.parent, proc, origin)
    requires !Misses(LevelUsage(b, proc, f), u) && Stepped(UsageOf(b, proc, f), u, after) &&
      Some(after) == LevelUsage(b, proc, f)
    requires spoil1 == (spoil || Irregular(UsageOf(b, proc, f), u))
    ensures
      var r := Noted(env.parent, Merged(b, proc, f, u, after, spoil1), f, u, proc, spoil1);
      OnlyTouches(b, r, {f}) && Finished(env, base, Outcome(r, true), f, u, origin, except)
  {
    LevelIsUnderWay(env, base, b, f, u, origin, done, proc, spoil, except, after, spoil1);
    UnchangedExits(env, base, b, f, u, origin, done, proc, spoil, except, after, spoil1);
    ExitFinishes(env, base, b, Merged(b, proc, f, u, after, spoil1), f, u, origin, done + {proc}, proc, spoil1, except);
  }

  lemma ChangedFinishes(env: Env, base: Books, b: Books, f: FileName, u: Update, origin: int, done: set<int>, p: int,
                        proc: int, level: Below, spoil: bool, except: set<FileName>, after: FileUsage, spoil1: bool)
    requires UnderWay(env, base, b, f, u, origin, done, proc, spoil, except)
    requires IsProc(env.parent, p) && AtOrAbove(env.parent, p, origin) && 0 <= proc <= p
    requires base.can[proc] && AtOrAbove(env.parent, proc, origin)
    requires u.parentType != DontKnow && f.parentDir.Some? ==> f.parentDir.value !in except
    requires !Misses(LevelUsage(b, proc, f), u) && Stepped(UsageOf(b, proc, f), u, after)
    requires spoil1 == (spoil || Irregular(UsageOf(b, proc, f), u))
    ensures
      var r := Bubble(env, Merged(b, proc, f, u, after, spoil1), f, u, p, Nearest(env.parent, b.can, proc), true, level,
        spoil1);
      Fewer(r.books.can, b.can) && OnlyTouches(b, r.books, Touched(f, u)) &&
        Finished(env, base, r, f, u, origin, except)
    decreases Rank(u), proc + 1, 1
  {
    var b1, next := Merged(b, proc, f, u, after, spoil1), Nearest(env.parent, b.can, proc);
    LevelIsUnderWay(env, base, b, f, u, origin, done, proc, spoil, except, after, spoil1);
    NextLevel(env.parent, base, b.can, origin, proc);
    BubbleFinishes(env, base, b1, f, u, origin, done + {proc}, p, next, true, level, spoil1, except);
    OnlyTouchesMore(b, b1, {f}, Touched(f, u));
    OnlyTouchesTransitive(b, b1, Bubble(env, b1, f, u, p, next, true, level, spoil1).books, Touched(f, u));
  }

  lemma MissIsUnderWay(env: Env, base: Books, b: Books, f: FileName, u: Update, origin: int, done: set<int>, proc: int,
                       spoil: bool, except: set<FileName>)
    requires UnderWay(env, base, b, f, u, origin, done, proc, spoil, except)
    requires IsProc(env.parent, proc) && AtOrAbove(env.parent, proc, origin) && Misses(LevelUsage(b, proc, f), u)
    ensures
      var b1 := b.(can := b.can[proc := false]);
      var next := Nearest(env.parent, b1.can, proc);
      && UnderWay(env, base, b1, f, u, origin, done, next, spoil, except) && AtOrAbove(env.parent, next, origin)
      && forall q :: 0 <= q < |env.parent| && next < q && b1.can[q] && AtOrAbove(env.parent, q, origin) ==> q in done
  {
    var b1 := b.(can := b.can[proc := false]);
    DisabledInProgress(env.parent, base, b, b1, f, u, origin, done, proc);
    assert SameAt(base, b, f, proc);
    forall q | 0 <= q < |b1.can| && base.can[q] && !b1.can[q] ensures ExplainedAt(env, base, f, u, origin, false, q) {
    }
    FewerIsUnderWay(env, base, b, b1.can, f, u, origin, done, proc, spoil, except);
  }

  /** A level that missed a change is disabled, and the registration starts over above it. */
  lemma MissFinishes(env: Env, base: Books, b: Books, f: FileName, u: Update, origin: int, done: set<int>, proc: int,
                     spoil: bool, except: set<FileName>)
    requires UnderWay(env, base, b, f, u, origin, done, proc, spoil, except)
    requires IsProc(env.parent, proc) && AtOrAbove(env.parent, proc, origin) && Misses(LevelUsage(b, proc, f), u)
    requires u.parentType != DontKnow && f.parentDir.Some? ==> f.parentDir.value !in except
    ensures
      var b1 := b.(can := b.can[proc := false]);
      var next := Nearest(env.parent, b1.can, proc);
      var r := if next == NONE then Outcome(b1, true) else Register(env, b1, f, u, next, spoil);
      Fewer(r.books.can, b.can) && OnlyTouches(b, r.books, Touched(f, u)) &&
        Finished(env, base, r, f, u, origin, except)
    decreases Rank(u), proc + 1, 1
  {
    var b1 := b.(can := b.can[proc := false]);
    var next := Nearest(env.parent, b1.can, proc);
    MissIsUnderWay(env, base, b, f, u, origin, done, proc, spoil, except);
    FewerOnlyTouches(b, b1, Touched(f, u));
    if next == NONE {
      AllMergedFinishes(env, base, b1, f, u, origin, done, next, spoil, except);
    } else {
      RegisterFinishes(env, base, b1, f, u, origin, done, next, spoil, except);
      OnlyTouchesTransitive(b, b1, Register(env, b1, f, u, next, spoil).books, Touched(f, u));
    }
  }

  /** What the update tells about the directory is told to every process that can still be shortcut, too. */
  lemma DirectoryIsTold(env: Env, b: Books, f: FileName, u: Update, p: int)
    requires Sized(env, b) && IsProc(env.parent, p) && ValidUpdate(u) && GoodBut(env, b, {})
    requires DirectoryApplies(f, u) && !f.inIgnoreLocation && Some(f) != env.fifos[p] &&
      TrackedBy(env.fifos, f.parentDir.value)
    ensures
      var dir := f.parentDir.value;
      Learned(env.parent, b, Register(env, b, f, u, p, false).books, dir, DirectoryUpdate(env, dir, u.parentType), p)
  {
    var dir := f.parentDir.value;
    var v := DirectoryUpdate(env, dir, u.parentType);
    var proc := Closest(env.parent, b.can, p);
    StartIsUnderWay(env, b, f, u, p, {});
    ProgressFromClosest(env.parent, b, b, f, u, p, {}, p, proc);
    if proc != NONE {
      var b1, r := RegisterDirectory(env, b, f, u.parentType, proc).books, Register(env, b, f, u, p, false).books;
      StartIsUnderWay(env, b, dir, v, proc, {f});
      RegisterFinishes(env, b, b, dir, v, proc, {}, proc, false, {f});
      DirectoryFinishes(env, b, b, f, u, p, {}, proc, false, {});
      BubbleFinishes(env, b, b1, f, u, p, {}, p, proc, !b.can[p], Nothing, false, {});
      LearnedAndKept(env.parent, b, b1, r, dir, v, p, proc);
    }
  }

  /** Every process that can still be shortcut has learned the update, unless it was too late. */
  ghost predicate Learned(parent: seq<int>, b: Books, r: Books, g: FileName, v: Update, x: int)
    requires Bubbling.Shape(parent, b) && Bubbling.Shape(parent, r) && Ref(parent, x)
  {
    forall q :: 0 <= q < |parent| && r.can[q] && AtOrAbove(parent, q, x) ==> LearnedAt(b, r, g, v, q)
  }

  ghost predicate LearnedAt(b: Books, r: Books, g: FileName, v: Update, q: int)
    requires 0 <= q < |b.usages| && q < |r.known| && q < |r.usages|
  {
    && (!UsageOf(b, q, g).written ==> v in FactsOf(r, q, g).content)
    && (!UsageOf(b, q, g).modeChanged ==> v in FactsOf(r, q, g).mode)
    && Marks(UsageOf(r, q, g), v)
  }

  lemma LearnedAndKept(parent: seq<int>, b: Books, b1: Books, r: Books, g: FileName, v: Update, p: int, proc: int)
    requires Bubbling.Shape(parent, b) && Bubbling.Shape(parent, b1) && Bubbling.Shape(parent, r) && IsProc(parent, p)
    requires proc == Closest(parent, b.can, p) && proc != NONE && Fewer(b1.can, b.can) && Fewer(r.can, b1.can)
    requires Logged(parent, b, b1, g, v, proc) && Grows(b1, r)
    ensures Learned(parent, b, r, g, v, p)
  {
    forall q | 0 <= q < |parent| && r.can[q] && AtOrAbove(parent, q, p) ensures LearnedAt(b, r, g, v, q) {
      SkipsToClosest(parent, b.can, p);
      SkippedCannot(parent, b.can, p, proc, q);
      assert LoggedAt(parent, b, b1, g, v, proc, q) && GrowsAt(b1, r, g, q);
    }
  }

  lemma LoggedIsLearned(parent: seq<int>, b: Books, r: Books, g: FileName, v: Update, x: int)
    requires Bubbling.Shape(parent, b) && Bubbling.Shape(parent, r) && Ref(parent, x) && Logged(parent, b, r, g, v, x)
    ensures Learned(parent, b, r, g, v, x)
  {
    forall q | 0 <= q < |parent| && r.can[q] && AtOrAbove(parent, q, x) ensures LearnedAt(b, r, g, v, q) {
      assert LoggedAt(parent, b, r, g, v, x, q);
    }
  }
}
