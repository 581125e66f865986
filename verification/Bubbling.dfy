/** What the usages of all processes say together, and what one registration that bubbles up does
    to them.  `Books` is a snapshot of the bookkeeping; `known` are the observations behind it. */
module Bubbling {
  import opened Options
  import opened ProcTree
  import opened FileNames
  import opened FileUsages
  import opened FactSets

  datatype Books = Books(can: seq<bool>, usages: seq<map<FileName, FileUsage>>, known: seq<map<FileName, Facts>>)

  function UsageOf(b: Books, p: int, f: FileName): FileUsage
    requires 0 <= p < |b.usages|
  {
    if f in b.usages[p] then b.usages[p][f] else NOTHING_KNOWN
  }

  function OrNothing(fu: Option<FileUsage>): FileUsage {
    if fu.Some? then fu.value else NOTHING_KNOWN
  }

  function LevelUsage(b: Books, p: int, f: FileName): Option<FileUsage>
    requires 0 <= p < |b.usages|
  {
    if f in b.usages[p] then Some(b.usages[p][f]) else None
  }

  /** The path was changed by a process that is not below: a generation is missing. */
  predicate Misses(usage: Option<FileUsage>, u: Update) {
    usage.Some? && usage.value.generation != u.generation && usage.value.generation + 1 != u.generation
  }

  /** The usage and the update contradict each other, or a value could not be looked up. */
  predicate Contradicts(usage: Option<FileUsage>, u: Update) {
    !Misses(usage, u) && Merge(OrNothing(usage), u, false).None?
  }

  function FactsOf(b: Books, p: int, f: FileName): Facts
    requires 0 <= p < |b.known|
  {
    if f in b.known[p] then b.known[p][f] else NO_FACTS
  }

  ghost predicate Shape(parent: seq<int>, b: Books) {
    Tree(parent) && |b.can| == |b.usages| == |b.known| == |parent|
  }

  /** The usage of every process that can still be shortcut records exactly the observations made at
      or below it, and covers the usages of its descendants. */
  ghost predicate Good(parent: seq<int>, b: Books, f: FileName)
    requires Shape(parent, b)
  {
    && (forall q :: 0 <= q < |b.can| && b.can[q] ==> Sound(UsageOf(b, q, f), FactsOf(b, q, f)))
    && (forall p, q :: 0 <= p < |b.can| && b.can[p] && 0 <= q < |b.can| && b.can[q] && AtOrAbove(parent, p, q) ==>
          Covers(UsageOf(b, p, f), FactsOf(b, p, f), UsageOf(b, q, f), FactsOf(b, q, f)))
  }

  /** One of the merged levels from `q` down did not conjoin. */
  ghost predicate SpoilAt(base: Books, f: FileName, u: Update, done: set<int>, q: int)
    requires forall c :: c in done ==> 0 <= c < |base.usages|
  {
    exists c :: c in done && q <= c && Irregular(UsageOf(base, c, f), u)
  }

  ghost predicate SteppedAt(base: Books, now: Books, f: FileName, u: Update, done: set<int>, q: int)
    requires |base.usages| == |base.known| == |now.usages| == |now.known|
    requires forall c :: c in done ==> 0 <= c < |base.usages|
    requires 0 <= q < |base.usages|
  {
    && f in now.usages[q] && !Misses(LevelUsage(base, q, f), u) && Stepped(UsageOf(base, q, f), u, UsageOf(now, q, f))
    && FactsOf(now, q, f) == Learn(UsageOf(base, q, f), FactsOf(base, q, f), u, SpoilAt(base, f, u, done, q))
  }

  ghost predicate SameAt(base: Books, now: Books, f: FileName, q: int)
    requires |base.usages| == |base.known| == |now.usages| == |now.known|
    requires 0 <= q < |base.usages|
  {
    && (f in base.usages[q] <==> f in now.usages[q]) && UsageOf(base, q, f) == UsageOf(now, q, f)
    && FactsOf(base, q, f) == FactsOf(now, q, f)
  }

  ghost predicate DoneOk(parent: seq<int>, base: Books, origin: int, done: set<int>)
    requires Shape(parent, base) && Ref(parent, origin)
  {
    forall c :: c in done ==> 0 <= c < |base.can| && base.can[c] && AtOrAbove(parent, c, origin)
  }

  /** The update `u` of `f`, registered at `origin`, has been merged into the levels `done`; what is
      left starts at `proc`. */
  ghost predicate Progress(parent: seq<int>, base: Books, now: Books, f: FileName, u: Update,
                           origin: int, done: set<int>, proc: int)
    requires Shape(parent, base) && Shape(parent, now) && Ref(parent, origin)
  {
    && Fewer(now.can, base.can)
    && DoneOk(parent, base, origin, done)
    && (forall c :: c in done ==> proc < c && SteppedAt(base, now, f, u, done, c))
    && (forall q :: 0 <= q < |parent| && q !in done ==> SameAt(base, now, f, q))
    && (forall q :: 0 <= q < |parent| && proc < q && now.can[q] && AtOrAbove(parent, q, origin) ==> q in done)
  }

  /** The books after merging at one level. */
  function Put(b: Books, p: int, f: FileName, fu: FileUsage, k: Facts): Books
    requires 0 <= p < |b.usages| == |b.known|
  {
    b.(usages := b.usages[p := b.usages[p][f := fu]], known := b.known[p := b.known[p][f := k]])
  }

  lemma ProgressStep(parent: seq<int>, base: Books, now: Books, f: FileName, u: Update,
                     origin: int, done: set<int>, proc: int, after: FileUsage, next: int)
    requires Shape(parent, base) && Shape(parent, now) && Ref(parent, origin)
    requires Progress(parent, base, now, f, u, origin, done, proc)
    requires IsProc(parent, proc) && base.can[proc] && AtOrAbove(parent, proc, origin)
    requires !Misses(LevelUsage(base, proc, f), u) && Stepped(UsageOf(base, proc, f), u, after)
    requires next == Nearest(parent, now.can, proc)
    ensures var spoil := SpoilAt(base, f, u, done + {proc}, proc);
      var k := Learn(UsageOf(base, proc, f), FactsOf(base, proc, f), u, spoil);
      Progress(parent, base, Put(now, proc, f, after, k), f, u, origin, done + {proc}, next)
  {
    var spoil := SpoilAt(base, f, u, done + {proc}, proc);
    var k := Learn(UsageOf(base, proc, f), FactsOf(base, proc, f), u, spoil);
    var later := Put(now, proc, f, after, k);
    forall c | c in done ensures SteppedAt(base, later, f, u, done + {proc}, c) {
      assert SteppedAt(base, now, f, u, done, c);
      StillStepped(base, now, f, u, done, proc, after, k, c);
    }
    forall q | 0 <= q < |parent| && q !in done + {proc} ensures SameAt(base, later, f, q) {
      assert SameAt(base, now, f, q);
    }
    assert SameAt(base, now, f, proc) && SteppedAt(base, later, f, u, done + {proc}, proc);
    SkippedAreDone(parent, now.can, origin, proc);
  }

  lemma StillStepped(base: Books, now: Books, f: FileName, u: Update, done: set<int>, proc: int, after: FileUsage,
                     k: Facts, c: int)
    requires |base.usages| == |base.known| == |now.usages| == |now.known|
    requires 0 <= proc < |base.usages| && forall d :: d in done ==> 0 <= d < |base.usages|
    requires c in done && proc < c && SteppedAt(base, now, f, u, done, c)
    ensures SteppedAt(base, Put(now, proc, f, after, k), f, u, done + {proc}, c)
  {
    assert SpoilAt(base, f, u, done + {proc}, c) <==> SpoilAt(base, f, u, done, c);
  }

  /** Nothing between a level and its nearest ancestor that can be shortcut is left out. */
  lemma SkippedAreDone(parent: seq<int>, can: seq<bool>, origin: int, proc: int)
    requires Tree(parent) && |can| == |parent| && Ref(parent, origin)
    requires IsProc(parent, proc) && AtOrAbove(parent, proc, origin)
    ensures forall q :: Nearest(parent, can, proc) < q < proc && AtOrAbove(parent, q, origin) ==> !can[q]
  {
    var next := Nearest(parent, can, proc);
    SkipsToClosest(parent, can, parent[proc]);
    forall q | next < q < proc && AtOrAbove(parent, q, origin)
      ensures !can[q]
    {
      AboveLinear(parent, q, proc, origin);
      SkippedCannot(parent, can, parent[proc], next, q);
      if can[q] { AboveIsOlder(parent, q, next); }
    }
  }

  /** When every level that can still be shortcut has been merged, the books are good again. */
  lemma AllMergedIsGood(parent: seq<int>, base: Books, now: Books, f: FileName, u: Update,
                        origin: int, done: set<int>, proc: int)
    requires Shape(parent, base) && Shape(parent, now) && Ref(parent, origin) && ValidUpdate(u)
    requires Progress(parent, base, now, f, u, origin, done, proc) && Good(parent, base, f)
    requires forall q :: 0 <= q < |parent| && now.can[q] && AtOrAbove(parent, q, origin) ==> q in done
    ensures Good(parent, now, f)
  {
    forall q | 0 <= q < |now.can| && now.can[q]
      ensures Sound(UsageOf(now, q, f), FactsOf(now, q, f))
    {
      if q in done {
        MergedIsSound(parent, base, now, f, u, origin, done, q);
      } else {
        assert SameAt(base, now, f, q);
      }
    }
    forall p, q | 0 <= p < |now.can| && now.can[p] && 0 <= q < |now.can| && now.can[q] && AtOrAbove(parent, p, q)
      ensures Covers(UsageOf(now, p, f), FactsOf(now, p, f), UsageOf(now, q, f), FactsOf(now, q, f))
    {
      AboveIsOlder(parent, p, q);
      if q in done {
        AboveTransitive(parent, p, q, origin);
        MergedCovers(base, now, f, u, done, p, q);
      } else {
        assert SameAt(base, now, f, q);
        assert p in done ==> SteppedAt(base, now, f, u, done, p);
        assert p !in done ==> SameAt(base, now, f, p);
      }
    }
  }

  lemma MergedIsSound(parent: seq<int>, base: Books, now: Books, f: FileName, u: Update,
                      origin: int, done: set<int>, q: int)
    requires Shape(parent, base) && Shape(parent, now) && Ref(parent, origin) && ValidUpdate(u)
    requires DoneOk(parent, base, origin, done) && q in done
    requires Good(parent, base, f) && SteppedAt(base, now, f, u, done, q)
    ensures Sound(UsageOf(now, q, f), FactsOf(now, q, f))
  {
    StepKeepsSound(UsageOf(base, q, f), FactsOf(base, q, f), u, UsageOf(now, q, f), SpoilAt(base, f, u, done, q));
  }

  lemma MergedCovers(base: Books, now: Books, f: FileName, u: Update, done: set<int>, p: int, q: int)
    requires |base.usages| == |base.known| == |now.usages| == |now.known|
    requires forall c :: c in done ==> 0 <= c < |base.usages|
    requires p in done && q in done && p <= q
    requires SteppedAt(base, now, f, u, done, p) && SteppedAt(base, now, f, u, done, q)
    requires Covers(UsageOf(base, p, f), FactsOf(base, p, f), UsageOf(base, q, f), FactsOf(base, q, f))
    ensures Covers(UsageOf(now, p, f), FactsOf(now, p, f), UsageOf(now, q, f), FactsOf(now, q, f))
  {
    CoversAfterBothStep(UsageOf(base, q, f), FactsOf(base, q, f), UsageOf(now, q, f), SpoilAt(base, f, u, done, q),
                        UsageOf(base, p, f), FactsOf(base, p, f), UsageOf(now, p, f), SpoilAt(base, f, u, done, p), u);
  }

  /** A process above the level `last` that the early exit leaves alone. */
  ghost predicate LeftAlone(parent: seq<int>, can: seq<bool>, last: int, q: int)
    requires Tree(parent) && |can| == |parent| && IsProc(parent, last)
  {
    0 <= q < last && can[q] && AtOrAbove(parent, q, last)
  }

  /** The books after an early exit at `last`: nothing is merged above it, yet the observation counts
      as made there. */
  ghost function Noted(parent: seq<int>, b: Books, f: FileName, u: Update, last: int, spoil: bool): (r: Books)
    requires Shape(parent, b) && IsProc(parent, last)
    ensures Shape(parent, r) && r.can == b.can && r.usages == b.usages
  {
    b.(known := seq(|b.known|, q requires 0 <= q < |b.known| =>
                      if LeftAlone(parent, b.can, last, q)
                      then b.known[q][f := Learn(UsageOf(b, q, f), FactsOf(b, q, f), u, spoil)]
                      else b.known[q]))
  }

  lemma NotedFacts(parent: seq<int>, b: Books, f: FileName, u: Update, last: int, spoil: bool, q: int)
    requires Shape(parent, b) && IsProc(parent, last) && IsProc(parent, q)
    ensures UsageOf(Noted(parent, b, f, u, last, spoil), q, f) == UsageOf(b, q, f)
    ensures FactsOf(Noted(parent, b, f, u, last, spoil), q, f) ==
            if LeftAlone(parent, b.can, last, q) then Learn(UsageOf(b, q, f), FactsOf(b, q, f), u, spoil)
            else FactsOf(b, q, f)
  {
  }

  /** The loop stops after merging at `last`, the usage of which did not change. */
  ghost predicate Exits(parent: seq<int>, base: Books, now: Books, f: FileName, u: Update,
                        origin: int, done: set<int>, last: int)
    requires Shape(parent, base) && Shape(parent, now) && Ref(parent, origin)
  {
    && Fewer(now.can, base.can)
    && DoneOk(parent, base, origin, done)
    && last in done && UsageOf(now, last, f) == UsageOf(base, last, f)
    && (forall c :: c in done ==> last <= c && SteppedAt(base, now, f, u, done, c))
    && (forall q :: 0 <= q < |parent| && q !in done ==> SameAt(base, now, f, q))
    && (forall q :: 0 <= q < |parent| && last < q && now.can[q] && AtOrAbove(parent, q, origin) ==> q in done)
  }

  /** The early exit loses nothing. */
  lemma EarlyExitIsGood(parent: seq<int>, base: Books, now: Books, f: FileName, u: Update,
                        origin: int, done: set<int>, last: int)
    requires Shape(parent, base) && Shape(parent, now) && Ref(parent, origin) && ValidUpdate(u)
    requires Exits(parent, base, now, f, u, origin, done, last) && Good(parent, base, f)
    ensures Good(parent, Noted(parent, now, f, u, last, SpoilAt(base, f, u, done, last)), f)
  {
    var later := Noted(parent, now, f, u, last, SpoilAt(base, f, u, done, last));
    forall q | 0 <= q < |later.can| && later.can[q]
      ensures Sound(UsageOf(later, q, f), FactsOf(later, q, f))
    {
      EarlyExitSound(parent, base, now, f, u, origin, done, last, q);
    }
    forall p, q | 0 <= p < |later.can| && later.can[p] && 0 <= q < |later.can| && later.can[q] &&
      AtOrAbove(parent, p, q)
      ensures Covers(UsageOf(later, p, f), FactsOf(later, p, f), UsageOf(later, q, f), FactsOf(later, q, f))
    {
      EarlyExitCovers(parent, base, now, f, u, origin, done, last, p, q);
    }
  }

  lemma EarlyExitSound(parent: seq<int>, base: Books, now: Books, f: FileName, u: Update,
                       origin: int, done: set<int>, last: int, q: int)
    requires Shape(parent, base) && Shape(parent, now) && Ref(parent, origin) && ValidUpdate(u)
    requires Exits(parent, base, now, f, u, origin, done, last) && Good(parent, base, f)
    requires IsProc(parent, q) && now.can[q]
    ensures var later := Noted(parent, now, f, u, last, SpoilAt(base, f, u, done, last));
      Sound(UsageOf(later, q, f), FactsOf(later, q, f))
  {
    var spoil := SpoilAt(base, f, u, done, last);
    NotedFacts(parent, now, f, u, last, spoil, q);
    if q in done {
      MergedIsSound(parent, base, now, f, u, origin, done, q);
    } else {
      assert SameAt(base, now, f, q);
      if LeftAlone(parent, now.can, last, q) {
        assert SteppedAt(base, now, f, u, done, last);
        UnchangedLevelSuffices(UsageOf(base, last, f), FactsOf(base, last, f), u, UsageOf(now, last, f),
                               UsageOf(base, q, f), FactsOf(base, q, f), spoil);
      }
    }
  }

  lemma EarlyExitCovers(parent: seq<int>, base: Books, now: Books, f: FileName, u: Update,
                        origin: int, done: set<int>, last: int, p: int, q: int)
    requires Shape(parent, base) && Shape(parent, now) && Ref(parent, origin)
    requires Exits(parent, base, now, f, u, origin, done, last) && Good(parent, base, f)
    requires IsProc(parent, p) && now.can[p] && IsProc(parent, q) && now.can[q] && AtOrAbove(parent, p, q)
    ensures var later := Noted(parent, now, f, u, last, SpoilAt(base, f, u, done, last));
      Covers(UsageOf(later, p, f), FactsOf(later, p, f), UsageOf(later, q, f), FactsOf(later, q, f))
  {
    var spoil := SpoilAt(base, f, u, done, last);
    NotedFacts(parent, now, f, u, last, spoil, p);
    NotedFacts(parent, now, f, u, last, spoil, q);
    AboveIsOlder(parent, p, q);
    assert Covers(UsageOf(base, p, f), FactsOf(base, p, f), UsageOf(base, q, f), FactsOf(base, q, f));
    if q in done {
      EarlyExitCoversDone(parent, base, now, f, u, origin, done, last, p, q);
    } else if LeftAlone(parent, now.can, last, q) {
      AboveTransitive(parent, p, q, last);
      assert SameAt(base, now, f, p) && SameAt(base, now, f, q);
      CoversAfterBothStay(UsageOf(base, q, f), FactsOf(base, q, f), spoil, UsageOf(base, p, f), FactsOf(base, p, f),
        spoil, u);
    } else {
      assert SameAt(base, now, f, q);
      assert p in done ==> SteppedAt(base, now, f, u, done, p);
      assert p !in done ==> SameAt(base, now, f, p);
    }
  }

  lemma EarlyExitCoversDone(parent: seq<int>, base: Books, now: Books, f: FileName, u: Update,
                            origin: int, done: set<int>, last: int, p: int, q: int)
    requires Shape(parent, base) && Shape(parent, now) && Ref(parent, origin)
    requires Exits(parent, base, now, f, u, origin, done, last) && Good(parent, base, f)
    requires IsProc(parent, p) && now.can[p] && IsProc(parent, q) && now.can[q] && AtOrAbove(parent, p, q) && q in done
    ensures var later := Noted(parent, now, f, u, last, SpoilAt(base, f, u, done, last));
      Covers(UsageOf(later, p, f), FactsOf(later, p, f), UsageOf(later, q, f), FactsOf(later, q, f))
  {
    var spoil := SpoilAt(base, f, u, done, last);
    NotedFacts(parent, now, f, u, last, spoil, p);
    NotedFacts(parent, now, f, u, last, spoil, q);
    AboveTransitive(parent, p, q, origin);
    AboveIsOlder(parent, p, q);
    assert Covers(UsageOf(base, p, f), FactsOf(base, p, f), UsageOf(base, q, f), FactsOf(base, q, f));
    if p in done {
      MergedCovers(base, now, f, u, done, p, q);
    } else {
      AboveLinear(parent, p, last, origin);
      LeftAloneCovers(parent, base, now, f, u, done, last, p, q);
    }
  }

  lemma LeftAloneCovers(parent: seq<int>, base: Books, now: Books, f: FileName, u: Update,
                        done: set<int>, last: int, p: int, q: int)
    requires Shape(parent, base) && Shape(parent, now)
    requires forall c :: c in done ==> 0 <= c < |base.usages|
    requires IsProc(parent, last) && last in done && q in done && last <= q && IsProc(parent, p)
    requires SteppedAt(base, now, f, u, done, last) && UsageOf(now, last, f) == UsageOf(base, last, f)
    requires SteppedAt(base, now, f, u, done, q) && SameAt(base, now, f, p)
    requires Covers(UsageOf(base, p, f), FactsOf(base, p, f), UsageOf(base, q, f), FactsOf(base, q, f))
    requires Covers(UsageOf(base, p, f), FactsOf(base, p, f), UsageOf(base, last, f), FactsOf(base, last, f))
    ensures Covers(UsageOf(now, p, f),
      Learn(UsageOf(now, p, f), FactsOf(now, p, f), u, SpoilAt(base, f, u, done, last)),
                   UsageOf(now, q, f), FactsOf(now, q, f))
  {
    CoversAfterAncestorStays(UsageOf(base, q, f), FactsOf(base, q, f), UsageOf(now, q, f), SpoilAt(base, f, u, done, q),
                             UsageOf(base, p, f), FactsOf(base, p, f), SpoilAt(base, f, u, done, last), u);
  }

  // ------------------------------------------------------------------------------------------
  // What was recorded as observed, and what was left alone.
  // ------------------------------------------------------------------------------------------

  /** A write or a change of permission bits has been noted. */
  predicate Marks(fu: FileUsage, u: Update) {
    (u.written ==> fu.written) && (u.modeChanged ==> fu.modeChanged)
  }

  /** The observation `u` has been added to the facts of `q`.  They count as spoiled only where they
      already did, or where a merge from `q` down would not conjoin. */
  ghost predicate LoggedAt(parent: seq<int>, base: Books, now: Books, f: FileName, u: Update, origin: int, q: int)
    requires Shape(parent, base) && Shape(parent, now) && Ref(parent, origin) && IsProc(parent, q)
  {
    Marks(UsageOf(now, q, f), u) && LearnedBy(parent, base, now, f, u, origin, q)
  }

  ghost predicate LearnedBy(parent: seq<int>, base: Books, now: Books, f: FileName, u: Update, origin: int, q: int)
    requires Shape(parent, base) && Shape(parent, now) && Ref(parent, origin) && IsProc(parent, q)
  {
    || FactsOf(now, q, f) == Learn(UsageOf(base, q, f), FactsOf(base, q, f), u, false)
    || (&& FactsOf(now, q, f) == Learn(UsageOf(base, q, f), FactsOf(base, q, f), u, true)
        && exists c ::
             q <= c < |base.can| && base.can[c] && AtOrAbove(parent, c, origin) && Irregular(UsageOf(base, c, f), u))
  }

  /** Every process at or above `origin` that can still be shortcut has been told. */
  ghost predicate Logged(parent: seq<int>, base: Books, now: Books, f: FileName, u: Update, origin: int)
    requires Shape(parent, base) && Shape(parent, now) && Ref(parent, origin)
  {
    forall q :: 0 <= q < |parent| && now.can[q] && AtOrAbove(parent, q, origin) ==>
      LoggedAt(parent, base, now, f, u, origin, q)
  }

  lemma AllMergedIsLogged(parent: seq<int>, base: Books, now: Books, f: FileName, u: Update,
                          origin: int, done: set<int>, proc: int)
    requires Shape(parent, base) && Shape(parent, now) && Ref(parent, origin)
    requires Progress(parent, base, now, f, u, origin, done, proc)
    requires forall q :: 0 <= q < |parent| && now.can[q] && AtOrAbove(parent, q, origin) ==> q in done
    ensures Logged(parent, base, now, f, u, origin)
  {
    forall q | 0 <= q < |parent| && now.can[q] && AtOrAbove(parent, q, origin)
      ensures LoggedAt(parent, base, now, f, u, origin, q)
    {
      assert SteppedAt(base, now, f, u, done, q);
    }
  }

  /** What is above a level that did not change has noted the write before. */
  lemma LeftAloneIsMarked(parent: seq<int>, base: Books, now: Books, f: FileName, u: Update,
                          done: set<int>, last: int, q: int)
    requires Shape(parent, base) && Shape(parent, now) && Good(parent, base, f)
    requires IsProc(parent, last) && IsProc(parent, q) && base.can[last] && base.can[q] && AtOrAbove(parent, q, last)
    requires forall c :: c in done ==> 0 <= c < |base.usages|
    requires SteppedAt(base, now, f, u, done, last) && UsageOf(now, last, f) == UsageOf(base, last, f)
    ensures Marks(UsageOf(base, q, f), u)
  {
    assert Covers(UsageOf(base, q, f), FactsOf(base, q, f), UsageOf(base, last, f), FactsOf(base, last, f));
  }

  lemma EarlyExitIsLoggedAt(parent: seq<int>, base: Books, now: Books, f: FileName, u: Update,
                            origin: int, done: set<int>, last: int, q: int)
    requires Shape(parent, base) && Shape(parent, now) && Ref(parent, origin) && IsProc(parent, q)
    requires Exits(parent, base, now, f, u, origin, done, last) && Good(parent, base, f)
    requires now.can[q] && AtOrAbove(parent, q, origin)
    ensures LoggedAt(parent, base, Noted(parent, now, f, u, last, SpoilAt(base, f, u, done, last)), f, u, origin, q)
  {
    NotedFacts(parent, now, f, u, last, SpoilAt(base, f, u, done, last), q);
    if q in done {
      assert SteppedAt(base, now, f, u, done, q);
    } else {
      AboveLinear(parent, q, last, origin);
      assert LeftAlone(parent, now.can, last, q) && SameAt(base, now, f, q);
      LeftAloneIsMarked(parent, base, now, f, u, done, last, q);
    }
  }

  lemma EarlyExitIsLogged(parent: seq<int>, base: Books, now: Books, f: FileName, u: Update,
                          origin: int, done: set<int>, last: int)
    requires Shape(parent, base) && Shape(parent, now) && Ref(parent, origin)
    requires Exits(parent, base, now, f, u, origin, done, last) && Good(parent, base, f)
    ensures Logged(parent, base, Noted(parent, now, f, u, last, SpoilAt(base, f, u, done, last)), f, u, origin)
  {
    forall q | 0 <= q < |parent| && now.can[q] && AtOrAbove(parent, q, origin)
      ensures LoggedAt(parent, base, Noted(parent, now, f, u, last, SpoilAt(base, f, u, done, last)), f, u, origin, q)
    {
      EarlyExitIsLoggedAt(parent, base, now, f, u, origin, done, last, q);
    }
  }

  /** Nothing recorded about `g` has changed. */
  ghost predicate SameFor(b: Books, b': Books, g: FileName) {
    && |b.usages| == |b.known| == |b'.usages| == |b'.known|
    && forall q :: 0 <= q < |b.usages| ==> SameAt(b, b', g, q)
  }

  /** No observation is forgotten, and what is written stays written. */
  ghost predicate GrowsAt(b: Books, b': Books, g: FileName, q: int)
    requires |b.usages| == |b.known| == |b'.usages| == |b'.known|
    requires 0 <= q < |b.usages|
  {
    && FactsOf(b, q, g).content <= FactsOf(b', q, g).content && FactsOf(b, q, g).mode <= FactsOf(b', q, g).mode
    && (FactsOf(b, q, g).spoiled ==> FactsOf(b', q, g).spoiled)
    && (UsageOf(b, q, g).written ==> UsageOf(b', q, g).written)
    && (UsageOf(b, q, g).modeChanged ==> UsageOf(b', q, g).modeChanged)
  }

  ghost predicate Grows(b: Books, b': Books) {
    && |b.usages| == |b.known| == |b'.usages| == |b'.known|
    && forall g, q :: 0 <= q < |b.usages| ==> GrowsAt(b, b', g, q)
  }

  /** Nothing recorded about other paths has changed, and nothing about these is forgotten. */
  ghost predicate OnlyTouches(b: Books, b': Books, fs: set<FileName>) {
    Grows(b, b') && forall g :: g !in fs ==> SameFor(b, b', g)
  }

  lemma OnlyTouchesTransitive(b: Books, b': Books, b'': Books, fs: set<FileName>)
    requires OnlyTouches(b, b', fs) && OnlyTouches(b', b'', fs)
    ensures OnlyTouches(b, b'', fs)
  {
    forall g, q | 0 <= q < |b.usages| ensures GrowsAt(b, b'', g, q) {
      assert GrowsAt(b, b', g, q) && GrowsAt(b', b'', g, q);
    }
    forall g | g !in fs ensures SameFor(b, b'', g) {
      assert SameFor(b, b', g) && SameFor(b', b'', g);
      forall q | 0 <= q < |b.usages| ensures SameAt(b, b'', g, q) {
        assert SameAt(b, b', g, q) && SameAt(b', b'', g, q);
      }
    }
  }

  lemma OnlyTouchesMore(b: Books, b': Books, fs: set<FileName>, fs': set<FileName>)
    requires OnlyTouches(b, b', fs) && fs <= fs'
    ensures OnlyTouches(b, b', fs')
  {
  }

  lemma FewerOnlyTouches(b: Books, b': Books, fs: set<FileName>)
    requires b.usages == b'.usages && b.known == b'.known && |b.usages| == |b.known|
    ensures OnlyTouches(b, b', fs)
  {
  }

  lemma PutOnlyTouches(b: Books, p: int, f: FileName, fu: FileUsage, u: Update, spoil: bool)
    requires 0 <= p < |b.usages| == |b.known| && Stepped(UsageOf(b, p, f), u, fu)
    ensures OnlyTouches(b, Put(b, p, f, fu, Learn(UsageOf(b, p, f), FactsOf(b, p, f), u, spoil)), {f})
  {
    var b' := Put(b, p, f, fu, Learn(UsageOf(b, p, f), FactsOf(b, p, f), u, spoil));
    forall g | g !in {f} ensures SameFor(b, b', g) {
      forall q | 0 <= q < |b.usages| ensures SameAt(b, b', g, q) {
      }
    }
  }

  lemma NotedOnlyTouches(parent: seq<int>, b: Books, f: FileName, u: Update, last: int, spoil: bool)
    requires Shape(parent, b) && IsProc(parent, last)
    ensures OnlyTouches(b, Noted(parent, b, f, u, last, spoil), {f})
  {
    var b' := Noted(parent, b, f, u, last, spoil);
    forall g | g !in {f} ensures SameFor(b, b', g) {
      forall q | 0 <= q < |b.usages| ensures SameAt(b, b', g, q) {
      }
    }
  }

  lemma UntouchedStaysGood(parent: seq<int>, b: Books, b': Books, g: FileName)
    requires Shape(parent, b) && Shape(parent, b') && Good(parent, b, g)
    requires SameFor(b, b', g) && Fewer(b'.can, b.can)
    ensures Good(parent, b', g)
  {
    forall q | 0 <= q < |b.usages|
      ensures UsageOf(b, q, g) == UsageOf(b', q, g) && FactsOf(b, q, g) == FactsOf(b', q, g)
    {
      assert SameAt(b, b', g, q);
    }
  }

  /** A registration of `f` in progress is not disturbed by one of another path. */
  lemma UntouchedStaysInProgress(parent: seq<int>, base: Books, b: Books, b': Books, f: FileName, u: Update,
                                 origin: int, done: set<int>, proc: int)
    requires Shape(parent, base) && Shape(parent, b) && Shape(parent, b') && Ref(parent, origin)
    requires Progress(parent, base, b, f, u, origin, done, proc)
    requires SameFor(b, b', f) && Fewer(b'.can, b.can)
    ensures Progress(parent, base, b', f, u, origin, done, proc)
  {
    forall c | c in done ensures SteppedAt(base, b', f, u, done, c) {
      assert SteppedAt(base, b, f, u, done, c) && SameAt(b, b', f, c);
    }
    forall q | 0 <= q < |parent| && q !in done ensures SameAt(base, b', f, q) {
      assert SameAt(base, b, f, q) && SameAt(b, b', f, q);
    }
  }

  lemma FewerStaysGood(parent: seq<int>, b: Books, can: seq<bool>, f: FileName)
    requires Shape(parent, b) && Good(parent, b, f) && Fewer(can, b.can)
    ensures Good(parent, b.(can := can), f)
  {
  }

  // ------------------------------------------------------------------------------------------
  // The next level.
  // ------------------------------------------------------------------------------------------

  /** The registration may start at the closest process that can be shortcut. */
  lemma ProgressFromClosest(parent: seq<int>, base: Books, now: Books, f: FileName, u: Update,
                            origin: int, done: set<int>, p: int, proc: int)
    requires Shape(parent, base) && Shape(parent, now) && Ref(parent, origin)
    requires Progress(parent, base, now, f, u, origin, done, p)
    requires IsProc(parent, p) && AtOrAbove(parent, p, origin) && proc == Closest(parent, now.can, p)
    ensures Progress(parent, base, now, f, u, origin, done, proc)
    ensures proc != NONE ==> base.can[proc] && AtOrAbove(parent, proc, origin)
    ensures forall q :: 0 <= q < |parent| && proc < q && now.can[q] && AtOrAbove(parent, q, origin) ==> q in done
  {
    if !now.can[p] { SkippedAreDone(parent, now.can, origin, p); }
    SkipsToClosest(parent, now.can, p);
    SkipsIsAbove(parent, now.can, p, proc);
    AboveTransitive(parent, proc, p, origin);
  }

  lemma NextLevel(parent: seq<int>, base: Books, can: seq<bool>, origin: int, proc: int)
    requires Shape(parent, base) && Fewer(can, base.can) && Ref(parent, origin)
    requires IsProc(parent, proc) && AtOrAbove(parent, proc, origin)
    ensures var next := Nearest(parent, can, proc); next != NONE ==> base.can[next] && AtOrAbove(parent, next, origin)
  {
    SkipsToClosest(parent, can, parent[proc]);
    NearestIsAbove(parent, can, origin, proc);
  }

  lemma NearestIsAbove(parent: seq<int>, can: seq<bool>, origin: int, proc: int)
    requires Tree(parent) && |can| == |parent| && Ref(parent, origin) && IsProc(parent, proc)
    requires AtOrAbove(parent, proc, origin)
    ensures AtOrAbove(parent, Nearest(parent, can, proc), origin)
  {
    var next := Nearest(parent, can, proc);
    SkipsToClosest(parent, can, parent[proc]);
    SkipsIsAbove(parent, can, parent[proc], next);
    AboveTransitive(parent, parent[proc], proc, origin);
    AboveTransitive(parent, next, parent[proc], origin);
  }

  lemma ProgressAbove(parent: seq<int>, base: Books, now: Books, f: FileName, u: Update,
                      origin: int, done: set<int>, proc: int)
    requires Shape(parent, base) && Shape(parent, now) && Ref(parent, origin)
    requires IsProc(parent, proc) && !now.can[proc] && AtOrAbove(parent, proc, origin)
    requires Progress(parent, base, now, f, u, origin, done, proc)
    ensures var next := Nearest(parent, now.can, proc);
      && Progress(parent, base, now, f, u, origin, done, next)
      && AtOrAbove(parent, next, origin)
      && forall q :: 0 <= q < |parent| && next < q && now.can[q] && AtOrAbove(parent, q, origin) ==> q in done
  {
    SkippedAreDone(parent, now.can, origin, proc);
    NearestIsAbove(parent, now.can, origin, proc);
  }

  lemma DisabledInProgress(parent: seq<int>, base: Books, before: Books, now: Books, f: FileName, u: Update,
                           origin: int, done: set<int>, proc: int)
    requires Shape(parent, base) && Shape(parent, before) && Shape(parent, now)
    requires Ref(parent, origin) && IsProc(parent, proc) && AtOrAbove(parent, proc, origin)
    requires Progress(parent, base, before, f, u, origin, done, proc)
    requires now.usages == before.usages && now.known == before.known && now.can == before.can[proc := false]
    ensures var next := Nearest(parent, now.can, proc);
      && Progress(parent, base, now, f, u, origin, done, next)
      && AtOrAbove(parent, next, origin)
      && forall q :: 0 <= q < |parent| && next < q && now.can[q] && AtOrAbove(parent, q, origin) ==> q in done
  {
    FewerOnlyTouches(before, now, {});
    assert SameFor(before, now, f);
    UntouchedStaysInProgress(parent, base, before, now, f, u, origin, done, proc);
    ProgressAbove(parent, base, now, f, u, origin, done, proc);
  }

  lemma DisabledChainIsMerged(parent: seq<int>, base: Books, before: Books, f: FileName, u: Update,
                              origin: int, done: set<int>, proc: int, p: int)
    requires Shape(parent, base) && Shape(parent, before) && Ref(parent, origin)
    requires IsProc(parent, p) && proc <= p && AtOrAbove(parent, p, origin)
    requires Progress(parent, base, before, f, u, origin, done, proc)
    ensures var now := before.(can := DisableChain(parent, before.can, p, NONE));
      && Fewer(now.can, before.can)
      && Progress(parent, base, now, f, u, origin, done, proc)
      && forall q :: 0 <= q < |parent| && now.can[q] && AtOrAbove(parent, q, origin) ==> q in done
  {
    var now := before.(can := DisableChain(parent, before.can, p, NONE));
    DisableChainFewer(parent, before.can, p, NONE);
    forall q | 0 <= q < |parent| && now.can[q] && AtOrAbove(parent, q, origin)
      ensures q in done
    {
      if q <= p {
        AboveLinear(parent, q, p, origin);
        AboveIsOnChain(parent, p, q);
        DisableChainExact(parent, before.can, p, NONE, q);
      }
    }
    forall q | 0 <= q < |parent| && q !in done ensures SameAt(base, now, f, q) {
      assert SameAt(base, before, f, q);
    }
    forall c | c in done ensures SteppedAt(base, now, f, u, done, c) {
      assert SteppedAt(base, before, f, u, done, c);
    }
  }

  lemma {:induction false} AboveIsOnChain(parent: seq<int>, p: int, q: int)
    requires Tree(parent) && Ref(parent, p) && AtOrAbove(parent, q, p) && q != NONE
    ensures OnChain(parent, p, NONE, q)
    decreases p
  {
    if q != p { AboveIsOnChain(parent, parent[p], q); }
  }

  lemma NewProcessStaysGood(parent: seq<int>, parent': seq<int>, b: Books, b': Books, f: FileName)
    requires Shape(parent, b) && Shape(parent', b') && Good(parent, b, f)
    requires |parent'| == |parent| + 1 && parent <= parent' && b'.can == b.can + [true]
    requires b'.usages == b.usages + [map[]] && b'.known == b.known + [map[]]
    ensures Good(parent', b', f)
  {
    var youngest := |parent|;
    assert UsageOf(b', youngest, f) == NOTHING_KNOWN && FactsOf(b', youngest, f) == NO_FACTS;
    NothingKnownIsSound();
    forall q | 0 <= q < youngest
      ensures UsageOf(b', q, f) == UsageOf(b, q, f) && FactsOf(b', q, f) == FactsOf(b, q, f)
    {
    }
    forall p, q | 0 <= p < |b'.can| && b'.can[p] && 0 <= q < |b'.can| && b'.can[q] && AtOrAbove(parent', p, q)
      ensures Covers(UsageOf(b', p, f), FactsOf(b', p, f), UsageOf(b', q, f), FactsOf(b', q, f))
    {
      AboveIsOlder(parent', p, q);
      if q < youngest { AboveInLargerTree(parent, parent', p, q); }
    }
  }
}
