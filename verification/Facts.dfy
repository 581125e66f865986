/** The observations behind a usage.

    For one process and one path, `Facts` is the set of updates registered at or below the process
    before the path was first written below it (and, for permission bits, before they were first
    changed).  A usage is sound when the entries satisfying it are exactly those satisfying the
    facts.  The lemmas say how one level of a registration keeps that, and why a level whose usage
    does not change already tells everything its ancestors need to know. */
module FactSets {
  import opened Options
  import opened FileUsages

  /** `spoiled`: a merge that does not conjoin has happened at or below this process. */
  datatype Facts = Facts(content: set<Update>, mode: set<Update>, spoiled: bool)

  const NO_FACTS := Facts({}, {}, false)

  ghost predicate AllFit(e: Entry, us: set<Update>) {
    forall u :: u in us ==> UpdateFits(e, u)
  }

  ghost predicate AllModesFit(e: Entry, us: set<Update>) {
    forall u :: u in us ==> ModeFits(e, u.mode, u.modeMask)
  }

  /** Some entry satisfies all of them: they can all be true of one initial state. */
  ghost predicate Consistent(us: set<Update>) {
    exists e :: AllFit(e, us)
  }

  ghost predicate ModesConsistent(us: set<Update>) {
    exists e :: AllModesFit(e, us)
  }

  /** The usage records exactly the conjunction of the facts. */
  ghost predicate Exact(i: FileInfo, us: set<Update>) {
    Consistent(us) ==> forall e :: InfoFits(e, i) <==> AllFit(e, us)
  }

  ghost predicate ModeExact(i: FileInfo, us: set<Update>) {
    ModesConsistent(us) ==> forall e :: ModeFits(e, i.mode, i.modeMask) <==> AllModesFit(e, us)
  }

  ghost predicate Sound(fu: FileUsage, k: Facts) {
    ValidInfo(fu.initial) && (k.spoiled || Exact(fu.initial, k.content)) && ModeExact(fu.initial, k.mode)
  }

  /** What the registration of `u` adds to the facts of a process with usage `fu`. */
  ghost function Learn(fu: FileUsage, k: Facts, u: Update, spoil: bool): Facts {
    Facts(if fu.written then k.content else k.content + {u},
          if fu.modeChanged then k.mode else k.mode + {u},
          k.spoiled || (spoil && !fu.written))
  }

  predicate Irregular(fu: FileUsage, u: Update) {
    !fu.written && !Conjoins(fu.initial, u)
  }

  /** What a usage (`fu`, `k`) of a process promises about the usage of its ancestors. */
  ghost predicate Covers(fu': FileUsage, k': Facts, fu: FileUsage, k: Facts) {
    && (fu'.written || (!fu.written && k.content <= k'.content && (k.spoiled ==> k'.spoiled)))
    && (fu'.modeChanged || (!fu.modeChanged && k.mode <= k'.mode))
  }

  /** The usage after merging `u` at this level, up to the propagated bit. */
  ghost predicate Stepped(fu: FileUsage, u: Update, after: FileUsage) {
    GenerationFits(fu, u) && Merge(fu, u, after.propagated) == Some(after)
  }

  lemma NothingKnownIsSound()
    ensures Sound(NOTHING_KNOWN, NO_FACTS)
  {
    var e: Entry := Missing;
    assert AllFit(e, {}) && AllModesFit(e, {});
  }

  lemma ContentStep(i: FileInfo, us: set<Update>, u: Update)
    requires ValidInfo(i) && ValidUpdate(u) && Conjoins(i, u) && Exact(i, us)
    requires MergeInitial(i, u).Some?
    ensures Exact(MergeInitial(i, u).value, us + {u})
  {
    if Consistent(us + {u}) {
      var truth :| AllFit(truth, us + {u});
      assert AllFit(truth, us);
      forall e ensures InfoFits(e, MergeInitial(i, u).value) <==> AllFit(e, us + {u}) {
        MergeIsMeet(i, u, truth, e);
        assert AllFit(e, us + {u}) <==> AllFit(e, us) && UpdateFits(e, u);
      }
    }
  }

  lemma ModeStep(i: FileInfo, us: set<Update>, u: Update)
    requires i.mode <= i.modeMask && u.mode <= u.modeMask && ModeExact(i, us)
    ensures ModeExact(i.SetModeBits(u.mode, u.modeMask), us + {u})
  {
    var j := i.SetModeBits(u.mode, u.modeMask);
    if ModesConsistent(us + {u}) {
      var truth :| AllModesFit(truth, us + {u});
      assert AllModesFit(truth, us);
      forall e ensures ModeFits(e, j.mode, j.modeMask) <==> AllModesFit(e, us + {u}) {
        assert AllModesFit(e, us + {u}) <==> AllModesFit(e, us) && ModeFits(e, u.mode, u.modeMask);
        SetModeBitsMeet(i, u, truth, e);
      }
    }
  }

  lemma SetModeBitsMeet(i: FileInfo, u: Update, truth: Entry, e: Entry)
    requires ModeFits(truth, i.mode, i.modeMask) && ModeFits(truth, u.mode, u.modeMask)
    ensures var j := i.SetModeBits(u.mode, u.modeMask);
      ModeFits(e, j.mode, j.modeMask) <==> ModeFits(e, i.mode, i.modeMask) && ModeFits(e, u.mode, u.modeMask)
  {
  }

  /** Merging at one level keeps the usage sound. */
  lemma StepKeepsSound(fu: FileUsage, k: Facts, u: Update, after: FileUsage, spoil: bool)
    requires Sound(fu, k) && ValidUpdate(u) && Stepped(fu, u, after)
    requires Irregular(fu, u) ==> spoil
    ensures Sound(after, Learn(fu, k, u, spoil))
  {
    if !fu.written {
      MergeInitialKeepsValid(fu.initial, u);
      if !k.spoiled && !spoil { ContentStep(fu.initial, k.content, u); }
    }
    if !fu.modeChanged { ModeStep(fu.initial, k.mode, u); }
  }

  /** If a level's usage does not change, the usage of an ancestor that is not merged at all already
      implies the new observation. */
  lemma UnchangedLevelSuffices(fu: FileUsage, k: Facts, u: Update, after: FileUsage, fu': FileUsage, k': Facts,
                               spoil: bool)
    requires Sound(fu, k) && Sound(fu', k') && Covers(fu', k', fu, k)
    requires ValidUpdate(u) && Stepped(fu, u, after) && after == fu
    requires Irregular(fu, u) ==> spoil
    ensures Sound(fu', Learn(fu', k', u, spoil))
  {
    StepKeepsSound(fu, k, u, after, spoil);
    if !fu'.written && !k'.spoiled && !spoil && Consistent(k'.content + {u}) {
      var truth :| AllFit(truth, k'.content + {u});
      assert AllFit(truth, k'.content) && AllFit(truth, k.content + {u});
      forall e ensures InfoFits(e, fu'.initial) <==> AllFit(e, k'.content + {u}) {
        if InfoFits(e, fu'.initial) { assert AllFit(e, k.content); assert AllFit(e, k.content + {u}); }
      }
    }
    if !fu'.modeChanged && ModesConsistent(k'.mode + {u}) {
      var truth :| AllModesFit(truth, k'.mode + {u});
      assert AllModesFit(truth, k'.mode) && AllModesFit(truth, k.mode + {u});
      forall e ensures ModeFits(e, fu'.initial.mode, fu'.initial.modeMask) <==> AllModesFit(e, k'.mode + {u}) {
        if AllModesFit(e, k'.mode) { assert AllModesFit(e, k.mode); assert AllModesFit(e, k.mode + {u}); }
      }
    }
  }

  /** The three ways in which a registration may leave a descendant and its ancestor. */
  lemma CoversAfterBothStep(fu: FileUsage, k: Facts, after: FileUsage, s: bool,
                            fu': FileUsage, k': Facts, after': FileUsage, s': bool, u: Update)
    requires Covers(fu', k', fu, k) && Stepped(fu, u, after) && Stepped(fu', u, after') && (s ==> s')
    ensures Covers(after', Learn(fu', k', u, s'), after, Learn(fu, k, u, s))
  {
  }

  lemma CoversAfterAncestorStays(fu: FileUsage, k: Facts, after: FileUsage, s: bool,
                                 fu': FileUsage, k': Facts, s': bool, u: Update)
    requires Covers(fu', k', fu, k) && Stepped(fu, u, after) && (s ==> s')
    requires (u.written ==> fu'.written) && (u.modeChanged ==> fu'.modeChanged)
    ensures Covers(fu', Learn(fu', k', u, s'), after, Learn(fu, k, u, s))
  {
  }

  lemma CoversAfterBothStay(fu: FileUsage, k: Facts, s: bool, fu': FileUsage, k': Facts, s': bool, u: Update)
    requires Covers(fu', k', fu, k) && (s ==> s')
    ensures Covers(fu', Learn(fu', k', u, s'), fu, Learn(fu, k, u, s))
  {
  }
}
