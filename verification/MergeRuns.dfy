/** Merging a whole sequence of updates of one path.

    For updates that are true of one real initial state, the merge never fails and records exactly
    the conjunction of what was observed up to and including the first write. */
module MergeRuns {
  import opened Options
  import opened FileUsages
  import opened FactSets

  /** Every merge of the run is one the callers may ask for. */
  predicate RunFits(fu: FileUsage, us: seq<Update>, propagated: bool)
    decreases |us|
  {
    us == [] ||
    (GenerationFits(fu, us[0]) &&
     (Merge(fu, us[0], propagated).Some? ==> RunFits(Merge(fu, us[0], propagated).value, us[1..], propagated)))
  }

  function MergeAll(fu: FileUsage, us: seq<Update>, propagated: bool): Option<FileUsage>
    requires RunFits(fu, us, propagated)
    decreases |us|
  {
    if us == [] then Some(fu)
    else
      var r := Merge(fu, us[0], propagated);
      if r.None? then None else MergeAll(r.value, us[1..], propagated)
  }

  /** No merge of the run forgets or ignores a fact. */
  predicate RunConjoins(fu: FileUsage, us: seq<Update>, propagated: bool)
    requires RunFits(fu, us, propagated)
    decreases |us|
  {
    us == [] || fu.written ||
    (Conjoins(fu.initial, us[0]) &&
     (Merge(fu, us[0], propagated).Some? ==> RunConjoins(Merge(fu, us[0], propagated).value, us[1..], propagated)))
  }

  /** The updates up to and including the first that writes. */
  function UpToWrite(us: seq<Update>): seq<Update>
    decreases |us|
  {
    if us == [] then [] else if us[0].written then [us[0]] else [us[0]] + UpToWrite(us[1..])
  }

  /** The updates up to and including the first that changes the permissions. */
  function UpToModeChange(us: seq<Update>): seq<Update>
    decreases |us|
  {
    if us == [] then [] else if us[0].modeChanged then [us[0]] else [us[0]] + UpToModeChange(us[1..])
  }

  function ElementsOf(us: seq<Update>): set<Update> {
    set u | u in us
  }

  /** What a process with usage `fu` and facts `k` knows after the run. */
  ghost function LearnAll(fu: FileUsage, k: Facts, us: seq<Update>): Facts {
    Facts(if fu.written then k.content else k.content + ElementsOf(UpToWrite(us)),
          if fu.modeChanged then k.mode else k.mode + ElementsOf(UpToModeChange(us)),
          k.spoiled)
  }

  lemma LearnAllStep(fu: FileUsage, k: Facts, us: seq<Update>, propagated: bool)
    requires us != [] && GenerationFits(fu, us[0]) && Merge(fu, us[0], propagated).Some?
    ensures LearnAll(fu, k, us) ==
            LearnAll(Merge(fu, us[0], propagated).value, Learn(fu, k, us[0], false), us[1..])
  {
    var rest := us[1..];
    assert ElementsOf([us[0]] + UpToWrite(rest)) == {us[0]} + ElementsOf(UpToWrite(rest));
    assert ElementsOf([us[0]] + UpToModeChange(rest)) == {us[0]} + ElementsOf(UpToModeChange(rest));
    assert ElementsOf([us[0]]) == {us[0]};
  }

  /** Every run keeps the usage sound. */
  lemma {:induction false} RunKeepsSound(fu: FileUsage, k: Facts, us: seq<Update>, propagated: bool)
    requires Sound(fu, k) && (forall u :: u in us ==> ValidUpdate(u))
    requires RunFits(fu, us, propagated) && RunConjoins(fu, us, propagated)
    requires MergeAll(fu, us, propagated).Some?
    ensures Sound(MergeAll(fu, us, propagated).value, LearnAll(fu, k, us))
    decreases |us|
  {
    if us == [] {
      assert LearnAll(fu, k, us) == k;
    } else {
      var r := Merge(fu, us[0], propagated).value;
      StepKeepsSound(fu, k, us[0], r, false);
      WrittenConjoins(r, us[1..], propagated);
      RunKeepsSound(r, Learn(fu, k, us[0], false), us[1..], propagated);
      LearnAllStep(fu, k, us, propagated);
    }
  }

  lemma WrittenConjoins(fu: FileUsage, us: seq<Update>, propagated: bool)
    requires RunFits(fu, us, propagated)
    ensures fu.written ==> RunConjoins(fu, us, propagated)
  {
  }

  /** Updates that are true of one entry never contradict each other. */
  lemma {:induction false} TrueRunSucceeds(fu: FileUsage, k: Facts, us: seq<Update>, propagated: bool, truth: Entry)
    requires Sound(fu, k) && !k.spoiled && (forall u :: u in us ==> ValidUpdate(u))
    requires RunFits(fu, us, propagated) && RunConjoins(fu, us, propagated)
    requires !fu.written ==> AllFit(truth, k.content) && AllFit(truth, ElementsOf(UpToWrite(us)))
    ensures MergeAll(fu, us, propagated).Some?
    decreases |us|
  {
    if us != [] {
      if !fu.written {
        assert us[0] in ElementsOf(UpToWrite(us));
        MergeIsMeet(fu.initial, us[0], truth, truth);
      }
      var r := Merge(fu, us[0], propagated).value;
      StepKeepsSound(fu, k, us[0], r, false);
      WrittenConjoins(r, us[1..], propagated);
      if !r.written {
        forall u | u in UpToWrite(us[1..]) ensures u in ElementsOf(UpToWrite(us)) {}
      }
      TrueRunSucceeds(r, Learn(fu, k, us[0], false), us[1..], propagated, truth);
    }
  }

  /** The main result: merged from nothing, a run that is true of one real initial state up to its
      first write succeeds, and an entry satisfies what it records exactly when it satisfies every
      observation up to and including that write (for permission bits: that permission change). */
  lemma MergedRunIsExactConjunction(us: seq<Update>, propagated: bool, truth: Entry, e: Entry)
    requires forall u :: u in us ==> ValidUpdate(u)
    requires RunFits(NOTHING_KNOWN, us, propagated) && RunConjoins(NOTHING_KNOWN, us, propagated)
    requires forall u :: u in UpToWrite(us) ==> UpdateFits(truth, u)
    requires forall u :: u in UpToModeChange(us) ==> ModeFits(truth, u.mode, u.modeMask)
    ensures MergeAll(NOTHING_KNOWN, us, propagated).Some?
    ensures var i := MergeAll(NOTHING_KNOWN, us, propagated).value.initial;
      && (InfoFits(e, i) <==> forall u :: u in UpToWrite(us) ==> UpdateFits(e, u))
      && (ModeFits(e, i.mode, i.modeMask) <==> forall u :: u in UpToModeChange(us) ==> ModeFits(e, u.mode, u.modeMask))
  {
    NothingKnownIsSound();
    assert AllFit(truth, ElementsOf(UpToWrite(us))) && AllModesFit(truth, ElementsOf(UpToModeChange(us)));
    TrueRunSucceeds(NOTHING_KNOWN, NO_FACTS, us, propagated, truth);
    RunKeepsSound(NOTHING_KNOWN, NO_FACTS, us, propagated);
    assert LearnAll(NOTHING_KNOWN, NO_FACTS, us) ==
           Facts(ElementsOf(UpToWrite(us)), ElementsOf(UpToModeChange(us)), false);
    assert AllFit(e, ElementsOf(UpToWrite(us))) <==> forall u :: u in UpToWrite(us) ==> UpdateFits(e, u);
    assert AllModesFit(e, ElementsOf(UpToModeChange(us))) <==>
           forall u :: u in UpToModeChange(us) ==> ModeFits(e, u.mode, u.modeMask);
  }

  /** After the first write nothing changes the recorded type, size or checksum any more, and after
      the first permission change nothing changes the permission bits. */
  lemma {:induction false} WrittenIsFrozen(fu: FileUsage, us: seq<Update>, propagated: bool)
    requires RunFits(fu, us, propagated) && fu.written
    ensures MergeAll(fu, us, propagated).Some?
    ensures var r := MergeAll(fu, us, propagated).value;
      && r.written
      && r.initial.fileType == fu.initial.fileType && r.initial.size == fu.initial.size
      && r.initial.hash == fu.initial.hash
      && (fu.modeChanged ==> r.initial == fu.initial)
    decreases |us|
  {
    if us != [] { WrittenIsFrozen(Merge(fu, us[0], propagated).value, us[1..], propagated); }
  }

  predicate OfBothTypes(e: Entry, t: FileType, t': FileType) {
    Fits(e, t, None, None) && Fits(e, t', None, None)
  }

  /** When a merge fails: a value that is needed cannot be looked up, or no entry has both types. */
  lemma MergeFailsIff(i: FileInfo, u: Update)
    requires ValidInfo(i) && ValidUpdate(u)
    ensures MergeInitial(i, u).None? <==>
      || u.fileType.None?
      || (i.fileType != NotExistOrIsReg && u.hash.HashError? && i.hash.None?)
      || (i.fileType != NotExistOrIsReg && forall e :: !OfBothTypes(e, i.fileType, u.fileType.value))
  {
    if u.fileType.Some? {
      var t, t' := i.fileType, u.fileType.value;
      var file, dir := Reg([], {}), Dir({}, {});
      if e :| OfBothTypes(e, t, t') {
        assert OfBothTypes(if e.Missing? then Missing else if e.Reg? then file else dir, t, t');
      } else {
        assert !OfBothTypes(Missing, t, t') && !OfBothTypes(file, t, t') && !OfBothTypes(dir, t, t');
      }
    }
  }

  /** An existence check followed by an overwrite that looks at nothing: the check is not recorded. */
  lemma AccessThenBlindOverwriteForgets()
    ensures var known := OnlyType(Exist);
      var u := Update(Some(DontKnow), None, NoHash, {}, {}, true, false, false, 1, DontKnow);
      MergeInitial(known, u) == Some(OnlyType(DontKnow)) && InfoFits(Missing, OnlyType(DontKnow)) &&
        !InfoFits(Missing, known)
  {
  }
}
