/** Garbage collection of the object and the blob cache. */
module CacheGc {
  type BlobId = nat

  /**
   * A cached object.  `usableInputs` says that it can be retrieved and parsed and that no system
   * file it expects has changed; `refs` are the blobs its outputs refer to.
   */
  datatype Obj = Obj(name: nat, timestamp: int, size: nat, usableInputs: bool, refs: seq<BlobId>)

  datatype BlobFile = BlobFile(id: BlobId, size: nat)

  // ------------------------------------------------------------------------------------------
  // Specification.
  // ------------------------------------------------------------------------------------------

  function Ids(blobs: seq<BlobFile>): set<BlobId> {
    set i | 0 <= i < |blobs| :: blobs[i].id
  }

  function Refs(o: Obj): set<BlobId> {
    set i | 0 <= i < |o.refs| :: o.refs[i]
  }

  predicate Usable(o: Obj, present: set<BlobId>) {
    o.usableInputs && Refs(o) <= present
  }

  /** Of the objects of one directory, newest first, the first usable ones are kept. */
  function Kept(objs: seq<Obj>, tries: nat, present: set<BlobId>): (r: seq<Obj>)
    ensures |r| <= tries && |r| <= |objs|
  {
    if objs == [] || tries == 0 then []
    else if Usable(objs[0], present) then [objs[0]] + Kept(objs[1..], tries - 1, present)
    else Kept(objs[1..], tries, present)
  }

  /** The blobs found before the first one that is missing. */
  function Found(refs: seq<BlobId>, present: set<BlobId>): set<BlobId> {
    if refs == [] || refs[0] !in present then {} else {refs[0]} + Found(refs[1..], present)
  }

  /** The blobs collected from one object. */
  function FoundIn(o: Obj, present: set<BlobId>): set<BlobId> {
    if o.usableInputs then Found(o.refs, present) else {}
  }

  /** The blobs collected from one directory: objects are looked at until enough usable ones are kept. */
  function Collected(objs: seq<Obj>, tries: nat, present: set<BlobId>): set<BlobId> {
    if objs == [] || tries == 0 then {}
    else
      FoundIn(objs[0], present) +
      Collected(objs[1..], if Usable(objs[0], present) then tries - 1 else tries, present)
  }

  function CollectedInDirs(dirs: seq<seq<Obj>>, tries: nat, present: set<BlobId>): set<BlobId> {
    if dirs == [] then {} else Collected(dirs[0], tries, present) + CollectedInDirs(dirs[1..], tries, present)
  }

  /** The blobs that any of the objects refers to. */
  function AllRefs(objs: seq<Obj>): set<BlobId> {
    if objs == [] then {} else Refs(objs[0]) + AllRefs(objs[1..])
  }

  function Referenced(blobs: seq<BlobFile>, referenced: set<BlobId>): (r: seq<BlobFile>)
    ensures forall b :: b in r <==> b in blobs && b.id in referenced
  {
    if blobs == [] then []
    else (if blobs[0].id in referenced then [blobs[0]] else []) + Referenced(blobs[1..], referenced)
  }

  function ObjBytes(objs: seq<Obj>): nat {
    if objs == [] then 0 else objs[0].size + ObjBytes(objs[1..])
  }

  /** All objects, directory by directory. */
  function Flat(dirs: seq<seq<Obj>>): seq<Obj> {
    if dirs == [] then [] else dirs[0] + Flat(dirs[1..])
  }

  function BlobBytes(blobs: seq<BlobFile>): nat {
    if blobs == [] then 0 else blobs[0].size + BlobBytes(blobs[1..])
  }

  // ------------------------------------------------------------------------------------------
  // The checks of one object.
  // ------------------------------------------------------------------------------------------

  /** Looks a blob up among those already known to be present before looking for its file. */
  method BlobPresent(id: BlobId, blobs: seq<BlobFile>, referenced: set<BlobId>)
    returns (present: bool, referenced': set<BlobId>)
    requires referenced <= Ids(blobs)
    ensures present <==> id in Ids(blobs)
    ensures referenced' == if present then referenced + {id} else referenced
  {
    referenced' := referenced;
    present := id in referenced || id in Ids(blobs);
    if present {
      referenced' := referenced + {id};
    }
  }

  /** is_entry_usable(): the blobs found on the way are collected even if the object turns out unusable. */
  method IsEntryUsable(o: Obj, blobs: seq<BlobFile>, referenced: set<BlobId>)
    returns (usable: bool, referenced': set<BlobId>)
    requires referenced <= Ids(blobs)
    ensures usable <==> Usable(o, Ids(blobs))
    ensures referenced' == referenced + FoundIn(o, Ids(blobs)) && referenced' <= Ids(blobs)
  {
    referenced' := referenced;
    if !o.usableInputs {
      return false, referenced';
    }
    for i := 0 to |o.refs|
      invariant referenced' <= Ids(blobs)
      invariant referenced + Found(o.refs, Ids(blobs)) == referenced' + Found(o.refs[i..], Ids(blobs))
      invariant forall j :: 0 <= j < i ==> o.refs[j] in Ids(blobs)
    {
      var present;
      assert o.refs[i] in Refs(o) && o.refs[i..][1..] == o.refs[i + 1..];
      present, referenced' := BlobPresent(o.refs[i], blobs, referenced');
      if !present {
        return false, referenced';
      }
    }
    return true, referenced';
  }

  lemma {:induction false} FoundIff(refs: seq<BlobId>, present: set<BlobId>, id: BlobId)
    ensures id in Found(refs, present) <==>
      exists k :: 0 <= k < |refs| && refs[k] == id && forall j :: 0 <= j <= k ==> refs[j] in present
  {
    if refs != [] && refs[0] in present {
      var rest := refs[1..];
      FoundIff(rest, present, id);
      if k :| 0 <= k < |rest| && rest[k] == id && forall j :: 0 <= j <= k ==> rest[j] in present {
        assert refs[k + 1] == id;
        forall j | 0 <= j <= k + 1 ensures refs[j] in present {
          assert j > 0 ==> refs[j] == rest[j - 1];
        }
      }
      if k :| 0 < k < |refs| && refs[k] == id && forall j :: 0 <= j <= k ==> refs[j] in present {
        assert rest[k - 1] == id;
        forall j | 0 <= j <= k - 1 ensures rest[j] in present {
          assert rest[j] == refs[j + 1];
        }
      }
      if id == refs[0] { assert refs[0] == id && forall j :: 0 <= j <= 0 ==> refs[j] in present; }
    }
  }

  /** The object at `i` is looked at, and the blob is found in it. */
  ghost predicate FoundAt(objs: seq<Obj>, tries: nat, present: set<BlobId>, i: int, id: BlobId) {
    0 <= i < |objs| && |Kept(objs[..i], tries, present)| < tries && id in FoundIn(objs[i], present)
  }

  lemma KeptSkipsFirst(objs: seq<Obj>, tries: nat, present: set<BlobId>, i: nat)
    requires i < |objs| && tries > 0
    ensures
      var rest, left := objs[1..], if Usable(objs[0], present) then tries - 1 else tries;
      |Kept(objs[..i + 1], tries, present)| < tries <==> |Kept(rest[..i], left, present)| < left
  {
    assert objs[..i + 1][1..] == objs[1..][..i];
  }

  /** A blob is collected exactly if some object that is looked at refers to it, with all blobs before it present. */
  lemma {:induction false} CollectedIff(objs: seq<Obj>, tries: nat, present: set<BlobId>, id: BlobId)
    ensures id in Collected(objs, tries, present) <==> exists i :: FoundAt(objs, tries, present, i, id)
  {
    if objs != [] && tries > 0 {
      var rest, left := objs[1..], if Usable(objs[0], present) then tries - 1 else tries;
      CollectedIff(rest, left, present, id);
      if id in FoundIn(objs[0], present) { assert objs[..0] == [] && FoundAt(objs, tries, present, 0, id); }
      if i :| FoundAt(rest, left, present, i, id) {
        KeptSkipsFirst(objs, tries, present, i);
        assert FoundAt(objs, tries, present, i + 1, id);
      }
      if i :| FoundAt(objs, tries, present, i, id) && i > 0 {
        KeptSkipsFirst(objs, tries, present, i - 1);
        assert FoundAt(rest, left, present, i - 1, id);
      }
    }
  }

  lemma {:induction false} FoundAll(refs: seq<BlobId>, present: set<BlobId>)
    requires forall k :: 0 <= k < |refs| ==> refs[k] in present
    ensures Found(refs, present) == set k | 0 <= k < |refs| :: refs[k]
  {
    if refs != [] {
      FoundAll(refs[1..], present);
      assert forall id :: id in refs <==> id == refs[0] || id in refs[1..];
    }
  }

  lemma UsableFindsAll(o: Obj, present: set<BlobId>)
    requires Usable(o, present)
    ensures FoundIn(o, present) == Refs(o)
  {
    forall k | 0 <= k < |o.refs| ensures o.refs[k] in present {
      assert o.refs[k] in Refs(o);
    }
    FoundAll(o.refs, present);
  }

  lemma {:induction false} CollectedAppend(objs: seq<Obj>, o: Obj, tries: nat, present: set<BlobId>)
    ensures Collected(objs + [o], tries, present) ==
      Collected(objs, tries, present) + if |Kept(objs, tries, present)| < tries then FoundIn(o, present) else {}
  {
    if objs == [] {
      assert objs + [o] == [o];
    } else {
      assert (objs + [o])[1..] == objs[1..] + [o];
      if tries > 0 {
        CollectedAppend(objs[1..], o, if Usable(objs[0], present) then tries - 1 else tries, present);
      }
    }
  }

  /** What the objects that are kept refer to is collected. */
  lemma {:induction false} KeptIsCollected(objs: seq<Obj>, tries: nat, present: set<BlobId>)
    ensures AllReferenced(Kept(objs, tries, present), Collected(objs, tries, present))
  {
    if objs != [] && tries > 0 {
      KeptIsCollected(objs[1..], if Usable(objs[0], present) then tries - 1 else tries, present);
      if Usable(objs[0], present) { UsableFindsAll(objs[0], present); }
    }
  }

  predicate AllReferenced(objs: seq<Obj>, referenced: set<BlobId>) {
    forall o :: o in objs ==> Refs(o) <= referenced
  }

  lemma {:induction false} KeptAppend(objs: seq<Obj>, o: Obj, tries: nat, present: set<BlobId>)
    ensures Kept(objs + [o], tries, present) ==
      Kept(objs, tries, present) +
      if |Kept(objs, tries, present)| < tries && Usable(o, present) then [o] else []
  {
    if objs == [] {
      assert objs + [o] == [o];
    } else {
      assert (objs + [o])[1..] == objs[1..] + [o];
      if tries > 0 {
        KeptAppend(objs[1..], o, if Usable(objs[0], present) then tries - 1 else tries, present);
      }
    }
  }

  lemma {:induction false} ObjBytesAppend(objs: seq<Obj>, more: seq<Obj>)
    ensures ObjBytes(objs + more) == ObjBytes(objs) + ObjBytes(more)
  {
    if objs == [] {
      assert objs + more == more;
    } else {
      assert (objs + more)[1..] == objs[1..] + more;
      ObjBytesAppend(objs[1..], more);
    }
  }

  /** The pass over one directory. */
  method GcObjDir(objs: seq<Obj>, tries: nat, blobs: seq<BlobFile>, referenced: set<BlobId>)
    returns (kept: seq<Obj>, referenced': set<BlobId>, cacheBytes: nat, freed: nat)
    requires referenced <= Ids(blobs)
    ensures kept == Kept(objs, tries, Ids(blobs))
    ensures referenced' == referenced + Collected(objs, tries, Ids(blobs)) && referenced' <= Ids(blobs)
    ensures cacheBytes == ObjBytes(kept) && cacheBytes + freed == ObjBytes(objs)
  {
    kept, referenced', cacheBytes, freed := [], referenced, 0, 0;
    for i := 0 to |objs|
      invariant kept == Kept(objs[..i], tries, Ids(blobs))
      invariant referenced' == referenced + Collected(objs[..i], tries, Ids(blobs)) && referenced' <= Ids(blobs)
      invariant cacheBytes == ObjBytes(kept) && cacheBytes + freed == ObjBytes(objs[..i])
    {
      assert objs[..i + 1] == objs[..i] + [objs[i]];
      KeptAppend(objs[..i], objs[i], tries, Ids(blobs));
      CollectedAppend(objs[..i], objs[i], tries, Ids(blobs));
      ObjBytesAppend(objs[..i], [objs[i]]);
      ObjBytesAppend(kept, [objs[i]]);
      if |kept| >= tries {
        freed := freed + objs[i].size;
      } else {
        var usable;
        usable, referenced' := IsEntryUsable(objs[i], blobs, referenced');
        if usable {
          kept, cacheBytes := kept + [objs[i]], cacheBytes + objs[i].size;
        } else {
          freed := freed + objs[i].size;
        }
      }
    }
    assert objs[..|objs|] == objs;
  }

  lemma {:induction false} FlatAppend(dirs: seq<seq<Obj>>, more: seq<seq<Obj>>)
    ensures Flat(dirs + more) == Flat(dirs) + Flat(more)
  {
    if dirs == [] {
      assert dirs + more == more;
    } else {
      assert (dirs + more)[1..] == dirs[1..] + more;
      FlatAppend(dirs[1..], more);
    }
  }

  lemma FlatSnoc(dirs: seq<seq<Obj>>, objs: seq<Obj>)
    ensures Flat(dirs + [objs]) == Flat(dirs) + objs
    ensures ObjBytes(Flat(dirs + [objs])) == ObjBytes(Flat(dirs)) + ObjBytes(objs)
  {
    FlatAppend(dirs, [objs]);
    assert Flat([objs]) == objs + [] == objs;
    ObjBytesAppend(Flat(dirs), objs);
  }

  /** The first `n` directories after the object pass. */
  predicate Swept(kept: seq<seq<Obj>>, dirs: seq<seq<Obj>>, n: nat, tries: nat, present: set<BlobId>) {
    |kept| == n <= |dirs| && forall d :: 0 <= d < n ==> kept[d] == Kept(dirs[d], tries, present)
  }

  lemma SweptNext(kept: seq<seq<Obj>>, dirs: seq<seq<Obj>>, n: nat, tries: nat, present: set<BlobId>)
    requires n < |dirs| && Swept(kept, dirs, n, tries, present)
    ensures Swept(kept + [Kept(dirs[n], tries, present)], dirs, n + 1, tries, present)
    ensures Flat(dirs[..n + 1]) == Flat(dirs[..n]) + dirs[n]
    ensures ObjBytes(Flat(dirs[..n + 1])) == ObjBytes(Flat(dirs[..n])) + ObjBytes(dirs[n])
    ensures CollectedInDirs(dirs[..n + 1], tries, present) ==
      CollectedInDirs(dirs[..n], tries, present) + Collected(dirs[n], tries, present)
  {
    CollectedNext(dirs[..n], dirs[n], tries, present);
    assert dirs[..n + 1] == dirs[..n] + [dirs[n]];
    FlatSnoc(dirs[..n], dirs[n]);
  }

  lemma {:induction false} CollectedNext(dirs: seq<seq<Obj>>, objs: seq<Obj>, tries: nat, present: set<BlobId>)
    ensures CollectedInDirs(dirs + [objs], tries, present) ==
      CollectedInDirs(dirs, tries, present) + Collected(objs, tries, present)
  {
    if dirs == [] {
      assert dirs + [objs] == [objs];
    } else {
      assert (dirs + [objs])[1..] == dirs[1..] + [objs];
      CollectedNext(dirs[1..], objs, tries, present);
    }
  }

  lemma {:induction false} InCollected(dirs: seq<seq<Obj>>, tries: nat, present: set<BlobId>, id: BlobId)
    ensures id in CollectedInDirs(dirs, tries, present) <==>
      exists d :: 0 <= d < |dirs| && id in Collected(dirs[d], tries, present)
  {
    if dirs != [] {
      var rest := dirs[1..];
      InCollected(rest, tries, present, id);
      if d :| 0 <= d < |rest| && id in Collected(rest[d], tries, present) {
        assert id in Collected(dirs[d + 1], tries, present);
      }
      if d :| 0 < d < |dirs| && id in Collected(dirs[d], tries, present) {
        assert id in Collected(rest[d - 1], tries, present);
      }
    }
  }

  /** Which blobs an object pass lets live: those that some object it looks at refers to, with all blobs before
      present. */
  lemma SurvivesIff(dirs: seq<seq<Obj>>, tries: nat, blobs: seq<BlobFile>, b: BlobFile)
    ensures b in Referenced(blobs, CollectedInDirs(dirs, tries, Ids(blobs))) <==>
      b in blobs && exists d, i :: 0 <= d < |dirs| && FoundAt(dirs[d], tries, Ids(blobs), i, b.id)
  {
    InCollected(dirs, tries, Ids(blobs), b.id);
    forall d | 0 <= d < |dirs|
      ensures b.id in Collected(dirs[d], tries, Ids(blobs)) <==>
        exists i :: FoundAt(dirs[d], tries, Ids(blobs), i, b.id)
    {
      CollectedIff(dirs[d], tries, Ids(blobs), b.id);
    }
  }

  lemma KeptIsReferenced(dirs: seq<seq<Obj>>, d: int, tries: nat, present: set<BlobId>)
    requires 0 <= d < |dirs|
    ensures AllReferenced(Kept(dirs[d], tries, present), CollectedInDirs(dirs, tries, present))
  {
    KeptIsCollected(dirs[d], tries, present);
    forall id | id in Collected(dirs[d], tries, present) ensures id in CollectedInDirs(dirs, tries, present) {
      InCollected(dirs, tries, present, id);
    }
  }

  /** Once every object is usable and none is too many, exactly what they refer to is collected. */
  lemma {:induction false} CollectedIsRefs(objs: seq<Obj>, tries: nat, present: set<BlobId>)
    requires |objs| <= tries && AllUsable(objs, present)
    ensures Collected(objs, tries, present) == AllRefs(objs)
  {
    if objs != [] {
      UsableFindsAll(objs[0], present);
      CollectedIsRefs(objs[1..], tries - 1, present);
    }
  }

  lemma {:induction false} AllRefsAppend(objs: seq<Obj>, more: seq<Obj>)
    ensures AllRefs(objs + more) == AllRefs(objs) + AllRefs(more)
  {
    if objs == [] {
      assert objs + more == more;
    } else {
      assert (objs + more)[1..] == objs[1..] + more;
      AllRefsAppend(objs[1..], more);
    }
  }

  lemma {:induction false} CollectedInDirsIsRefs(dirs: seq<seq<Obj>>, tries: nat, present: set<BlobId>)
    requires forall d :: 0 <= d < |dirs| ==> |dirs[d]| <= tries && AllUsable(dirs[d], present)
    ensures CollectedInDirs(dirs, tries, present) == AllRefs(Flat(dirs))
  {
    if dirs != [] {
      CollectedIsRefs(dirs[0], tries, present);
      CollectedInDirsIsRefs(dirs[1..], tries, present);
      AllRefsAppend(dirs[0], Flat(dirs[1..]));
    }
  }

  lemma {:induction false} AllReferencedStay(blobs: seq<BlobFile>, referenced: set<BlobId>)
    ensures Referenced(blobs, referenced) == blobs <==> Ids(blobs) <= referenced
  {
    if blobs != [] {
      AllReferencedStay(blobs[1..], referenced);
      assert Ids(blobs) == {blobs[0].id} + Ids(blobs[1..]) by {
        forall i | 0 < i < |blobs| ensures blobs[i].id in Ids(blobs[1..]) { assert blobs[i] == blobs[1..][i - 1]; }
        forall i | 0 <= i < |blobs[1..]| ensures blobs[1..][i].id in Ids(blobs) {
          assert blobs[1..][i] == blobs[i + 1];
        }
      }
      ReferencedIsShorter(blobs[1..], referenced);
    }
  }

  lemma {:induction false} ReferencedIsShorter(blobs: seq<BlobFile>, referenced: set<BlobId>)
    ensures |Referenced(blobs, referenced)| <= |blobs|
  {
    if blobs != [] { ReferencedIsShorter(blobs[1..], referenced); }
  }

  /** A pass can leave a blob that no object left refers to; only the next pass removes it. */
  lemma PassLeavesUnreferencedBlob()
    ensures
      var dirs, blobs := [[Obj(0, 0, 0, true, [1, 2])]], [BlobFile(1, 0)];
      && Kept(dirs[0], 1, Ids(blobs)) == []
      && blobs == Referenced(blobs, CollectedInDirs(dirs, 1, Ids(blobs)))
      && Referenced(blobs, CollectedInDirs([[]], 1, Ids(blobs))) == []
  {
    var o, blobs := Obj(0, 0, 0, true, [1, 2]), [BlobFile(1, 0)];
    assert blobs[0].id in Ids(blobs) && Ids(blobs) == {1};
    assert o.refs[1] in Refs(o) && !Usable(o, Ids(blobs));
    assert [o][1..] == [] && o.refs[1..] == [2];
    assert 1 in FoundIn(o, Ids(blobs)) && 1 in Collected([o], 1, Ids(blobs));
  }

  /** The object pass over all directories. */
  method GcObjDirs(dirs: seq<seq<Obj>>, tries: nat, blobs: seq<BlobFile>)
    returns (kept: seq<seq<Obj>>, referenced: set<BlobId>, cacheBytes: nat, freed: nat)
    ensures Swept(kept, dirs, |dirs|, tries, Ids(blobs))
    ensures referenced == CollectedInDirs(dirs, tries, Ids(blobs)) && referenced <= Ids(blobs)
    ensures cacheBytes == ObjBytes(Flat(kept)) && cacheBytes + freed == ObjBytes(Flat(dirs))
  {
    kept, referenced, cacheBytes, freed := [], {}, 0, 0;
    for d := 0 to |dirs|
      invariant Swept(kept, dirs, d, tries, Ids(blobs))
      invariant referenced == CollectedInDirs(dirs[..d], tries, Ids(blobs)) && referenced <= Ids(blobs)
      invariant cacheBytes == ObjBytes(Flat(kept)) && cacheBytes + freed == ObjBytes(Flat(dirs[..d]))
    {
      var objs, bytes, gone;
      objs, referenced, bytes, gone := GcObjDir(dirs[d], tries, blobs, referenced);
      SweptNext(kept, dirs, d, tries, Ids(blobs));
      FlatSnoc(kept, objs);
      kept, cacheBytes, freed := kept + [objs], cacheBytes + bytes, freed + gone;
    }
    assert dirs[..|dirs|] == dirs;
  }

  lemma {:induction false} InFlat(dirs: seq<seq<Obj>>, o: Obj)
    ensures o in Flat(dirs) <==> exists d :: 0 <= d < |dirs| && o in dirs[d]
  {
    if dirs != [] {
      InFlat(dirs[1..], o);
      if o in dirs[0] { assert o in dirs[0]; }
      if o in Flat(dirs[1..]) {
        var d :| 0 <= d < |dirs[1..]| && o in dirs[1..][d];
        assert o in dirs[d + 1];
      }
      if d :| 0 <= d < |dirs| && o in dirs[d] {
        if d > 0 { assert o in dirs[1..][d - 1]; }
      }
    }
  }

  lemma {:induction false} BlobBytesAppend(blobs: seq<BlobFile>, b: BlobFile)
    ensures BlobBytes(blobs + [b]) == BlobBytes(blobs) + b.size
  {
    if blobs == [] {
      assert blobs + [b] == [b];
    } else {
      assert (blobs + [b])[1..] == blobs[1..] + [b];
      BlobBytesAppend(blobs[1..], b);
    }
  }

  lemma {:induction false} ReferencedAppend(blobs: seq<BlobFile>, b: BlobFile, referenced: set<BlobId>)
    ensures Referenced(blobs + [b], referenced) == Referenced(blobs, referenced) + if b.id in referenced then [b]
      else []
  {
    if blobs == [] {
      assert blobs + [b] == [b];
    } else {
      assert (blobs + [b])[1..] == blobs[1..] + [b];
      ReferencedAppend(blobs[1..], b, referenced);
    }
  }

  lemma {:induction false} KeptIsUsable(objs: seq<Obj>, tries: nat, present: set<BlobId>)
    ensures forall o :: o in Kept(objs, tries, present) ==> o in objs && Usable(o, present)
  {
    if objs != [] && tries > 0 {
      KeptIsUsable(objs[1..], if Usable(objs[0], present) then tries - 1 else tries, present);
    }
  }

  lemma {:induction false} KeptAll(objs: seq<Obj>, tries: nat, present: set<BlobId>)
    requires |objs| <= tries && forall o :: o in objs ==> Usable(o, present)
    ensures Kept(objs, tries, present) == objs
  {
    if objs != [] { KeptAll(objs[1..], tries - 1, present); }
  }

  // ------------------------------------------------------------------------------------------
  // Names.
  // ------------------------------------------------------------------------------------------

  function Count(objs: seq<Obj>, name: nat): nat {
    if objs == [] then 0 else (if objs[0].name == name then 1 else 0) + Count(objs[1..], name)
  }

  /** No two objects have the same name. */
  ghost predicate Unique(objs: seq<Obj>) {
    forall n :: Count(objs, n) <= 1
  }

  lemma {:induction false} CountAppend(objs: seq<Obj>, more: seq<Obj>, name: nat)
    ensures Count(objs + more, name) == Count(objs, name) + Count(more, name)
  {
    if objs == [] {
      assert objs + more == more;
    } else {
      assert (objs + more)[1..] == objs[1..] + more;
      CountAppend(objs[1..], more, name);
    }
  }

  lemma {:induction false} CountKept(objs: seq<Obj>, tries: nat, present: set<BlobId>, name: nat)
    ensures Count(Kept(objs, tries, present), name) <= Count(objs, name)
  {
    if objs != [] && tries > 0 {
      CountKept(objs[1..], if Usable(objs[0], present) then tries - 1 else tries, present, name);
    }
  }

  lemma {:induction false} CountSwept(kept: seq<seq<Obj>>, dirs: seq<seq<Obj>>, tries: nat, present: set<BlobId>,
                                      name: nat)
    requires Swept(kept, dirs, |dirs|, tries, present)
    ensures Count(Flat(kept), name) <= Count(Flat(dirs), name)
  {
    if dirs != [] {
      CountSwept(kept[1..], dirs[1..], tries, present, name);
      CountKept(dirs[0], tries, present, name);
      CountAppend(kept[0], Flat(kept[1..]), name);
      CountAppend(dirs[0], Flat(dirs[1..]), name);
    }
  }

  lemma {:induction false} CountOfMember(objs: seq<Obj>, o: Obj)
    requires o in objs
    ensures Count(objs, o.name) >= 1
  {
    if o != objs[0] { CountOfMember(objs[1..], o); }
  }

  lemma UniqueTail(objs: seq<Obj>)
    requires Unique(objs) && objs != []
    ensures Unique(objs[1..]) && forall o :: o in objs[1..] ==> o.name != objs[0].name
  {
    forall n ensures Count(objs[1..], n) <= 1 {
      assert Count(objs, n) <= 1;
    }
    forall o | o in objs[1..] ensures o.name != objs[0].name {
      CountOfMember(objs[1..], o);
      assert Count(objs, o.name) <= 1;
    }
  }

  // ------------------------------------------------------------------------------------------
  // Removing objects by name.
  // ------------------------------------------------------------------------------------------

  function Without(objs: seq<Obj>, gone: set<nat>): (r: seq<Obj>)
    ensures |r| <= |objs|
  {
    if objs == [] then []
    else if objs[0].name in gone then Without(objs[1..], gone)
    else [objs[0]] + Without(objs[1..], gone)
  }

  function WithoutDirs(dirs: seq<seq<Obj>>, gone: set<nat>): (r: seq<seq<Obj>>)
    ensures |r| == |dirs| && forall d :: 0 <= d < |dirs| ==> r[d] == Without(dirs[d], gone)
  {
    if dirs == [] then [] else [Without(dirs[0], gone)] + WithoutDirs(dirs[1..], gone)
  }

  lemma {:induction false} InWithout(objs: seq<Obj>, gone: set<nat>)
    ensures forall o :: o in Without(objs, gone) <==> o in objs && o.name !in gone
  {
    if objs != [] {
      InWithout(objs[1..], gone);
      assert forall o :: o in objs <==> o == objs[0] || o in objs[1..];
    }
  }

  lemma {:induction false} WithoutAppend(objs: seq<Obj>, more: seq<Obj>, gone: set<nat>)
    ensures Without(objs + more, gone) == Without(objs, gone) + Without(more, gone)
  {
    if objs == [] {
      assert objs + more == more;
    } else {
      assert (objs + more)[1..] == objs[1..] + more;
      WithoutAppend(objs[1..], more, gone);
    }
  }

  lemma {:induction false} FlatWithout(dirs: seq<seq<Obj>>, gone: set<nat>)
    ensures Flat(WithoutDirs(dirs, gone)) == Without(Flat(dirs), gone)
  {
    if dirs != [] {
      FlatWithout(dirs[1..], gone);
      WithoutAppend(dirs[0], Flat(dirs[1..]), gone);
    }
  }

  lemma {:induction false} WithoutAbsent(objs: seq<Obj>, name: nat)
    requires forall o :: o in objs ==> o.name != name
    ensures Without(objs, {name}) == objs
  {
    if objs != [] { WithoutAbsent(objs[1..], name); }
  }

  /** Removing one object frees its bytes. */
  lemma {:induction false} WithoutOne(objs: seq<Obj>, o: Obj)
    requires Unique(objs) && o in objs
    ensures ObjBytes(Without(objs, {o.name})) + o.size == ObjBytes(objs)
  {
    UniqueTail(objs);
    if o == objs[0] {
      WithoutAbsent(objs[1..], o.name);
    } else {
      WithoutOne(objs[1..], o);
    }
  }

  lemma {:induction false} UniqueWithout(objs: seq<Obj>, gone: set<nat>, name: nat)
    ensures Count(Without(objs, gone), name) <= Count(objs, name)
  {
    if objs != [] { UniqueWithout(objs[1..], gone, name); }
  }

  lemma {:induction false} WithoutTwice(objs: seq<Obj>, a: set<nat>, b: set<nat>)
    ensures Without(Without(objs, a), b) == Without(objs, a + b)
  {
    if objs != [] { WithoutTwice(objs[1..], a, b); }
  }

  lemma WithoutDirsTwice(dirs: seq<seq<Obj>>, a: set<nat>, b: set<nat>)
    ensures WithoutDirs(WithoutDirs(dirs, a), b) == WithoutDirs(dirs, a + b)
  {
    forall d | 0 <= d < |dirs| ensures Without(Without(dirs[d], a), b) == Without(dirs[d], a + b) {
      WithoutTwice(dirs[d], a, b);
    }
  }

  lemma {:induction false} WithoutNone(objs: seq<Obj>)
    ensures Without(objs, {}) == objs
  {
    if objs != [] { WithoutNone(objs[1..]); }
  }

  // ------------------------------------------------------------------------------------------
  // The list for eviction, most recently used first.
  // ------------------------------------------------------------------------------------------

  predicate NewestFirst(s: seq<Obj>) {
    forall i, j :: 0 <= i < j < |s| ==> s[i].timestamp >= s[j].timestamp
  }

  lemma NewestIsFirst(x: Obj, s: seq<Obj>)
    requires NewestFirst(s) && forall y :: y in s ==> x.timestamp >= y.timestamp
    ensures NewestFirst([x] + s)
  {
  }

  lemma HeadIsNewest(s: seq<Obj>)
    requires NewestFirst(s) && s != []
    ensures NewestFirst(s[1..]) && forall y :: y in s ==> s[0].timestamp >= y.timestamp
  {
  }

  function Insert(o: Obj, s: seq<Obj>): (r: seq<Obj>)
    requires NewestFirst(s)
    ensures NewestFirst(r) && forall x :: x in r <==> x == o || x in s
  {
    if s == [] then [o]
    else
      HeadIsNewest(s);
      if o.timestamp >= s[0].timestamp then
        NewestIsFirst(o, s);
        [o] + s
      else
        var rest := Insert(o, s[1..]);
        assert forall x :: x in s <==> x == s[0] || x in s[1..];
        NewestIsFirst(s[0], rest);
        [s[0]] + rest
  }

  function SortedByTime(s: seq<Obj>): (r: seq<Obj>)
    ensures NewestFirst(r) && forall x :: x in r <==> x in s
  {
    if s == [] then [] else
      assert forall x :: x in s <==> x == s[0] || x in s[1..];
      Insert(s[0], SortedByTime(s[1..]))
  }

  function Names(s: seq<Obj>): set<nat> {
    set i | 0 <= i < |s| :: s[i].name
  }

  // ------------------------------------------------------------------------------------------
  // Both caches.
  // ------------------------------------------------------------------------------------------

  class Caches {
    const shortcutTries: nat
    const maxCacheSize: nat
    var dirs: seq<seq<Obj>>
    var blobs: seq<BlobFile>
    var storedCachedBytes: int
    var thisRunsCachedBytes: int

    constructor (shortcutTries: nat, maxCacheSize: nat, dirs: seq<seq<Obj>>, blobs: seq<BlobFile>, thisRuns: int)
      ensures this.dirs == dirs && this.blobs == blobs
    {
      this.shortcutTries, this.maxCacheSize := shortcutTries, maxCacheSize;
      this.dirs, this.blobs, storedCachedBytes, thisRunsCachedBytes := dirs, blobs, 0, thisRuns;
    }

    function TotalBytes(): nat
      reads this
    {
      ObjBytes(Flat(dirs)) + BlobBytes(blobs)
    }

    /** Every object that is left can be used: all blobs it refers to are present. */
    ghost predicate Consistent()
      reads this
    {
      forall d :: 0 <= d < |dirs| ==> |dirs[d]| <= shortcutTries && AllUsable(dirs[d], Ids(blobs))
    }

    method GcObjs() returns (referenced: set<BlobId>, cacheBytes: nat)
      modifies `dirs, `thisRunsCachedBytes
      ensures Swept(dirs, old(dirs), |old(dirs)|, shortcutTries, Ids(blobs))
      ensures referenced == CollectedInDirs(old(dirs), shortcutTries, Ids(blobs)) && referenced <= Ids(blobs)
      ensures cacheBytes == ObjBytes(Flat(dirs))
      ensures thisRunsCachedBytes - ObjBytes(Flat(dirs)) == old(thisRunsCachedBytes - ObjBytes(Flat(dirs)))
    {
      var kept, freed;
      kept, referenced, cacheBytes, freed := GcObjDirs(dirs, shortcutTries, blobs);
      dirs, thisRunsCachedBytes := kept, thisRunsCachedBytes - freed;
    }

    method GcBlobs(referenced: set<BlobId>) returns (cacheBytes: nat)
      modifies `blobs, `thisRunsCachedBytes
      ensures blobs == Referenced(old(blobs), referenced) && cacheBytes == BlobBytes(blobs)
      ensures thisRunsCachedBytes - BlobBytes(blobs) == old(thisRunsCachedBytes - BlobBytes(blobs))
    {
      cacheBytes := 0;
      var before, kept := blobs, [];
      for i := 0 to |before|
        invariant kept == Referenced(before[..i], referenced) && cacheBytes == BlobBytes(kept) &&
          blobs == before == old(blobs)
        invariant thisRunsCachedBytes == old(thisRunsCachedBytes) - (BlobBytes(before[..i]) - BlobBytes(kept))
      {
        assert before[..i + 1] == before[..i] + [before[i]];
        ReferencedAppend(before[..i], before[i], referenced);
        BlobBytesAppend(before[..i], before[i]);
        BlobBytesAppend(kept, before[i]);
        if before[i].id !in referenced {
          thisRunsCachedBytes := thisRunsCachedBytes - before[i].size;
        } else {
          kept, cacheBytes := kept + [before[i]], cacheBytes + before[i].size;
        }
      }
      assert before[..|before|] == before;
      blobs := kept;
    }

    /** An object pass, then a blob pass. */
    method GcPass() returns (cacheBytes: nat)
      modifies `dirs, `blobs, `thisRunsCachedBytes
      ensures Consistent() && cacheBytes == TotalBytes()
      ensures Unaccounted() == old(Unaccounted())
      ensures Swept(dirs, old(dirs), |old(dirs)|, shortcutTries, Ids(old(blobs)))
      ensures blobs == Referenced(old(blobs), CollectedInDirs(old(dirs), shortcutTries, Ids(old(blobs))))
      ensures old(Consistent()) ==> dirs == old(dirs) && blobs == Referenced(old(blobs), AllRefs(Flat(dirs)))
      ensures old(Consistent()) ==> (blobs == old(blobs) <==> Ids(old(blobs)) <= AllRefs(Flat(dirs)))
    {
      var referenced, objBytes := GcObjs();
      var blobBytes := GcBlobs(referenced);
      cacheBytes := objBytes + blobBytes;
      StillUsable(old(blobs), referenced);
      forall d | 0 <= d < |dirs| ensures AllUsable(dirs[d], Ids(blobs)) {
        KeptIsUsable(old(dirs)[d], shortcutTries, Ids(old(blobs)));
        KeptIsReferenced(old(dirs), d, shortcutTries, Ids(old(blobs)));
      }
      if old(Consistent()) {
        forall d | 0 <= d < |dirs| ensures dirs[d] == old(dirs)[d] {
          KeptAll(old(dirs)[d], shortcutTries, Ids(old(blobs)));
        }
        CollectedInDirsIsRefs(dirs, shortcutTries, Ids(old(blobs)));
        AllReferencedStay(old(blobs), referenced);
      }
    }

    // ----------------------------------------------------------------------------------------
    // The size limit.
    // ----------------------------------------------------------------------------------------

    /** unlink(), which fails if the object is gone already. */
    method Unlink(o: Obj)
      requires Unique(Flat(dirs)) && OnlyOne(o, Flat(dirs))
      modifies `dirs, `thisRunsCachedBytes
      ensures dirs == WithoutDirs(old(dirs), {o.name}) && Unique(Flat(dirs))
      ensures Unaccounted() == old(Unaccounted())
    {
      FlatWithout(dirs, {o.name});
      forall n ensures Count(Without(Flat(dirs), {o.name}), n) <= 1 {
        UniqueWithout(Flat(dirs), {o.name}, n);
      }
      if o in Flat(dirs) {
        WithoutOne(Flat(dirs), o);
        thisRunsCachedBytes := thisRunsCachedBytes - o.size;
      } else {
        WithoutAbsent(Flat(dirs), o.name);
      }
      dirs := WithoutDirs(dirs, {o.name});
    }

    ghost function Unaccounted(): int
      reads this
    {
      thisRunsCachedBytes - TotalBytes()
    }

    /** Remove the objects at the end of the list. */
    method Evict(list: seq<Obj>, keep: nat)
      requires keep <= |list| && Unique(Flat(dirs)) && Named(list, Flat(dirs))
      modifies `dirs, `thisRunsCachedBytes
      ensures dirs == WithoutDirs(old(dirs), Names(list[keep..])) && Unique(Flat(dirs))
      ensures Unaccounted() == old(Unaccounted())
    {
      ghost var before, slack := dirs, Unaccounted();
      WithoutDirsNone(dirs);
      assert Names(list[keep..keep]) == {};
      for i := keep to |list|
        invariant dirs == WithoutDirs(before, Names(list[keep..i])) && Unique(Flat(dirs))
        invariant Unaccounted() == slack
      {
        EvictNext(list, keep, i, before);
      }
      assert list[keep..|list|] == list[keep..];
    }

    method EvictNext(list: seq<Obj>, keep: nat, i: nat, ghost before: seq<seq<Obj>>)
      requires keep <= i < |list| && Named(list, Flat(before))
      requires dirs == WithoutDirs(before, Names(list[keep..i])) && Unique(Flat(dirs))
      modifies `dirs, `thisRunsCachedBytes
      ensures dirs == WithoutDirs(before, Names(list[keep..i + 1])) && Unique(Flat(dirs))
      ensures Unaccounted() == old(Unaccounted())
    {
      FlatWithout(before, Names(list[keep..i]));
      InWithout(Flat(before), Names(list[keep..i]));
      assert OnlyOne(list[i], Flat(before));
      Unlink(list[i]);
      WithoutDirsTwice(before, Names(list[keep..i]), {list[i].name});
      NamesSnoc(list, keep, i);
    }

    ghost predicate Accounted()
      reads this
    {
      storedCachedBytes + thisRunsCachedBytes == TotalBytes()
    }

    /** One round: evict the end of the list, then collect what became unusable or unreferenced. */
    method ShrinkRound(list: seq<Obj>, keep: nat, ghost before: seq<seq<Obj>>, ghost listing: seq<Obj>)
      requires keep <= |list| <= |listing| && list == listing[..|list|]
      requires Unique(Flat(before)) && forall o :: o in listing <==> o in Flat(before)
      requires dirs == WithoutDirs(before, Names(listing[|list|..])) && Consistent() && Accounted()
      modifies `dirs, `blobs, `thisRunsCachedBytes
      ensures dirs == WithoutDirs(before, Names(listing[keep..])) && Consistent() && Accounted()
    {
      EvictedSoFar(before, listing, |list|);
      Evict(list, keep);
      WithoutDirsTwice(before, Names(listing[|list|..]), Names(list[keep..]));
      NamesSplit(listing, keep, |list|);
      FewerStayConsistent(old(dirs), Names(list[keep..]));
      var bytes := GcPass();
    }

    lemma FewerStayConsistent(more: seq<seq<Obj>>, gone: set<nat>)
      requires dirs == WithoutDirs(more, gone)
      requires forall d :: 0 <= d < |more| ==> |more[d]| <= shortcutTries && AllUsable(more[d], Ids(blobs))
      ensures Consistent()
    {
      forall d | 0 <= d < |dirs| ensures |dirs[d]| <= shortcutTries && AllUsable(dirs[d], Ids(blobs)) {
        InWithout(more[d], gone);
      }
    }

    function Target(): int
      reads `storedCachedBytes
    {
      Truncated(maxCacheSize as real * 0.8 - storedCachedBytes as real)
    }

    /** How many of `n` objects to keep in a round; stops when the ratio is not positive any more. */
    method KeepCount(n: nat, round: nat) returns (stop: bool, keep: nat)
      requires thisRunsCachedBytes > Target() && round <= 16
      ensures stop <==> round == 16 || maxCacheSize == 0
      ensures keep <= n
    {
      AboveTarget(maxCacheSize, storedCachedBytes, thisRunsCachedBytes);
      var total := (storedCachedBytes + thisRunsCachedBytes) as real;
      RatioInRange(maxCacheSize as real, 0.8 - round as real * 0.05, total);
      var keptRatio := (maxCacheSize as real * (0.8 - round as real * 0.05)) / total;
      if keptRatio <= 0.0 {
        return true, 0;
      }
      KeepInRange(n, keptRatio);
      return false, (n as real * keptRatio).Floor;
    }

    /** Evict until the cache is 20% below its limit, lowering the ratio of kept objects each round. */
    method ShrinkToLimit() returns (rounds: nat)
      requires Consistent() && Accounted() && Unique(Flat(dirs))
      modifies `dirs, `blobs, `thisRunsCachedBytes
      ensures Consistent() && Accounted() && rounds <= 16
      ensures rounds == 16 || maxCacheSize == 0 || TotalBytes() as real < maxCacheSize as real * 0.8 + 1.0
      ensures KeptNewest(Flat(old(dirs)), Flat(dirs))
    {
      var list := SortedByTime(Flat(dirs));
      ghost var before, listing := dirs, list;
      WithoutDirsNone(dirs);
      assert Names(listing[|listing|..]) == {};
      rounds := 0;
      while thisRunsCachedBytes > Target()
        invariant rounds <= 16 && |list| <= |listing| && list == listing[..|list|]
        invariant dirs == WithoutDirs(before, Names(listing[|list|..])) && Consistent() && Accounted()
        decreases 16 - rounds
      {
        var stop, keep := KeepCount(|list|, rounds);
        if stop {
          break;
        }
        ShrinkRound(list, keep, before, listing);
        list := list[..keep];
        rounds := rounds + 1;
      }
      AboveTarget(maxCacheSize, storedCachedBytes, thisRunsCachedBytes);
      SuffixIsOldest(before, listing, |list|);
    }

    /** The whole collection: what is `swept` by the first pass, and of that the most recently used if it is too much.
        */
    method Gc() returns (rounds: nat, ghost swept: seq<seq<Obj>>)
      requires Unique(Flat(dirs))
      modifies this
      ensures Consistent() && Accounted() && rounds <= 16
      ensures Swept(swept, old(dirs), |old(dirs)|, shortcutTries, Ids(old(blobs))) &&
        KeptNewest(Flat(swept), Flat(dirs))
      ensures
        || (TotalBytes() <= maxCacheSize && dirs == swept)
        || rounds == 16 || maxCacheSize == 0 || TotalBytes() as real < maxCacheSize as real * 0.8 + 1.0
    {
      var cacheBytes := GcPass();
      swept := dirs;
      storedCachedBytes := cacheBytes - thisRunsCachedBytes;
      forall n ensures Count(Flat(dirs), n) <= 1 {
        CountSwept(dirs, old(dirs), shortcutTries, Ids(old(blobs)), n);
      }
      rounds := 0;
      if storedCachedBytes + thisRunsCachedBytes > maxCacheSize {
        rounds := ShrinkToLimit();
      }
    }
  }

  ghost predicate Named(list: seq<Obj>, objs: seq<Obj>) {
    forall o :: o in list ==> OnlyOne(o, objs)
  }

  /** A double converted to an integer: truncation towards zero. */
  function Truncated(x: real): int {
    if x >= 0.0 then x.Floor else -((-x).Floor)
  }

  lemma AboveTarget(max: nat, stored: int, thisRuns: int)
    ensures thisRuns > Truncated(max as real * 0.8 - stored as real) ==> (stored + thisRuns) as real > max as real * 0.8
    ensures thisRuns <= Truncated(max as real * 0.8 - stored as real) ==>
      ((stored + thisRuns) as real) < max as real * 0.8 + 1.0
  {
  }

  lemma RatioInRange(max: real, part: real, total: real)
    requires max >= 0.0 && 0.0 <= part <= 0.8 && total > max * 0.8
    ensures 0.0 <= (max * part) / total <= 1.0 && ((max * part) / total > 0.0 <==> part > 0.0 && max > 0.0)
  {
    var x := max * part;
    assert 0.0 <= x <= max * 0.8 && (x > 0.0 <==> part > 0.0 && max > 0.0) by {
      if part > 0.0 && max > 0.0 { Positive(max, part); }
      var gap := 0.8 - part;
      NotNegative(max, gap);
      NotNegative(max, part);
      assert max * 0.8 == max * (part + gap) == x + max * gap;
    }
    Quotient(x, total);
  }

  lemma Positive(x: real, y: real)
    requires x > 0.0 && y > 0.0
    ensures x * y > 0.0
  {
  }

  lemma NotNegative(x: real, y: real)
    requires x >= 0.0 && y >= 0.0
    ensures x * y >= 0.0
  {
  }

  lemma Quotient(x: real, y: real)
    requires 0.0 <= x <= y && y > 0.0
    ensures 0.0 <= x / y <= 1.0 && (x / y > 0.0 <==> x > 0.0)
  {
    var q := x / y;
    assert q * y == x;
    if q > 1.0 {
      Positive(q - 1.0, y);
    } else if q < 0.0 {
      Positive(-q, y);
    } else if q > 0.0 {
      Positive(q, y);
    }
  }

  lemma KeepInRange(n: nat, ratio: real)
    requires 0.0 <= ratio <= 1.0
    ensures 0 <= (n as real * ratio).Floor <= n
  {
    assert n as real * ratio <= n as real;
  }

  /** What is left was used at least as recently as what was evicted. */
  ghost predicate KeptNewest(before: seq<Obj>, kept: seq<Obj>) {
    && (forall x :: x in kept ==> x in before)
    && forall x, y :: x in kept && y in before && y !in kept ==> x.timestamp >= y.timestamp
  }

  /** No other object has the name of `o`. */
  ghost predicate OnlyOne(o: Obj, objs: seq<Obj>) {
    forall x :: x in objs && x.name == o.name ==> x == o
  }

  lemma NamesSnoc(list: seq<Obj>, keep: nat, i: nat)
    requires keep <= i < |list|
    ensures Names(list[keep..i + 1]) == Names(list[keep..i]) + {list[i].name}
  {
    assert list[keep..i + 1] == list[keep..i] + [list[i]];
    var s := list[keep..i + 1];
    forall n | n in Names(list[keep..i]) + {list[i].name} ensures n in Names(s) {
      if n == list[i].name { assert s[i - keep].name == n; }
      else {
        var j :| 0 <= j < |list[keep..i]| && list[keep..i][j].name == n;
        assert s[j].name == n;
      }
    }
  }

  lemma WithoutDirsNone(dirs: seq<seq<Obj>>)
    ensures WithoutDirs(dirs, {}) == dirs
  {
    forall d | 0 <= d < |dirs| ensures Without(dirs[d], {}) == dirs[d] {
      WithoutNone(dirs[d]);
    }
  }

  lemma UniqueIsOnlyOne(objs: seq<Obj>, o: Obj)
    requires Unique(objs) && o in objs
    ensures OnlyOne(o, objs)
    decreases |objs|
  {
    UniqueTail(objs);
    if o != objs[0] { UniqueIsOnlyOne(objs[1..], o); }
    assert forall x :: x in objs <==> x == objs[0] || x in objs[1..];
  }

  lemma NamesSplit(listing: seq<Obj>, keep: nat, n: nat)
    requires keep <= n <= |listing|
    ensures Names(listing[n..]) + Names(listing[..n][keep..]) == Names(listing[keep..])
  {
    var a, b, c := listing[n..], listing[..n][keep..], listing[keep..];
    assert c == b + a;
    forall x | x in Names(a) + Names(b) ensures x in Names(c) {
      if x in Names(b) {
        var i :| 0 <= i < |b| && b[i].name == x;
        assert c[i].name == x;
      } else {
        var i :| 0 <= i < |a| && a[i].name == x;
        assert c[|b| + i].name == x;
      }
    }
  }

  /** What the rounds so far have left. */
  lemma EvictedSoFar(before: seq<seq<Obj>>, listing: seq<Obj>, n: nat)
    requires n <= |listing| && Unique(Flat(before)) && forall o :: o in listing <==> o in Flat(before)
    ensures
      var now := Flat(WithoutDirs(before, Names(listing[n..])));
      Unique(now) && Named(listing[..n], now)
  {
    var gone := Names(listing[n..]);
    FlatWithout(before, gone);
    InWithout(Flat(before), gone);
    forall m ensures Count(Without(Flat(before), gone), m) <= 1 {
      UniqueWithout(Flat(before), gone, m);
    }
    forall o | o in listing[..n] ensures OnlyOne(o, Without(Flat(before), gone)) {
      UniqueIsOnlyOne(Flat(before), o);
    }
  }

  lemma SuffixIsOldest(before: seq<seq<Obj>>, listing: seq<Obj>, n: nat)
    requires n <= |listing| && NewestFirst(listing)
    requires Unique(Flat(before)) && forall o :: o in listing <==> o in Flat(before)
    ensures KeptNewest(Flat(before), Flat(WithoutDirs(before, Names(listing[n..]))))
  {
    var gone := Names(listing[n..]);
    var now := Without(Flat(before), gone);
    FlatWithout(before, gone);
    InWithout(Flat(before), gone);
    forall i | n <= i < |listing| ensures listing[i].name in gone { assert listing[n..][i - n] == listing[i]; }
    forall x, y | x in now && y in Flat(before) && y !in now ensures x.timestamp >= y.timestamp {
      var i :| 0 <= i < |listing| && listing[i] == x;
      var j :| 0 <= j < |listing[n..]| && listing[n..][j].name == y.name;
      assert listing[n + j] in Flat(before);
      UniqueIsOnlyOne(Flat(before), y);
      assert listing[n + j] == y;
    }
  }

  lemma StillUsable(blobs: seq<BlobFile>, referenced: set<BlobId>)
    ensures Ids(Referenced(blobs, referenced)) == Ids(blobs) * referenced
  {
    var r := Referenced(blobs, referenced);
    forall id | id in Ids(blobs) * referenced ensures id in Ids(r) {
      var i :| 0 <= i < |blobs| && blobs[i].id == id;
      assert blobs[i] in r;
    }
    forall id | id in Ids(r) ensures id in Ids(blobs) * referenced {
      var i :| 0 <= i < |r| && r[i].id == id;
      assert r[i] in blobs;
    }
  }

  // ------------------------------------------------------------------------------------------
  // What collection means for shortcutting.
  // ------------------------------------------------------------------------------------------

  /** find_shortcut(): the first match among the candidates that are tried. */
  method FindShortcut(objs: seq<Obj>, tries: nat, matching: set<nat>) returns (hit: bool, at: nat)
    ensures hit <==> Hit(objs, tries, matching)
    ensures hit ==> at < |objs| && objs[at].usableInputs && objs[at].name in matching
    ensures hit ==> forall i :: 0 <= i < at ==> !(objs[i].usableInputs && objs[i].name in matching)
  {
    var attempts := 0;
    for i := 0 to |objs|
      invariant attempts == i
      invariant forall j :: 0 <= j < i ==> j <= tries && !(objs[j].usableInputs && objs[j].name in matching)
    {
      attempts := attempts + 1;
      if attempts - 1 > tries {
        return false, 0;
      }
      if objs[i].usableInputs && objs[i].name in matching {
        return true, i;
      }
    }
    return false, 0;
  }

  ghost predicate Hit(objs: seq<Obj>, tries: nat, matching: set<nat>) {
    exists i :: 0 <= i < |objs| && i <= tries && objs[i].usableInputs && objs[i].name in matching
  }

  lemma {:induction false} KeptIsPrefix(objs: seq<Obj>, tries: nat, present: set<BlobId>)
    requires AllUsable(objs, present)
    ensures Kept(objs, tries, present) == if |objs| <= tries then objs else objs[..tries]
  {
    if objs != [] && tries > 0 {
      var rest := objs[1..];
      assert objs[0] in objs && objs == [objs[0]] + rest;
      KeptIsPrefix(rest, tries - 1, present);
      if |objs| > tries { assert objs[..tries] == [objs[0]] + rest[..tries - 1]; }
    }
  }

  ghost predicate AllUsable(objs: seq<Obj>, present: set<BlobId>) {
    forall o :: o in objs ==> Usable(o, present)
  }

  /** The object is among the first `tries` usable ones. */
  ghost predicate IsKept(objs: seq<Obj>, tries: nat, present: set<BlobId>, i: int) {
    0 <= i < |objs| && Usable(objs[i], present) && |Kept(objs[..i], tries, present)| < tries
  }

  lemma {:induction false} KeptIff(objs: seq<Obj>, tries: nat, present: set<BlobId>, o: Obj)
    ensures o in Kept(objs, tries, present) <==> exists i :: IsKept(objs, tries, present, i) && objs[i] == o
  {
    if objs != [] && tries > 0 {
      var rest, left := objs[1..], if Usable(objs[0], present) then tries - 1 else tries;
      KeptIff(rest, left, present, o);
      assert objs[..0] == [] && (IsKept(objs, tries, present, 0) <==> Usable(objs[0], present));
      if i :| IsKept(rest, left, present, i) && rest[i] == o {
        KeptSkipsFirst(objs, tries, present, i);
        assert IsKept(objs, tries, present, i + 1);
      }
      if i :| IsKept(objs, tries, present, i) && objs[i] == o && i > 0 {
        KeptSkipsFirst(objs, tries, present, i - 1);
        assert IsKept(rest, left, present, i - 1);
      }
    }
  }

  /** Some object that is kept matches. */
  ghost predicate KeptMatch(objs: seq<Obj>, tries: nat, present: set<BlobId>, matching: set<nat>) {
    exists i :: IsKept(objs, tries, present, i) && objs[i].name in matching
  }

  lemma HitAfterCollection(objs: seq<Obj>, tries: nat, present: set<BlobId>, matching: set<nat>)
    ensures Hit(Kept(objs, tries, present), tries, matching) <==> KeptMatch(objs, tries, present, matching)
  {
    var kept := Kept(objs, tries, present);
    KeptIsUsable(objs, tries, present);
    if i :| IsKept(objs, tries, present, i) && objs[i].name in matching {
      KeptIff(objs, tries, present, objs[i]);
      var j :| 0 <= j < |kept| && kept[j] == objs[i];
      assert kept[j] in kept;
    }
    if j :| 0 <= j < |kept| && j <= tries && kept[j].usableInputs && kept[j].name in matching {
      KeptIff(objs, tries, present, kept[j]);
    }
  }

  /**
   * The object pass keeps `tries` usable objects of a directory, but shortcutting tries one object more, usable or
   * not: the pass loses the hit exactly if there is one, and none of the first `tries` usable objects matches.
   */
  lemma CollectionLosesHitIff(objs: seq<Obj>, tries: nat, present: set<BlobId>, matching: set<nat>)
    ensures
      Hit(objs, tries, matching) && !Hit(Kept(objs, tries, present), tries, matching) <==>
      Hit(objs, tries, matching) && !KeptMatch(objs, tries, present, matching)
  {
    HitAfterCollection(objs, tries, present, matching);
  }

  /** One of the first `n` objects matches. */
  ghost predicate Early(objs: seq<Obj>, n: nat, matching: set<nat>) {
    exists i :: 0 <= i < |objs| && i < n && objs[i].name in matching
  }

  lemma HitIsEarly(objs: seq<Obj>, tries: nat, matching: set<nat>)
    requires forall i :: 0 <= i < |objs| ==> objs[i].usableInputs
    ensures Hit(objs, tries, matching) <==> Early(objs, tries + 1, matching)
  {
  }

  /** If all objects are usable: exactly if the only match among those tried is the one after the first `tries`. */
  lemma UsableCollectionLosesHitIff(objs: seq<Obj>, tries: nat, present: set<BlobId>, matching: set<nat>)
    requires AllUsable(objs, present)
    ensures
      Hit(objs, tries, matching) && !Hit(Kept(objs, tries, present), tries, matching) <==>
      |objs| > tries && objs[tries].name in matching && !Early(objs, tries, matching)
  {
    var kept := Kept(objs, tries, present);
    KeptIsPrefix(objs, tries, present);
    assert forall i :: 0 <= i < |objs| ==> objs[i] in objs;
    HitIsEarly(objs, tries, matching);
    HitIsEarly(kept, tries, matching);
    assert Early(kept, tries + 1, matching) <==> Early(objs, tries, matching) by {
      assert forall i :: 0 <= i < |kept| ==> kept[i] == objs[i];
    }
  }
}
