/** The in-memory cache of stat information and checksums. */
module HashCaches {
  import opened FileNames
  import opened FileUsages
  import opened Options

  type Timestamp = int

  /** What is at a path, with the metadata that the cache compares. */
  datatype File =
    | Absent
    | Special
    | Regular(content: Content, perm: Mode, mtime: Timestamp, inode: nat)
    | Directory(listing: Listing, perm: Mode, mtime: Timestamp, inode: nat)

  /** For the cache only regular files and directories exist. */
  function View(f: File): Entry {
    match f
    case Regular(content, perm, _, _) => Reg(content, perm)
    case Directory(listing, perm, _, _) => Dir(listing, perm)
    case _ => Missing
  }

  /** What stat() can tell apart. */
  predicate SameStat(f: File, g: File) {
    || (f.Regular? && g.Regular? && |f.content| == |g.content| && f.mtime == g.mtime && f.inode == g.inode)
    || (f.Directory? && g.Directory? && f.mtime == g.mtime && f.inode == g.inode)
  }

  datatype HashCacheEntry = HashCacheEntry(info: FileInfo, mtime: Timestamp, inode: nat, isStored: bool)

  const NEW_ENTRY := HashCacheEntry(OnlyType(DontKnow), 0, 0, false)
  const NOTEXIST_ENTRY := HashCacheEntry(OnlyType(NotExist), 0, 0, false)
  const DONTKNOW_ENTRY := HashCacheEntry(OnlyType(DontKnow), 0, 0, false)

  /** The entry describes the file: exactly, except that the checksum may be unknown. */
  predicate Describes(e: HashCacheEntry, f: File) {
    match e.info.fileType
    case NotExist => View(f).Missing?
    case IsReg =>
      && f.Regular? && e.info.size == Some(|f.content|) && e.mtime == f.mtime && e.inode == f.inode
      && e.info.mode == f.perm * ALL_MODE_BITS && e.info.modeMask == ALL_MODE_BITS
      && (e.info.hash.Some? ==> e.info.hash.value == OfContent(f.content))
    case IsDir =>
      && f.Directory? && e.info.size.None? && e.mtime == f.mtime && e.inode == f.inode
      && e.info.mode == f.perm * ALL_MODE_BITS && e.info.modeMask == ALL_MODE_BITS
      && (e.info.hash.Some? ==> e.info.hash.value == OfListing(f.listing))
    case _ => false
  }

  /** Refresh the stat information from the file `f`; forget the checksum if the stat information changed. */
  function UpdateStatinfo(path: FileName, f: File, e: HashCacheEntry): HashCacheEntry {
    if path.inReadOnlyLocation && e.info.fileType != DontKnow then
      e
    else if View(f).Missing? then
      e.(info := e.info.(fileType := NotExist), isStored := false)
    else if f.Regular? then
      if e.info.fileType == IsReg && e.info.size == Some(|f.content|) && e.mtime == f.mtime && e.inode == f.inode then e
      else
        HashCacheEntry(FileInfo(IsReg, Some(|f.content|), None, e.info.mode, e.info.modeMask).SetModeBits(f.perm,
          ALL_MODE_BITS),
                       f.mtime, f.inode, false)
    else
      if e.info.fileType == IsDir && e.mtime == f.mtime && e.inode == f.inode then e
      else
        HashCacheEntry(FileInfo(IsDir, None, None, e.info.mode, e.info.modeMask).SetModeBits(f.perm, ALL_MODE_BITS),
                       f.mtime, f.inode, false)
  }

  /**
   * An entry that described an earlier state describes the current one after the update exactly if
   * no change escaped stat(): one that kept type, size, times and inode but changed the permission
   * bits, or the content while its checksum was known.
   */
  lemma UpdateDescribesIff(path: FileName, before: File, f: File, e: HashCacheEntry)
    requires !path.inReadOnlyLocation && Describes(e, before) && e.info.fileType != NotExist
    ensures Describes(UpdateStatinfo(path, f, e), f) <==>
      (SameStat(before, f) ==>
        && before.perm * ALL_MODE_BITS == f.perm * ALL_MODE_BITS
        && (e.info.hash.Some? ==> HashOf(View(before)) == HashOf(View(f))))
  {
    var u := UpdateStatinfo(path, f, e);
    if !View(f).Missing? && !SameStat(before, f) {
      assert (e.info.mode - ALL_MODE_BITS) + f.perm * ALL_MODE_BITS == f.perm * ALL_MODE_BITS;
      assert e.info.modeMask + ALL_MODE_BITS == ALL_MODE_BITS;
    }
  }

  lemma FreshEntryDescribes(path: FileName, f: File)
    ensures Describes(UpdateStatinfo(path, f, NEW_ENTRY), f)
  {
    assert {} - ALL_MODE_BITS + (if View(f).Missing? then {} else f.perm * ALL_MODE_BITS) ==
           (if View(f).Missing? then {} else f.perm * ALL_MODE_BITS);
    assert {} + ALL_MODE_BITS == ALL_MODE_BITS;
  }

  /**
   * Compute the checksum of the file `f` for an entry that describes it; optionally the file is
   * stored in the blob cache on the way.  None if the file can not be read or stored.
   */
  function RefreshHash(f: File, e: HashCacheEntry, store: bool, readable: bool): (r: Option<HashCacheEntry>)
    requires Describes(e, f)
    ensures r.Some? ==> Describes(r.value, f) && (r.value.info.fileType != NotExist ==> r.value.info.hash.Some?)
    ensures readable && (store ==> e.isStored || !f.Directory?) ==> r.Some?
  {
    if e.info.fileType == NotExist then
      Some(e)
    else if store && !e.isStored then
      if e.info.fileType != IsReg || !readable then None
      else Some(e.(info := e.info.(hash := Some(HashOf(View(f)))), isStored := true))
    else if e.info.hash.Some? then
      Some(e)
    else if !readable then
      None
    else
      Some(e.(info := e.info.(hash := Some(HashOf(View(f))))))
  }

  /** The states in which paths were looked up. */
  type History = set<(FileName, File)>

  /**
   * What the cache relies on: two states of a path that stat() can not tell apart are the same, and
   * paths in read-only locations never change.
   */
  ghost predicate Coherent(seen: History) {
    forall p, f, g :: (p, f) in seen && (p, g) in seen ==>
      (p.inReadOnlyLocation || SameStat(f, g) ==> f == g)
  }

  class HashCache {
    var db: map<FileName, HashCacheEntry>
    ghost var seen: History

    /** Every entry describes a state in which its path was seen; missing files are kept in read-only locations only. */
    ghost predicate Valid()
      reads this
    {
      && (forall p :: p in db ==> Known(p, db[p]))
      && forall p :: p in db && db[p].info.fileType == NotExist ==> p.inReadOnlyLocation
    }

    ghost predicate Known(p: FileName, e: HashCacheEntry)
      reads `seen
    {
      exists f :: (p, f) in seen && Describes(e, f)
    }

    constructor ()
      ensures Valid() && db == map[] && seen == {}
    {
      db, seen := map[], {};
    }

    /** An entry, once updated, describes the current state. */
    lemma Refreshed(path: FileName, f: File, e: HashCacheEntry)
      requires Coherent(seen + {(path, f)})
      requires Known(path, e) && (e.info.fileType == NotExist ==> path.inReadOnlyLocation)
      ensures Describes(UpdateStatinfo(path, f, e), f)
    {
      var before :| (path, before) in seen && Describes(e, before);
      assert (path, before) in seen + {(path, f)} && (path, f) in seen + {(path, f)};
      if !path.inReadOnlyLocation {
        UpdateDescribesIff(path, before, f, e);
      }
    }

    /** Keep an entry, unless it says that a path that may change does not exist. */
    method Keep(path: FileName, f: File, e: HashCacheEntry) returns (entry: HashCacheEntry)
      requires Valid() && Describes(e, f)
      modifies this
      ensures Valid() && seen == old(seen) + {(path, f)} && Describes(entry, f)
      ensures entry == if !path.inReadOnlyLocation && e.info.fileType == NotExist then NOTEXIST_ENTRY else e
      ensures path in db ==> db[path] == entry
      ensures path !in db ==> entry == NOTEXIST_ENTRY
    {
      seen := seen + {(path, f)};
      assert forall p :: p in db ==> Known(p, db[p]) by {
        forall p | p in db ensures Known(p, db[p]) {
          var g :| (p, g) in old(seen) && Describes(db[p], g);
          assert (p, g) in seen;
        }
      }
      if !path.inReadOnlyLocation && e.info.fileType == NotExist {
        db := db - {path};
        entry := NOTEXIST_ENTRY;
      } else {
        assert Known(path, e);
        db := db[path := e];
        entry := e;
      }
    }

    /** get_entry_with_statinfo() for a path whose current state is `f`. */
    method GetEntryWithStatinfo(path: FileName, f: File) returns (entry: HashCacheEntry)
      requires Valid() && Coherent(seen + {(path, f)})
      modifies this
      ensures Valid() && seen == old(seen) + {(path, f)} && Describes(entry, f)
      ensures path in db ==> db[path] == entry
      ensures path !in db ==> entry == NOTEXIST_ENTRY
    {
      var e;
      if path in db {
        Refreshed(path, f, db[path]);
        e := UpdateStatinfo(path, f, db[path]);
      } else {
        FreshEntryDescribes(path, f);
        e := UpdateStatinfo(path, f, NEW_ENTRY);
      }
      entry := Keep(path, f, e);
    }

    /**
     * get_entry_with_statinfo_and_hash() for a path whose current state is `f` and that has
     * `writers` writers.
     */
    method GetEntryWithStatinfoAndHash(path: FileName, maxWriters: nat, writers: nat, f: File, store: bool,
                                       readable: bool, skipStatinfoUpdate: bool) returns (entry: HashCacheEntry)
      requires Valid() && Coherent(seen + {(path, f)})
      requires skipStatinfoUpdate ==> path in db && Describes(db[path], f)
      modifies this
      ensures Valid() && old(seen) <= seen <= old(seen) + {(path, f)}
      ensures entry == DONTKNOW_ENTRY || entry == NOTEXIST_ENTRY ||
        (Describes(entry, f) && path in db && db[path] == entry)
      ensures entry.info.fileType == DontKnow <==> writers > maxWriters
      ensures entry.info.fileType == IsReg || entry.info.fileType == IsDir ==> entry.info.hash.Some?
      ensures writers <= maxWriters && readable && !store ==> Describes(entry, f)
    {
      if writers > maxWriters {
        return DONTKNOW_ENTRY;
      }
      var e;
      if skipStatinfoUpdate {
        e := db[path];
      } else if path in db {
        Refreshed(path, f, db[path]);
        e := UpdateStatinfo(path, f, db[path]);
      } else {
        FreshEntryDescribes(path, f);
        e := UpdateStatinfo(path, f, NEW_ENTRY);
      }
      var hashed := RefreshHash(f, e, store, readable);
      if hashed.None? {
        db := db - {path};
        return NOTEXIST_ENTRY;
      }
      entry := Keep(path, f, hashed.value);
    }

    /** The query as far as stat information goes. */
    static predicate StatMatches(query: FileInfo, info: FileInfo) {
      match query.fileType
      case DontKnow => true
      case Exist => info.fileType != NotExist
      case NotExist => info.fileType == NotExist
      case NotExistOrIsReg =>
        info.fileType == NotExist || (info.fileType == IsReg && (query.size.Some? ==> query.size == info.size))
      case IsReg => info.fileType == IsReg && (query.size.Some? ==> query.size == info.size)
      case IsDir => info.fileType == IsDir
    }

    /** The file satisfies the query. */
    static predicate Satisfies(f: File, query: FileInfo) {
      && Fits(View(f), query.fileType, query.size, query.hash)
      && (!View(f).Missing? ==> query.mode * query.modeMask == View(f).perm * query.modeMask)
    }

    /**
     * file_info_matches(): true only if the current file satisfies the query, and, unless its
     * checksum is needed and can not be had, exactly then.
     */
    method FileInfoMatches(path: FileName, query: FileInfo, f: File, writers: nat, readable: bool)
      returns (matches: bool)
      requires Valid() && Coherent(seen + {(path, f)})
      requires ValidQuery(query)
      modifies this
      ensures Valid() && old(seen) <= seen <= old(seen) + {(path, f)}
      ensures matches ==> Satisfies(f, query)
      ensures Satisfies(f, query) && !path.inIgnoreLocation && writers == 0 && readable ==> matches
    {
      if path.inIgnoreLocation {
        return false;
      }
      var entry := GetEntryWithStatinfo(path, f);
      if !StatMatches(query, entry.info) {
        return false;
      }
      if entry.info.fileType == NotExist {
        return true;
      }
      if query.mode * query.modeMask != entry.info.mode * query.modeMask {
        return false;
      }
      if query.hash.None? {
        return true;
      }
      if entry.info.hash.None? {
        entry := GetEntryWithStatinfoAndHash(path, 0, writers, f, false, readable, true);
        if (entry.info.fileType != IsReg && entry.info.fileType != IsDir) || entry.info.hash.None? {
          return false;
        }
      }
      return entry.info.hash == query.hash;
    }
  }

  /** One query, and what is at its path at that moment. */
  datatype Lookup = Lookup(path: FileName, query: FileInfo, file: File, writers: nat, readable: bool)

  predicate ValidQuery(query: FileInfo) {
    && query.fileType != DontKnow && query.modeMask <= ALL_MODE_BITS
    && (query.hash.Some? ==> query.fileType == IsReg || query.fileType == IsDir || query.fileType == NotExistOrIsReg)
  }

  function States(lookups: seq<Lookup>): History {
    set i | 0 <= i < |lookups| :: (lookups[i].path, lookups[i].file)
  }

  /** Over any run of file changes and lookups the cache answers as a cache-free look at each file would. */
  method Run(lookups: seq<Lookup>) returns (answers: seq<bool>)
    requires Coherent(States(lookups)) && forall i :: 0 <= i < |lookups| ==> ValidQuery(lookups[i].query)
    ensures |answers| == |lookups|
    ensures forall i :: 0 <= i < |lookups| && answers[i] ==> HashCache.Satisfies(lookups[i].file, lookups[i].query)
    ensures forall i :: 0 <= i < |lookups| && !answers[i] ==>
      || !HashCache.Satisfies(lookups[i].file, lookups[i].query)
      || lookups[i].path.inIgnoreLocation || lookups[i].writers > 0 || !lookups[i].readable
  {
    var cache := new HashCache();
    answers := [];
    while |answers| < |lookups|
      invariant cache.Valid() && fresh(cache) && cache.seen <= States(lookups) && |answers| <= |lookups|
      invariant forall i :: 0 <= i < |answers| && answers[i] ==> HashCache.Satisfies(lookups[i].file, lookups[i].query)
      invariant forall i :: 0 <= i < |answers| && !answers[i] ==>
        || !HashCache.Satisfies(lookups[i].file, lookups[i].query)
        || lookups[i].path.inIgnoreLocation || lookups[i].writers > 0 || !lookups[i].readable
    {
      var l := lookups[|answers|];
      assert cache.seen + {(l.path, l.file)} <= States(lookups);
      var answer := cache.FileInfoMatches(l.path, l.query, l.file, l.writers, l.readable);
      answers := answers + [answer];
    }
  }

  /** A chmod that leaves the modification time alone is not noticed: the assumption on permission bits is needed. */
  lemma ChmodIsMissed(path: FileName, content: Content, mtime: Timestamp, inode: nat)
    requires !path.inReadOnlyLocation
    ensures
      var before, f := Regular(content, {8}, mtime, inode), Regular(content, {7, 8}, mtime, inode);
      var e := UpdateStatinfo(path, before, NEW_ENTRY);
      && Describes(e, before) && UpdateStatinfo(path, f, e) == e && !Describes(e, f)
  {
    var before, f := Regular(content, {8}, mtime, inode), Regular(content, {7, 8}, mtime, inode);
    FreshEntryDescribes(path, before);
    UpdateDescribesIff(path, before, f, UpdateStatinfo(path, before, NEW_ENTRY));
    assert 7 in f.perm * ALL_MODE_BITS && 7 !in before.perm * ALL_MODE_BITS;
  }
}
