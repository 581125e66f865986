/** What the supervisor knows about one path: the six-valued file type with its optional size, hash
    and permission bits (`FileInfo`), the record kept for one process and one path (`FileUsage`),
    and the merge of a new observation into that record.

    A `FileInfo` stands for the set of file system entries that satisfy it.  The lemmas at the end
    of the module say which set a whole sequence of merges records. */
module FileUsages {
  import opened Options

  /** Permission bits, as the set of bit numbers (0 to 11) that are on. */
  type Mode = set<nat>
  type Content = seq<bv8>
  type Listing = set<string>

  const ALL_MODE_BITS: Mode := set b: nat | 0 <= b < 12   // 07777

  /** A checksum.  Hashing is taken to be injective, so it carries what was hashed. */
  datatype Hash = OfContent(content: Content) | OfListing(listing: Listing)

  /** What a path really holds. */
  datatype Entry = Missing | Reg(content: Content, perm: Mode) | Dir(listing: Listing, perm: Mode)

  datatype FileType = DontKnow | Exist | NotExist | NotExistOrIsReg | IsReg | IsDir

  datatype FileInfo = FileInfo(fileType: FileType, size: Option<nat>, hash: Option<Hash>, mode: Mode, modeMask: Mode)
  {
    /** Set or clear the bits enabled by the mask, leave the others unchanged. */
    function SetModeBits(m: Mode, mask: Mode): FileInfo {
      this.(mode := (mode - mask) + (m * mask), modeMask := modeMask + mask)
    }
  }

  function OnlyType(t: FileType): FileInfo {
    FileInfo(t, None, None, {}, {})
  }

  /** The checksum an update will supply: none, a value, or a computation that ends in an error. */
  datatype HashLookup = NoHash | HashIs(hash: Hash) | HashError

  /** One observation or change of a path.  `fileType` is None when its look-up ends in an error. */
  datatype Update = Update(fileType: Option<FileType>, size: Option<nat>, hash: HashLookup,
                           mode: Mode, modeMask: Mode, written: bool, modeChanged: bool,
                           tmpFile: bool, generation: nat, parentType: FileType)

  datatype FileUsage = FileUsage(initial: FileInfo, written: bool, modeChanged: bool, tmpFile: bool,
                                 propagated: bool, generation: nat)

  /** The usage a process that knows nothing about a path starts from. */
  const NOTHING_KNOWN := FileUsage(OnlyType(DontKnow), false, false, false, true, 0)

  /** Merge the new observation `u` into `fu`; None when they contradict each other or when a value
      that is needed now could not be looked up. */
  function Merge(fu: FileUsage, u: Update, propagated: bool): Option<FileUsage>
    requires GenerationFits(fu, u)
  {
    var fu := fu.(generation := u.generation);
    var withInitial := if fu.written then Some(fu.initial) else MergeInitial(fu.initial, u);
    if withInitial.None? then
      None
    else
      var info := withInitial.value;
      var info := if fu.modeChanged then info else info.SetModeBits(u.mode, u.modeMask);
      Some(FileUsage(info, fu.written || u.written, fu.modeChanged || u.modeChanged,
                     fu.tmpFile || u.tmpFile, propagated, u.generation))
  }

  /** What the callers of merge guarantee about generations. */
  predicate GenerationFits(fu: FileUsage, u: Update) {
    || fu.generation == u.generation
    || (fu.generation == 0 && fu.initial.fileType == DontKnow)
    || fu.generation + 1 == u.generation
  }

  /** The part of merge that runs only while the path has not been written. */
  function MergeInitial(i: FileInfo, u: Update): Option<FileInfo> {
    if u.fileType.None? then
      None
    else
      var t := u.fileType.value;
      match i.fileType
      case DontKnow => TakeHash(TakeSize(i.(fileType := t), u), u)
      case Exist =>
        if t == NotExist then
          None
        else if t == NotExistOrIsReg then
          Some(i.(fileType := IsReg, size := if u.size.Some? then u.size else i.size))
        else
          TakeHash(TakeSize(i.(fileType := t), u), u)
      case NotExist =>
        if t != DontKnow && t != NotExist && t != NotExistOrIsReg then None else Some(i)
      case NotExistOrIsReg => Some(i)
      case IsReg =>
        if t != DontKnow && t != Exist && t != NotExistOrIsReg && t != IsReg then None
        else TakeHash(TakeSize(i, u), u)
      case IsDir =>
        if t != DontKnow && t != Exist && t != IsDir then None else TakeHash(i, u)
  }

  function TakeSize(i: FileInfo, u: Update): FileInfo {
    if i.size.None? && u.size.Some? then i.(size := u.size) else i
  }

  function TakeHash(i: FileInfo, u: Update): Option<FileInfo> {
    if i.hash.None? && !u.hash.NoHash? then
      if u.hash.HashError? then None else Some(i.(hash := Some(u.hash.hash)))
    else
      Some(i)
  }

  // ------------------------------------------------------------------------------------------
  // Meaning: the entries that satisfy what is known.
  // ------------------------------------------------------------------------------------------

  function HashOf(e: Entry): Hash
    requires !e.Missing?
  {
    if e.Reg? then OfContent(e.content) else OfListing(e.listing)
  }

  predicate SizeAndHashFit(e: Entry, size: Option<nat>, hash: Option<Hash>)
    requires !e.Missing?
  {
    && (size.Some? && e.Reg? ==> size.value == |e.content|)
    && (hash.Some? ==> hash.value == HashOf(e))
  }

  /** The entry has the known type, size and checksum. */
  predicate Fits(e: Entry, t: FileType, size: Option<nat>, hash: Option<Hash>) {
    match t
    case DontKnow => true
    case Exist => !e.Missing?
    case NotExist => e.Missing?
    case NotExistOrIsReg => e.Missing? || (e.Reg? && SizeAndHashFit(e, size, hash))
    case IsReg => e.Reg? && SizeAndHashFit(e, size, hash)
    case IsDir => e.Dir? && SizeAndHashFit(e, size, hash)
  }

  /** The entry has the known permission bits. */
  ghost predicate ModeFits(e: Entry, mode: Mode, mask: Mode) {
    if e.Missing? then mask == {} else forall b :: b in mask ==> (b in e.perm <==> b in mode)
  }

  predicate InfoFits(e: Entry, i: FileInfo) {
    Fits(e, i.fileType, i.size, i.hash)
  }

  predicate UpdateFits(e: Entry, u: Update) {
    && u.fileType.Some?
    && !u.hash.HashError?
    && Fits(e, u.fileType.value, u.size, UpdateHash(u))
  }

  function UpdateHash(u: Update): Option<Hash> {
    if u.hash.HashIs? then Some(u.hash.hash) else None
  }

  /** Sizes and checksums are known only of types that have them. */
  predicate WellTyped(t: FileType, size: Option<nat>, hash: Option<Hash>) {
    && (size.Some? ==> t == IsReg || (t == NotExistOrIsReg && size.value == 0))
    && (hash.Some? ==> t == IsReg || t == IsDir)
  }

  predicate ValidInfo(i: FileInfo) {
    WellTyped(i.fileType, i.size, i.hash) && i.mode <= i.modeMask
  }

  predicate ValidUpdate(u: Update) {
    && (u.fileType.Some? ==> WellTyped(u.fileType.value, u.size, UpdateHash(u)))
    && (u.hash.HashError? && u.fileType.Some? ==> u.fileType.value == IsReg || u.fileType.value == IsDir)
    && u.mode <= u.modeMask
  }

  // ------------------------------------------------------------------------------------------
  // One merge.
  // ------------------------------------------------------------------------------------------

  /** The two situations in which merging into an unwritten usage does not conjoin the facts: a
      known existence is reset by an update that knows nothing, and a usage that may be missing or
      regular ignores a fact that would narrow it. */
  predicate Forgets(i: FileInfo, u: Update)
    requires u.fileType.Some?
  {
    i.fileType == Exist && u.fileType.value == DontKnow
  }

  predicate Ignores(i: FileInfo, u: Update)
    requires u.fileType.Some?
  {
    && i.fileType == NotExistOrIsReg
    && u.fileType.value != DontKnow
    && !(u.fileType.value == NotExistOrIsReg && (u.size.None? || u.size == i.size))
  }

  predicate Conjoins(i: FileInfo, u: Update) {
    u.fileType.Some? && !Forgets(i, u) && !Ignores(i, u)
  }

  lemma MergeInitialKeepsValid(i: FileInfo, u: Update)
    requires ValidInfo(i) && ValidUpdate(u)
    ensures MergeInitial(i, u).Some? ==> ValidInfo(MergeInitial(i, u).value)
  {
  }

  /** Where the merge conjoins, an entry satisfies the result exactly when it satisfies both parts.
      `truth` is any entry both are true of: it rules out contradictory sizes or checksums. */
  lemma MergeIsMeet(i: FileInfo, u: Update, truth: Entry, e: Entry)
    requires ValidInfo(i) && ValidUpdate(u) && Conjoins(i, u)
    requires InfoFits(truth, i) && UpdateFits(truth, u)
    ensures MergeInitial(i, u).Some?
    ensures InfoFits(e, MergeInitial(i, u).value) <==> InfoFits(e, i) && UpdateFits(e, u)
  {
  }

  /** The merge conjoins exactly outside the two situations above. */
  lemma MergeIsMeetIff(i: FileInfo, u: Update, truth: Entry)
    requires ValidInfo(i) && ValidUpdate(u)
    requires InfoFits(truth, i) && UpdateFits(truth, u)
    ensures MergeInitial(i, u).Some?
    ensures (forall e :: InfoFits(e, MergeInitial(i, u).value) <==> InfoFits(e, i) && UpdateFits(e, u))
       <==> Conjoins(i, u)
  {
    var r := MergeInitial(i, u).value;
    if Conjoins(i, u) {
      forall e ensures InfoFits(e, r) <==> InfoFits(e, i) && UpdateFits(e, u) {
        MergeIsMeet(i, u, truth, e);
      }
    } else if Forgets(i, u) {
      assert InfoFits(Missing, r) && !InfoFits(Missing, i);
    } else {
      var byte: bv8 := 0;
      var other := if u.fileType.value == NotExistOrIsReg then Reg([byte], {})
                      else if u.fileType.value == NotExist then Reg([], {}) else Missing;
      assert i.fileType == NotExistOrIsReg && r == i;
      assert InfoFits(other, r) && !UpdateFits(other, u);
    }
  }
}
