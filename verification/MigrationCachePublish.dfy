/** _copy_cache of docker/_systemd_migration_apply.py on top of staging, and
    the cache half of the planner that meets its results again. */
module MigrationCachePublish {
  import opened Wrappers
  import opened MigrationModel
  import opened MigrationInventory
  import opened MigrationCache

  /** What the rename publishes: the staged tree with its manifest in it. */
  ghost predicate Published(u: Tree, entries: seq<Entry>, own: Ownership, codec: Codec) {
    && Rooted(u) && u[[]] == StageRoot(own)
    && ManifestFileFine(u, own) && u[ManifestPath].content == codec.encode(entries)
    && FineBelow(u, [], true, own, ManifestSkip)
    && Listing(u, [], ManifestSkip) == entries
  }

  ghost predicate AnyTree(t: Option<Tree>) {
    t.Some? ==> IsTree(t.value)
  }

  /** The source is as it was planned: it lists the manifest. */
  ghost predicate PlannedFrom(source: Tree, entries: seq<Entry>, own: Ownership) {
    && Rooted(source) && ManifestPath !in source
    && FineBelow(source, [], false, own, None)
    && entries == Listing(source, [], None)
  }

  ghost predicate NamesSafe(entries: seq<Entry>) {
    forall e :: e in entries ==> SafeRelative(e.path)
  }

  /** Nothing is there yet, nobody else publishes, no system call fails. */
  ghost predicate Quiet(h: CacheHost, own: Ownership)
    reads h
  {
    h.target.None? && h.raced.None? && TrustedParent(h.parent, own.envUid) && h.faults == []
  }

  lemma PlannedIsCopyable(source: Tree, entries: seq<Entry>, own: Ownership)
    requires PlannedFrom(source, entries, own)
    ensures Independent(entries)
    ensures forall e :: e in entries ==> (Copyable(source, e) <==> SafeRelative(e.path))
  {
    ListingIndependent(source, None);
    forall e | e in entries ensures SourceMatches(source, e) {
      ListingIsFiles(source, [], None, e);
      assert Visited(source, [], e.path, None);
    }
  }

  /** The size limit is all that stands between a published cache and its
      own validation. */
  lemma PublishedValid(u: Tree, entries: seq<Entry>, own: Ownership, codec: Codec)
    requires Published(u, entries, own, codec) && codec.Valid()
    ensures CacheValid(u, own, codec) <==> |codec.encode(entries)| <= MAX_CACHE_MANIFEST_BYTES
  {
    assert codec.decode(codec.encode(entries)) == Some(entries);
  }

  /** ensure_directory of the staging directory, outside the try block: it is
      there with its metadata or not at all. */
  method CreateStaging(h: CacheHost, own: Ownership) returns (r: Outcome)
    requires h.staging == None
    modifies h`staging, h`faults
    ensures h.staging == if r.Success? then Some(map[[] := StageRoot(own)]) else None
    ensures old(h.faults) == [] ==> h.faults == [] && r.Success?
  {
    var bad := h.Fault();
    if bad {
      return Failure(TargetCreateFailed);
    }
    bad := h.Fault();
    if bad {
      return Failure(TargetMetadataFailed);
    }
    h.staging := Some(map[[] := StageRoot(own)]);
    return Success(());
  }

  /** write_bytes_new of the manifest, and the sync of what is staged. */
  method WriteManifest(h: CacheHost, content: Content, own: Ownership) returns (r: Outcome)
    requires h.StagingFine() && h.staging.value[[]].Dir?
    modifies h`staging, h`faults, h`nextIno
    ensures h.StagingFine() && old(h.nextIno) <= h.nextIno
    ensures r.Success? ==>
      && ManifestPath !in old(h.staging.value)
      && h.staging == Some(old(h.staging.value)[ManifestPath := ManifestFile(content, own, old(h.nextIno))])
    ensures old(h.faults) == [] ==> h.faults == [] && (r.Success? <==> ManifestPath !in old(h.staging.value))
  {
    hide InosUnder;
    var bad := h.Fault();
    if bad || ManifestPath in h.staging.value {
      return Failure(TargetWriteFailed);
    }
    bad := h.Fault();
    var before, written := h.staging.value, if bad then ManifestFile([], own, h.nextIno) else ManifestFile(content, own, h.nextIno);
    h.nextIno := h.nextIno + 1;
    assert ManifestPath[..|ManifestPath| - 1] == [];
    ParentedAdd(before, ManifestPath, written);
    InosUnderAdd(before, ManifestPath, written, h.nextIno - 1, h.nextIno);
    h.staging := Some(before[ManifestPath := written]);
    if bad {
      return Failure(TargetWriteFailed);
    }
    bad := h.Fault();
    return if bad then Failure(TargetSyncFailed) else Success(());
  }

  /** Populating and verifying the staging directory. */
  method StageCache(h: CacheHost, source: Tree, entries: seq<Entry>, own: Ownership, codec: Codec) returns (r: Outcome)
    requires h.staging == Some(map[[] := StageRoot(own)])
    modifies h`staging, h`faults, h`nextIno
    ensures h.StagingFine() && old(h.nextIno) <= h.nextIno
    ensures r.Success? ==> Published(h.staging.value, entries, own, codec)
    ensures PlannedFrom(source, entries, own) && r.Success? ==> NamesSafe(entries)
    ensures old(h.faults) == [] ==> h.faults == []
    ensures old(h.faults) == [] && PlannedFrom(source, entries, own) && NamesSafe(entries) ==> r.Success?
  {
    hide Independent, Listing, Rooted, FineBelow, InosUnder, Staged, SafeRelative, Copyable, IsTree, Published, ManifestFileFine;
    r := h.PopulateCache(source, entries, own);
    if PlannedFrom(source, entries, own) {
      PlannedIsCopyable(source, entries, own);
    }
    if r.Failure? {
      return;
    }
    ghost var staged, ino := h.staging.value, h.nextIno;
    StagedRoot(staged, entries, own);
    if PlannedFrom(source, entries, own) {
      StagedRoundTrip(source, staged, codec.encode(entries), entries, own, ino);
    }
    r := WriteManifest(h, codec.encode(entries), own);
    if r.Success? {
      StagedIsRooted(staged, codec.encode(entries), entries, own, ino);
      r := VerifyStaged(h, entries, own, codec, staged, ino);
    }
  }

  lemma StagedRoot(staged: Tree, entries: seq<Entry>, own: Ownership)
    requires Staged(staged, entries, |entries|, own)
    ensures [] in staged && staged[[]] == StageRoot(own) && staged[[]].Dir?
  {
  }

  /** _verify_staged_cache */
  method VerifyStaged(h: CacheHost, entries: seq<Entry>, own: Ownership, codec: Codec, ghost staged: Tree, ghost ino: int) returns (r: Outcome)
    requires h.staging == Some(staged[ManifestPath := ManifestFile(codec.encode(entries), own, ino)]) && Rooted(h.staging.value)
    requires [] in staged && staged[[]] == StageRoot(own)
    ensures r.Success? ==> Published(h.staging.value, entries, own, codec)
    ensures r.Success? <==> FineBelow(h.staging.value, [], true, own, ManifestSkip) && Listing(h.staging.value, [], ManifestSkip) == entries
  {
    hide Listing, Rooted, FineBelow;
    var actual := InventoryTree(h.staging.value, true, own, ManifestSkip);
    if actual.Failure? {
      return Failure(actual.error);
    }
    return if actual.value != entries then Failure(CacheVerifyFailed) else Success(());
  }

  /** _publish_cache: rename without replacing, after whatever another process
      may have published in the meantime. The open, the rename and either sync
      may fail. */
  method PublishCache(h: CacheHost) returns (published: bool, r: Outcome)
    requires h.staging.Some? && h.target.None?
    modifies h`staging, h`target, h`faults
    ensures h.target == None || h.target == if h.raced.Some? then h.raced else old(h.staging)
    ensures h.staging == if h.target.Some? && h.raced.None? then None else old(h.staging)
    ensures r.Success? ==> h.target.Some? && (published <==> h.raced.None?)
    ensures old(h.faults) == [] ==> h.faults == [] && r.Success?
  {
    published := false;
    var bad := h.Fault();
    if bad {
      return false, Failure(PathUnavailable);
    }
    bad := h.Fault();
    if h.raced.Some? {
      h.target := h.raced;
    } else if bad {
      return false, Failure(CachePublishFailed);
    } else {
      h.target, h.staging := h.staging, None;
      published := true;
    }
    bad := h.Fault();
    if !bad {
      bad := h.Fault();
    }
    r := if bad then Failure(CachePublishSyncFailed) else Success(());
  }

  /** The finally clause: what is still staged goes, or the failure to remove it
      replaces whatever was to be reported. */
  method CleanUpStaging(h: CacheHost, soFar: Result<Status, Reason>) returns (r: Result<Status, Reason>)
    modifies h`staging, h`faults
    ensures h.staging == None || (h.staging == old(h.staging) && r.Failure?)
    ensures r.Success? ==> r == soFar
    ensures old(h.faults) == [] ==> h.faults == [] && h.staging == None && r == soFar
    ensures old(h.staging) == None ==> r == soFar
  {
    if h.staging.None? {
      return soFar;
    }
    var bad := h.Fault();
    if bad {
      return Failure(TemporaryCleanupFailed);
    }
    h.staging := None;
    bad := h.Fault();
    return if bad then Failure(TemporaryCleanupFailed) else soFar;
  }

  /** The try block of _copy_cache. */
  method StageAndPublish(h: CacheHost, source: Tree, entries: seq<Entry>, own: Ownership, codec: Codec)
    returns (r: Result<Status, Reason>)
    requires h.staging == Some(map[[] := StageRoot(own)]) && h.target.None? && AnyTree(h.raced) && codec.Valid()
    requires TrustedParent(h.parent, own.envUid)
    modifies h`staging, h`target, h`faults, h`nextIno
    ensures old(h.nextIno) <= h.nextIno && (old(h.faults) == [] ==> h.faults == [])
    ensures h.staging.Some? ==> h.StagingFine()
    ensures h.target.Some? && h.raced.Some? ==> h.target == h.raced && r != Success(Copied)
    ensures h.target.Some? && h.raced.None? ==>
      Published(h.target.value, entries, own, codec) && InosUnder(h.target.value, h.nextIno)
    ensures r.Success? ==> r.value != NotRequested && h.target.Some? && CacheValid(h.target.value, own, codec)
    ensures h.raced.None? ==> r != Success(Existing)
    ensures PlannedFrom(source, entries, own) && h.target.Some? && h.raced.None? ==> NamesSafe(entries)
    ensures PlannedFrom(source, entries, own) && old(h.faults) == [] && h.raced.None? ==>
      && (h.target.Some? <==> NamesSafe(entries))
      && (r.Success? <==> NamesSafe(entries) && |codec.encode(entries)| <= MAX_CACHE_MANIFEST_BYTES)
      && (r.Success? ==> r == Success(Copied))
  {
    hide Published, PlannedFrom, CacheValid, NamesSafe, InosUnder, Parented;
    var staged := StageCache(h, source, entries, own, codec);
    if staged.Failure? {
      return Failure(staged.error);
    }
    ghost var u := h.staging.value;
    var published, synced := PublishCache(h);
    if h.target.Some? && h.raced.None? {
      PublishedValid(u, entries, own, codec);
    }
    if synced.Failure? {
      return Failure(synced.error);
    }
    var ok := ValidateExistingCache(h.target.value, own, codec);
    return if !ok then Failure(UnsafeExistingTarget) else if published then Success(Copied) else Success(Existing);
  }

  /** _copy_cache: an existing cache is never touched, whoever published it;
      what is published lists exactly the manifest; staging survives only if
      its removal fails, which is reported; and success always means a cache
      that validates. Undisturbed, a planned copy succeeds exactly when all
      names are safe and the encoded manifest fits, but a manifest that does
      not fit is found out too late: the cache is published all the same. */
  method CopyCache(h: CacheHost, source: Tree, manifest: Option<seq<Entry>>, own: Ownership, codec: Codec)
    returns (r: Result<Status, Reason>)
    requires h.staging == None && AnyTree(h.target) && AnyTree(h.raced) && codec.Valid()
    modifies h`staging, h`target, h`faults, h`nextIno
    ensures AnyTree(h.target) && old(h.nextIno) <= h.nextIno
    ensures h.staging.Some? ==> h.StagingFine() && r.Failure?
    ensures old(h.faults) == [] ==> h.faults == [] && h.staging == None
    ensures old(h.target).Some? ==> h.target == old(h.target) && r != Success(Copied)
    ensures old(h.target).None? && h.target.Some? && h.raced.Some? ==> h.target == h.raced && r != Success(Copied)
    ensures old(h.target).None? && h.target.Some? && h.raced.None? ==>
      manifest.Some? && Published(h.target.value, manifest.value, own, codec) && InosUnder(h.target.value, h.nextIno)
    ensures r == Success(NotRequested) <==> manifest.None?
    ensures old(h.target).None? && h.raced.None? ==> r != Success(Existing)
    ensures old(h.target).None? && manifest.Some? && !TrustedParent(h.parent, own.envUid) ==> r.Failure? && h.target.None?
    ensures manifest.None? ==> h.target == old(h.target) && h.staging == None
    ensures r.Success? && manifest.Some? ==> h.target.Some? && CacheValid(h.target.value, own, codec)
    ensures manifest.Some? && PlannedFrom(source, manifest.value, own) && old(Quiet(h, own)) ==>
      && (h.target.Some? <==> NamesSafe(manifest.value))
      && (r == Success(Copied) <==>
          NamesSafe(manifest.value) && |codec.encode(manifest.value)| <= MAX_CACHE_MANIFEST_BYTES)
  {
    hide Published, PlannedFrom, CacheValid, NamesSafe, InosUnder;
    if manifest.None? {
      return Success(NotRequested);
    }
    if h.target.Some? {
      var ok := ValidateExistingCache(h.target.value, own, codec);
      return if ok then Success(Existing) else Failure(UnsafeExistingTarget);
    }
    if !TrustedParent(h.parent, own.envUid) {
      return Failure(UntrustedCacheParent);
    }
    var created := CreateStaging(h, own);
    if created.Failure? {
      return Failure(created.error);
    }
    r := StageAndPublish(h, source, manifest.value, own, codec);
    if h.target.Some? && h.raced.None? {
      PublishedTree(h.target.value, manifest.value, own, codec);
    }
    r := CleanUpStaging(h, r);
  }

  lemma PublishedTree(u: Tree, entries: seq<Entry>, own: Ownership, codec: Codec)
    requires Published(u, entries, own, codec)
    ensures AnyTree(Some(u))
  {
  }

  // ----- Planning again -----

  datatype CachePlan = AlreadyThere(entries: seq<Entry>) | NothingAsked | Ready(entries: seq<Entry>)

  /** What the planner accepts: it forgives the root a mode that is not open to
      others. */
  ghost predicate CacheAcceptable(t: Tree, own: Ownership, codec: Codec) {
    && [] in t && t[[]].Dir? && t[[]].mode & GROUP_OTHER_WRITE == 0
    && CacheValid(t[[] := StageRoot(own)], own, codec)
    && t[[]].uid == own.serviceUid && t[[]].gid == own.serviceGid
  }

  ghost function CachePlanned(target: Option<Tree>, source: Option<Tree>, own: Ownership, codec: Codec): Result<CachePlan, Reason> {
    match (target, source)
    case (Some(t), _) =>
      if CacheAcceptable(t, own, codec) then Success(AlreadyThere(Listing(t, [], ManifestSkip)))
      else Failure(UnsafeExistingTarget)
    case (None, None) => Success(NothingAsked)
    case (None, Some(s)) =>
      if ManifestPath !in s && FineBelow(s, [], false, own, None) then Success(Ready(Listing(s, [], None)))
      else Failure(UnsafeSource)
  }

  lemma RootIsNotListed(t: Tree, node: Node, own: Ownership)
    requires Rooted(t) && node.Dir?
    ensures Rooted(t[[] := node])
    ensures Listing(t, [], ManifestSkip) == Listing(t[[] := node], [], ManifestSkip)
    ensures FineBelow(t, [], true, own, ManifestSkip) <==> FineBelow(t[[] := node], [], true, own, ManifestSkip)
  {
    var u := t[[] := node];
    forall p | p in u && p != [] ensures p[..|p| - 1] in u && u[p[..|p| - 1]].Dir? {
      assert p in t;
    }
    forall p ensures FileBelow(t, [], p, ManifestSkip) <==> FileBelow(u, [], p, ManifestSkip)
      ensures FileBelow(t, [], p, ManifestSkip) ==> EntryOf(p, t[p]) == EntryOf(p, u[p])
    {
    }
    SameFilesSameListing(t, u, [], ManifestSkip);
    assert forall p :: Visited(t, [], p, ManifestSkip) <==> Visited(u, [], p, ManifestSkip);
  }

  /** _plan_cache */
  method PlanCache(target: Option<Tree>, source: Option<Tree>, own: Ownership, codec: Codec)
    returns (r: Result<CachePlan, Reason>)
    requires AnyTree(target) && (source.Some? ==> Rooted(source.value))
    ensures r == CachePlanned(target, source, own, codec)
  {
    hide Listing, FineBelow;
    if target.Some? {
      var t := target.value;
      var root := t[[]];
      if !root.Dir? || root.uid != own.serviceUid || root.gid != own.serviceGid || root.mode & GROUP_OTHER_WRITE != 0 {
        return Failure(UnsafeExistingTarget);
      }
      assert Rooted(t);
      RootIsNotListed(t, StageRoot(own), own);
      if !ManifestFileFine(t, own) {
        return Failure(UnsafeExistingTarget);
      }
      var actual := InventoryTree(t, true, own, ManifestSkip);
      if actual.Failure? || |t[ManifestPath].content| > MAX_CACHE_MANIFEST_BYTES
         || codec.decode(t[ManifestPath].content) != Some(actual.value)
      {
        return Failure(UnsafeExistingTarget);
      }
      return Success(AlreadyThere(actual.value));
    }
    if source.None? {
      return Success(NothingAsked);
    }
    if ManifestPath in source.value {
      return Failure(UnsafeSource);
    }
    var actual := InventoryTree(source.value, false, own, None);
    if actual.Failure? {
      return Failure(UnsafeSource);
    }
    return Success(Ready(actual.value));
  }

  /** A cache that validates is planned as already there, whatever the source
      has become; so the next apply is not asked to copy anything. */
  lemma ValidPlansAsExisting(t: Tree, source: Option<Tree>, own: Ownership, codec: Codec)
    requires CacheValid(t, own, codec)
    ensures CachePlanned(Some(t), source, own, codec) == Success(AlreadyThere(Listing(t, [], ManifestSkip)))
  {
    assert t[[] := StageRoot(own)] == t;
    assert StageRoot(own).mode & GROUP_OTHER_WRITE == 0;
  }

  /** A published cache whose manifest is over the limit makes every later
      plan fail, whatever the source. */
  lemma OversizedBlocks(u: Tree, entries: seq<Entry>, source: Option<Tree>, own: Ownership, codec: Codec)
    requires Published(u, entries, own, codec) && codec.Valid()
    ensures CachePlanned(Some(u), source, own, codec) == Failure(UnsafeExistingTarget) <==>
      |codec.encode(entries)| > MAX_CACHE_MANIFEST_BYTES
  {
    assert u[[] := StageRoot(own)] == u;
    assert StageRoot(own).mode & GROUP_OTHER_WRITE == 0;
    PublishedValid(u, entries, own, codec);
  }

  /** Plan, copy, plan again. If the first plan was ready and nothing disturbed
      the copy, the second one finds the cache there, with the planned entries,
      exactly when all names are safe and the manifest fits. */
  method MigrateCache(h: CacheHost, source: Tree, own: Ownership, codec: Codec)
    returns (before: Result<CachePlan, Reason>, r: Result<Status, Reason>, after: Result<CachePlan, Reason>)
    requires h.staging == None && AnyTree(h.target) && AnyTree(h.raced) && codec.Valid() && Rooted(source)
    modifies h`staging, h`target, h`faults, h`nextIno
    ensures old(h.target).Some? ==> h.target == old(h.target) && after == before
    ensures before == CachePlanned(old(h.target), Some(source), own, codec)
    ensures after == CachePlanned(h.target, Some(source), own, codec)
    ensures r.Success? && r.value != NotRequested ==> after.Success? && after.value.AlreadyThere?
    ensures before.Success? && before.value.Ready? && old(Quiet(h, own)) ==>
      var fits := NamesSafe(before.value.entries) && |codec.encode(before.value.entries)| <= MAX_CACHE_MANIFEST_BYTES;
      && (h.target.Some? <==> NamesSafe(before.value.entries))
      && (r == Success(Copied) <==> fits) && (r.Failure? <==> !fits)
      && (after == Success(AlreadyThere(before.value.entries)) <==> fits)
      && (after.Failure? <==> NamesSafe(before.value.entries) && !fits)
  {
    hide CacheValid, Published, NamesSafe, Listing, FineBelow, CacheAcceptable;
    before := PlanCache(h.target, Some(source), own, codec);
    if before.Failure? {
      return before, Failure(before.error), before;
    }
    var manifest := if before.value.Ready? then Some(before.value.entries) else None;
    r := CopyCache(h, source, manifest, own, codec);
    after := PlanCache(h.target, Some(source), own, codec);
    if r.Success? && manifest.Some? {
      ValidPlansAsExisting(h.target.value, Some(source), own, codec);
    }
    if manifest.Some? && h.target.Some? && h.raced.None? {
      PublishedListing(h.target.value, manifest.value, own, codec);
      OversizedBlocks(h.target.value, manifest.value, Some(source), own, codec);
    }
  }

  lemma PublishedListing(u: Tree, entries: seq<Entry>, own: Ownership, codec: Codec)
    requires Published(u, entries, own, codec)
    ensures Listing(u, [], ManifestSkip) == entries
  {
  }
}
