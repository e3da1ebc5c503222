/** How far a migration of files and cache has come, and where it can end. */
module MigrationOutcome {
  import opened Wrappers
  import opened MigrationModel
  import opened MigrationPlan
  import opened MigrationProgress
  import opened MigrationResume
  import opened MigrationTree
  import opened MigrationInventory
  import opened MigrationWhole
  import C = MigrationCache
  import P = MigrationCachePublish
  import Sqlite = MigrationSqlite

  /** The part of fs that the file stages are about: without a cache that was
      not there at the start. */
  ghost function Files(fs0: FileSystem, fs: FileSystem, r: Roots): FileSystem {
    if r.cache in fs0 then fs else Sqlite.Removed(fs, r.cache)
  }

  ghost function Manifest(fs0: FileSystem, r: Roots): seq<Entry> {
    if SourceTree(fs0, r).Some? then Listing(SourceTree(fs0, r).value, [], None) else []
  }

  /** The published cache lists what the cache to copy had at the start. */
  ghost predicate NewCache(fs0: FileSystem, fs: FileSystem, r: Roots, setup: Setup, codec: C.Codec) {
    && r.cache in fs && InDirectory(fs, r.cache) && SourceTree(fs0, r).Some?
    && (forall p :: p in fs && r.cache <= p ==> Reached(fs, r.cache, p))
    && P.Published(TreeAt(fs, r.cache).value, Manifest(fs0, r), setup.own, codec)
  }

  /** fs is fs0 after some part of the whole migration planned on fs0. */
  ghost predicate WholeProgress(fs0: FileSystem, fs: FileSystem, r: Roots, setup: Setup, codec: C.Codec) {
    && Progress(fs0, Files(fs0, fs, r), r, setup)
    && (r.cache !in fs0 ==> NothingAt(fs, r.cache) || NewCache(fs0, fs, r, setup, codec))
  }

  /** A cache was published whose manifest is over the size limit. */
  ghost predicate Oversized(fs0: FileSystem, fs: FileSystem, r: Roots, codec: C.Codec) {
    r.cache in fs && r.cache !in fs0 && |codec.encode(Manifest(fs0, r))| > C.MAX_CACHE_MANIFEST_BYTES
  }

  /** Everything the whole plan on fs0 asked for is done. */
  ghost predicate WholeComplete(fs0: FileSystem, fs: FileSystem, r: Roots, setup: Setup, codec: C.Codec) {
    && WholeProgress(fs0, fs, r, setup, codec)
    && Complete(fs0, Files(fs0, fs, r), r, setup)
    && (r.sourceCache.Some? ==> r.cache in fs)
    && !Oversized(fs0, fs, r, codec)
  }

  lemma NothingRemoved(fs: FileSystem, root: Path)
    requires NothingAt(fs, root)
    ensures Sqlite.Removed(fs, root) == fs
  {
  }

  lemma WholeWellFormed(fs0: FileSystem, fs: FileSystem, r: Roots, setup: Setup, codec: C.Codec)
    requires WellFormed(fs0) && WholeProgress(fs0, fs, r, setup, codec)
    ensures WellFormed(fs)
  {
    hide Progress, P.Published, Reached;
    var files := Files(fs0, fs, r);
    ProgressWellFormed(fs0, files, r, setup);
    forall p | p in fs && p != [] ensures Parent(p) in fs && fs[Parent(p)].Dir? {
      if r.cache !in fs0 && r.cache <= p {
        if p != r.cache {
          ReachedParent(fs, r.cache, p);
          ReachedIsThere(fs, r.cache, Parent(p));
        }
      } else {
        assert p in files;
      }
    }
  }

  lemma PlanNeeds(fs: FileSystem, r: Roots, setup: Setup, codec: C.Codec)
    requires PlanAll(fs, r, setup, codec).Success?
    ensures BuildPlan(fs, r, setup).Success? && PlanCacheOn(fs, r, setup.own, codec).Success?
    ensures PlanAll(fs, r, setup, codec).value ==
      WholePlan(BuildPlan(fs, r, setup).value, PlanCacheOn(fs, r, setup.own, codec).value)
    ensures RootsDisjoint(r) && r.cache != []
  {
    hide PlanRepairs, PlanEnvironment, PlanConfigs, ValidateStateNames, PlanSlots, SidecarSnapshots, TargetSidecarsValid, PlanSlot;
  }

  lemma NewCacheRoot(fs0: FileSystem, fs: FileSystem, r: Roots, setup: Setup, codec: C.Codec)
    requires NewCache(fs0, fs, r, setup, codec)
    ensures fs[r.cache] == C.StageRoot(setup.own) && TreeAt(fs, r.cache).Some?
  {
    hide Reached;
    TreeAtIsTree(fs, r.cache);
  }

  /** The files are planned as if the new cache were not there. */
  lemma FilesPlan(fs0: FileSystem, fs: FileSystem, r: Roots, setup: Setup, codec: C.Codec)
    requires RootsDisjoint(r) && r.cache != [] && WholeProgress(fs0, fs, r, setup, codec)
    ensures BuildPlan(fs, r, setup) == BuildPlan(Files(fs0, fs, r), r, setup)
  {
    hide BuildPlan, Progress, NewCache, RootsDisjoint;
    if r.cache !in fs0 {
      if NothingAt(fs, r.cache) {
        NothingRemoved(fs, r.cache);
      } else {
        NewCacheIsThere(fs0, fs, r, setup, codec);
        NewCacheRoot(fs0, fs, r, setup, codec);
        RemovedSameOutside(fs, r.cache);
        CacheInvisible(fs, Sqlite.Removed(fs, r.cache), r, setup);
      }
    }
  }

  lemma NewCacheIsThere(fs0: FileSystem, fs: FileSystem, r: Roots, setup: Setup, codec: C.Codec)
    requires NewCache(fs0, fs, r, setup, codec)
    ensures r.cache in fs && SourceTree(fs0, r).Some?
  {
  }

  /** Planning again, at any point of a whole migration, fails exactly if an
      oversized cache has been published. */
  lemma WholeReplan(fs0: FileSystem, fs: FileSystem, r: Roots, setup: Setup, codec: C.Codec)
    requires WellFormed(fs0) && PlanAll(fs0, r, setup, codec).Success? && WholeProgress(fs0, fs, r, setup, codec) && codec.Valid()
    ensures BuildPlan(fs, r, setup).Success?
    ensures PlanAll(fs, r, setup, codec).Success? <==> !Oversized(fs0, fs, r, codec)
  {
    PlanNeeds(fs0, r, setup, codec);
    hide BuildPlan, Progress, NewCache, RootsDisjoint, PlanCacheOn;
    FilesPlan(fs0, fs, r, setup, codec);
    Replan(fs0, Files(fs0, fs, r), r, setup);
    if r.cache in fs0 {
      CachePlanSame(fs0, fs, r, setup, codec);
    } else if NothingAt(fs, r.cache) {
      NothingRemoved(fs, r.cache);
      CachePlanSame(fs0, fs, r, setup, codec);
    } else {
      NewCachePlanned(fs0, fs, r, setup, codec);
    }
  }

  lemma NewCachePlanned(fs0: FileSystem, fs: FileSystem, r: Roots, setup: Setup, codec: C.Codec)
    requires NewCache(fs0, fs, r, setup, codec) && codec.Valid() && r.cache !in fs0
    ensures PlanCacheOn(fs, r, setup.own, codec).Success? <==> !Oversized(fs0, fs, r, codec)
    ensures PlanCacheOn(fs, r, setup.own, codec).Success? ==> PlanCacheOn(fs, r, setup.own, codec).value.AlreadyThere?
  {
    hide Reached, P.Published, P.CacheAcceptable, Listing, Manifest;
    NewCacheRoot(fs0, fs, r, setup, codec);
    P.OversizedBlocks(TreeAt(fs, r.cache).value, Manifest(fs0, r), SourceTree(fs, r), setup.own, codec);
  }

  /** After a complete migration, planning again finds nothing to do, for the
      cache neither. */
  lemma WholeConverges(fs0: FileSystem, fs: FileSystem, r: Roots, setup: Setup, codec: C.Codec)
    requires WellFormed(fs0) && PlanAll(fs0, r, setup, codec).Success? && WholeComplete(fs0, fs, r, setup, codec) && codec.Valid()
    ensures Converged(fs, r, setup, codec)
  {
    WholeReplan(fs0, fs, r, setup, codec);
    PlanNeeds(fs0, r, setup, codec);
    PlanNeeds(fs, r, setup, codec);
    hide BuildPlan, Progress, NewCache, RootsDisjoint, PlanCacheOn, Complete, RequiresMigration;
    FilesPlan(fs0, fs, r, setup, codec);
    CompleteConverges(fs0, Files(fs0, fs, r), r, setup);
    CacheNotReady(fs, r, setup.own, codec);
  }

  lemma CacheNotReady(fs: FileSystem, r: Roots, own: Ownership, codec: C.Codec)
    requires PlanCacheOn(fs, r, own, codec).Success? && (r.sourceCache.Some? ==> r.cache in fs)
    ensures !PlanCacheOn(fs, r, own, codec).value.Ready?
  {
  }

  // ----- Going on from where a migration stopped -----

  lemma WithoutCacheSame(fs: FileSystem, r: Roots, setup: Setup, s: Slot)
    requires RootsDisjoint(r) && s in Slots(r, setup.own)
    ensures SlotContent(Sqlite.Removed(fs, r.cache), s, r, setup) == SlotContent(fs, s, r, setup)
  {
    hide Slots, SlotContent;
    SlotPlaces(r, setup.own, s);
    var b := Sqlite.Removed(fs, r.cache);
    forall p | r.source <= p ensures Get(b, p) == Get(fs, p) {
      NotUnderCache(r, p);
    }
    SlotContentFromSource(b, fs, r, setup, s);
  }

  /** The file stages do the same whether or not a cache is there. */
  lemma ProgressWithoutCache(a: FileSystem, b: FileSystem, r: Roots, setup: Setup)
    requires RootsDisjoint(r) && Progress(a, b, r, setup)
    ensures Progress(Sqlite.Removed(a, r.cache), Sqlite.Removed(b, r.cache), r, setup)
  {
    hide SlotContent, Slots;
    var a', b' := Sqlite.Removed(a, r.cache), Sqlite.Removed(b, r.cache);
    forall p | p in b' && p !in a' ensures MayAdd(a', p, b'[p], r, setup) && InDirectory(b', p) {
      assert MayAdd(a, p, b[p], r, setup);
      assert !(r.cache <= Parent(p));
      if AddsSlot(a, p, b[p], r, setup) {
        var s :| s in Slots(r, setup.own) && p == s.target
          && FileMetadata(b[p], s.uid, setup.own.serviceGid, s.mode)
          && SlotContent(a, s, r, setup) == Some(b[p].content);
        WithoutCacheSame(a, r, setup, s);
        assert AddsSlot(a', p, b'[p], r, setup);
      }
    }
  }

  /** A new cache stays as it was published while the files are migrated. */
  lemma NewCacheStays(fs0: FileSystem, fs1: FileSystem, fs2: FileSystem, r: Roots, setup: Setup, codec: C.Codec)
    requires RootsDisjoint(r) && NewCache(fs0, fs1, r, setup, codec) && Progress(fs1, fs2, r, setup)
    ensures NewCache(fs0, fs2, r, setup, codec)
  {
    hide TreeAt, Reached, P.Published, MayAdd, Slots, Manifest;
    NewCacheRoot(fs0, fs1, r, setup, codec);
    CacheRootSame(fs1, fs2, r, setup);
    BeneathCachesSame(fs1, fs2, r, setup);
    TreeSame(fs1, fs2, r.cache);
    forall p | p in fs2 && r.cache <= p ensures Reached(fs2, r.cache, p) {
      ReachedSame(fs1, fs2, r.cache, p);
      assert p != r.cache ==> Get(fs1, p) == Get(fs2, p);
    }
  }

  lemma NewCacheFromStart(fs0: FileSystem, fs1: FileSystem, fs2: FileSystem, r: Roots, setup: Setup, codec: C.Codec)
    requires RootsDisjoint(r) && Progress(fs0, fs1, r, setup) && NewCache(fs1, fs2, r, setup, codec)
    ensures NewCache(fs0, fs2, r, setup, codec) && Manifest(fs0, r) == Manifest(fs1, r)
  {
    SourceTreeSame(fs0, fs1, r, setup);
    hide SourceTree, Progress, Reached, P.Published;
  }

  lemma WholeTransitive(fs0: FileSystem, fs1: FileSystem, fs2: FileSystem, r: Roots, setup: Setup, codec: C.Codec)
    requires PlanAll(fs0, r, setup, codec).Success?
    requires WholeProgress(fs0, fs1, r, setup, codec) && WholeProgress(fs1, fs2, r, setup, codec)
    ensures WholeProgress(fs0, fs2, r, setup, codec)
  {
    PlanNeeds(fs0, r, setup, codec);
    hide BuildPlan, Progress, NewCache, RootsDisjoint, Sqlite.Removed, NothingAt, PlanAll;
    if r.cache in fs0 {
      KeptTarget(fs0, fs1, r, setup, r.cache);
      ProgressTransitive(fs0, fs1, fs2, r, setup);
    } else if NothingAt(fs1, r.cache) {
      NothingRemoved(fs1, r.cache);
      NotThere(fs1, r.cache);
      ProgressTransitive(fs0, fs1, Sqlite.Removed(fs2, r.cache), r, setup);
      if NewCache(fs1, fs2, r, setup, codec) {
        NewCacheFromStart(fs0, fs1, fs2, r, setup, codec);
      }
    } else {
      NewCacheIsThere(fs0, fs1, r, setup, codec);
      ProgressWithoutCache(fs1, fs2, r, setup);
      ProgressTransitive(fs0, Sqlite.Removed(fs1, r.cache), Sqlite.Removed(fs2, r.cache), r, setup);
      NewCacheStays(fs0, fs1, fs2, r, setup, codec);
    }
  }

  lemma NotThere(fs: FileSystem, root: Path)
    requires NothingAt(fs, root)
    ensures root !in fs
  {
  }

  /** What is outside the cache is among the files. */
  lemma AmongFiles(fs0: FileSystem, fs: FileSystem, r: Roots, p: Path)
    requires r.cache in fs0 || !(r.cache <= p)
    ensures p in Files(fs0, fs, r) <==> p in fs
    ensures p in fs ==> Files(fs0, fs, r)[p] == fs[p]
  {
  }

  lemma FilesAreThere(fs0: FileSystem, fs: FileSystem, r: Roots, p: Path)
    requires p in Files(fs0, fs, r)
    ensures p in fs && Files(fs0, fs, r)[p] == fs[p]
  {
  }

  lemma ManifestSame(fs0: FileSystem, fs1: FileSystem, r: Roots, setup: Setup, codec: C.Codec)
    requires RootsDisjoint(r) && WholeProgress(fs0, fs1, r, setup, codec)
    ensures Manifest(fs1, r) == Manifest(fs0, r)
  {
    var files := Files(fs0, fs1, r);
    SourceTreeSame(fs0, files, r, setup);
    if r.sourceCache.Some? {
      SourceCacheApart(r);
      forall p | r.sourceCache.value <= p ensures Get(files, p) == Get(fs1, p) {
        if r.cache <= p {
          PrefixesOverlap(r.cache, r.sourceCache.value, p);
        }
        AmongFiles(fs0, fs1, r, p);
      }
      hide TreeAt;
      TreeSame(files, fs1, r.sourceCache.value);
    }
  }

  /** A slot of the first plan is done once the second plan is. */
  lemma SlotsDoneFromStart(fs0: FileSystem, fs1: FileSystem, fs2: FileSystem, r: Roots, setup: Setup, codec: C.Codec, s: Slot)
    requires RootsDisjoint(r) && WholeProgress(fs0, fs1, r, setup, codec) && Complete(fs1, Files(fs1, fs2, r), r, setup)
    requires s in Slots(r, setup.own) && s.source in fs0
    ensures s.target in Files(fs0, fs2, r)
  {
    hide Slots, Progress, Files, NewCache;
    SlotPlaces(r, setup.own, s);
    SlotsNotUnderCache(r, setup.own, s);
    SourceSame(fs0, Files(fs0, fs1, r), r, setup, s.source);
    FilesAreThere(fs0, fs1, r, s.source);
    FilesAreThere(fs1, fs2, r, s.target);
    AmongFiles(fs0, fs2, r, s.target);
  }

  lemma RootsDoneFromStart(fs0: FileSystem, fs1: FileSystem, fs2: FileSystem, r: Roots, setup: Setup, codec: C.Codec, x: (Path, int))
    requires RootsDisjoint(r) && WholeProgress(fs0, fs1, r, setup, codec) && Complete(fs1, Files(fs1, fs2, r), r, setup)
    requires x in FhsRoots(r, setup.own) && x.0 in fs0
    ensures x.0 in Files(fs0, fs2, r) && Files(fs0, fs2, r)[x.0].Dir? && Files(fs0, fs2, r)[x.0].mode == FHS_DIRECTORY_MODE
  {
    hide Slots, Progress, Files, NewCache;
    RootsApart(r);
    KeptTarget(fs0, Files(fs0, fs1, r), r, setup, x.0);
    FilesAreThere(fs0, fs1, r, x.0);
    FilesAreThere(fs1, fs2, r, x.0);
    AmongFiles(fs0, fs2, r, x.0);
  }

  lemma FilesCompleteFromStart(fs0: FileSystem, fs1: FileSystem, fs2: FileSystem, r: Roots, setup: Setup, codec: C.Codec)
    requires RootsDisjoint(r) && WholeProgress(fs0, fs1, r, setup, codec) && WholeProgress(fs0, fs2, r, setup, codec)
    requires Complete(fs1, Files(fs1, fs2, r), r, setup)
    ensures Complete(fs0, Files(fs0, fs2, r), r, setup)
  {
    forall s | s in Slots(r, setup.own) && s.source in fs0 ensures s.target in Files(fs0, fs2, r) {
      SlotsDoneFromStart(fs0, fs1, fs2, r, setup, codec, s);
    }
    forall x | x in FhsRoots(r, setup.own) && x.0 in fs0
      ensures x.0 in Files(fs0, fs2, r) && Files(fs0, fs2, r)[x.0].Dir? && Files(fs0, fs2, r)[x.0].mode == FHS_DIRECTORY_MODE
    {
      RootsDoneFromStart(fs0, fs1, fs2, r, setup, codec, x);
    }
    hide Progress, NewCache, RootsDisjoint, Slots, Files, FhsRoots;
  }

  /** Completing a migration from where it stopped completes what was planned
      at the start. */
  lemma ResumedIsComplete(fs0: FileSystem, fs1: FileSystem, fs2: FileSystem, r: Roots, setup: Setup, codec: C.Codec)
    requires WellFormed(fs0) && codec.Valid()
    requires PlanAll(fs0, r, setup, codec).Success? && PlanAll(fs1, r, setup, codec).Success?
    requires WholeProgress(fs0, fs1, r, setup, codec) && WholeComplete(fs1, fs2, r, setup, codec)
    ensures WholeComplete(fs0, fs2, r, setup, codec)
  {
    PlanNeeds(fs0, r, setup, codec);
    WholeTransitive(fs0, fs1, fs2, r, setup, codec);
    WholeReplan(fs0, fs1, r, setup, codec);
    ManifestSame(fs0, fs1, r, setup, codec);
    FilesCompleteFromStart(fs0, fs1, fs2, r, setup, codec);
    hide BuildPlan, WholeProgress, RootsDisjoint, PlanAll, Files, Manifest, Complete;
  }

  /** Both have a cache, with the same files and the same manifest, or neither. */
  ghost predicate SameCache(a: FileSystem, b: FileSystem, r: Roots) {
    && (r.cache in a <==> r.cache in b)
    && (r.cache in a ==> Listing(TreeAt(a, r.cache).value, [], C.ManifestSkip) == Listing(TreeAt(b, r.cache).value, [], C.ManifestSkip))
    && (r.cache in a ==> ManifestContent(a, r) == ManifestContent(b, r))
  }

  ghost function ManifestContent(fs: FileSystem, r: Roots): Option<Content>
    requires r.cache in fs
  {
    var t := TreeAt(fs, r.cache).value;
    if C.ManifestPath in t && t[C.ManifestPath].File? then Some(t[C.ManifestPath].content) else None
  }

  lemma CachesAgree(fs0: FileSystem, a: FileSystem, b: FileSystem, r: Roots, setup: Setup, codec: C.Codec)
    requires RootsDisjoint(r) && WholeComplete(fs0, a, r, setup, codec) && WholeComplete(fs0, b, r, setup, codec)
    ensures SameCache(a, b, r)
  {
    hide Progress, Complete, P.Published, Reached, Listing, TreeAt;
    if r.cache in fs0 {
      TargetTreeSame(fs0, a, r, setup);
      TargetTreeSame(fs0, b, r, setup);
      RepairedRootsAgree(fs0, a, b, r, setup);
    } else {
      if r.cache in a {
        NewCacheLists(fs0, a, r, setup, codec);
      }
      if r.cache in b {
        NewCacheLists(fs0, b, r, setup, codec);
      }
    }
  }

  lemma RepairedRootsAgree(fs0: FileSystem, a: FileSystem, b: FileSystem, r: Roots, setup: Setup)
    requires RootsDisjoint(r) && Complete(fs0, a, r, setup) && Complete(fs0, b, r, setup) && r.cache in fs0
    ensures r.cache in a && r.cache in b && a[r.cache] == b[r.cache]
  {
    hide Progress, Slots;
    CacheRootSame(fs0, a, r, setup);
    CacheRootSame(fs0, b, r, setup);
    assert (r.cache, setup.own.serviceUid) in FhsRoots(r, setup.own);
  }

  lemma NewCacheLists(fs0: FileSystem, fs: FileSystem, r: Roots, setup: Setup, codec: C.Codec)
    requires NewCache(fs0, fs, r, setup, codec)
    ensures TreeAt(fs, r.cache).Some? && Listing(TreeAt(fs, r.cache).value, [], C.ManifestSkip) == Manifest(fs0, r)
    ensures ManifestContent(fs, r) == Some(codec.encode(Manifest(fs0, r)))
  {
    hide Reached, Listing, Manifest;
    NewCacheRoot(fs0, fs, r, setup, codec);
  }

  lemma TargetAmongFiles(fs0: FileSystem, fs: FileSystem, r: Roots, own: Ownership, s: Slot)
    requires RootsDisjoint(r) && s in Slots(r, own)
    ensures s.target in Files(fs0, fs, r) <==> s.target in fs
    ensures s.target in fs ==> Files(fs0, fs, r)[s.target] == fs[s.target]
  {
    hide Slots, RootsDisjoint, Files;
    SlotsNotUnderCache(r, own, s);
    AmongFiles(fs0, fs, r, s.target);
  }

  /** Every target and the cache end the same. */
  ghost predicate SameOutcome(a: FileSystem, b: FileSystem, r: Roots, setup: Setup) {
    && (forall s :: s in Slots(r, setup.own) ==> SameTarget(a, b, s, setup))
    && SameCache(a, b, r)
  }

  ghost predicate SameTarget(a: FileSystem, b: FileSystem, s: Slot, setup: Setup) {
    && (s.target in a <==> s.target in b)
    && (s.target in a ==>
          && FileMetadata(a[s.target], s.uid, setup.own.serviceGid, s.mode)
          && FileMetadata(b[s.target], s.uid, setup.own.serviceGid, s.mode)
          && a[s.target].content == b[s.target].content)
  }

  lemma WholeRunsAgree(fs0: FileSystem, a: FileSystem, b: FileSystem, r: Roots, setup: Setup, codec: C.Codec)
    requires PlanAll(fs0, r, setup, codec).Success?
    requires WholeComplete(fs0, a, r, setup, codec) && WholeComplete(fs0, b, r, setup, codec)
    ensures SameOutcome(a, b, r, setup)
  {
    PlanNeeds(fs0, r, setup, codec);
    CachesAgree(fs0, a, b, r, setup, codec);
    hide BuildPlan, Slots, RootsDisjoint, Complete, WholeProgress, SameCache, Files, PlanAll;
    forall s | s in Slots(r, setup.own) ensures SameTarget(a, b, s, setup) {
      CompleteRunsAgree(fs0, Files(fs0, a, r), Files(fs0, b, r), r, setup, s);
      TargetAmongFiles(fs0, a, r, setup.own, s);
      TargetAmongFiles(fs0, b, r, setup.own, s);
    }
  }

  /** Stopping a migration anywhere and completing it from there, with a new
      plan, ends as one uninterrupted migration would, cache included. */
  lemma ResumedRunEndsTheSame(fs0: FileSystem, stopped: FileSystem, resumed: FileSystem, direct: FileSystem,
                              r: Roots, setup: Setup, codec: C.Codec)
    requires WellFormed(fs0) && codec.Valid() && PlanAll(fs0, r, setup, codec).Success?
    requires PlanAll(stopped, r, setup, codec).Success? && WholeProgress(fs0, stopped, r, setup, codec)
    requires WholeComplete(stopped, resumed, r, setup, codec) && WholeComplete(fs0, direct, r, setup, codec)
    ensures SameOutcome(resumed, direct, r, setup)
  {
    hide PlanAll, WholeProgress, WholeComplete, SameOutcome;
    ResumedIsComplete(fs0, stopped, resumed, r, setup, codec);
    WholeRunsAgree(fs0, resumed, direct, r, setup, codec);
  }
}
