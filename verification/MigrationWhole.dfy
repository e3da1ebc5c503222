/** The plan with the cache in it: what publishing the cache changes for the
    rest of the plan (nothing), how far a whole migration has come, and when
    planning again finds nothing to do. */
module MigrationWhole {
  import opened Wrappers
  import opened MigrationModel
  import opened MigrationPlan
  import opened MigrationProgress
  import opened MigrationResume
  import opened MigrationTree
  import opened MigrationInventory
  import C = MigrationCache
  import P = MigrationCachePublish
  import Sqlite = MigrationSqlite

  // ----- A published cache is invisible to the rest of the plan -----

  /** Two file systems that differ at most at and beneath root. */
  ghost predicate SameOutside(a: FileSystem, b: FileSystem, root: Path) {
    forall p :: !(root <= p) ==> Get(a, p) == Get(b, p)
  }

  lemma RemovedSameOutside(fs: FileSystem, root: Path)
    ensures SameOutside(fs, Sqlite.Removed(fs, root), root)
    ensures P.AnyTree(TreeAt(fs, root)) && root !in Sqlite.Removed(fs, root)
  {
    if root in fs {
      TreeAtIsTree(fs, root);
    }
  }

  lemma SafeSame(a: FileSystem, b: FileSystem, root: Path, p: Path, allowMissing: bool)
    requires SameOutside(a, b, root) && !(root <= p)
    ensures SafeDirectory(a, p, allowMissing) == SafeDirectory(b, p, allowMissing)
  {
    forall k | 0 <= k <= |p| ensures Get(a, p[..k]) == Get(b, p[..k]) {
      assert root <= p[..k] ==> root <= p;
    }
    assert p[..|p|] == p;
  }

  lemma CacheSafeSame(a: FileSystem, b: FileSystem, root: Path)
    requires SameOutside(a, b, root) && root != [] && root in a && a[root].Dir? && root !in b
    ensures SafeDirectory(a, root, true) == SafeDirectory(b, root, true)
  {
    forall k | 0 <= k < |root| ensures Get(a, root[..k]) == Get(b, root[..k]) {
      assert !(root <= root[..k]);
    }
  }

  /** Where the rest of the plan looks. */
  lemma NotUnderCache(r: Roots, p: Path)
    requires RootsDisjoint(r) && (r.source <= p || r.env <= p || r.state <= p)
    ensures !(r.cache <= p)
  {
    RootsApart(r);
    if r.cache <= p {
      var root := if r.source <= p then r.source else if r.env <= p then r.env else r.state;
      PrefixesOverlap(r.cache, root, p);
    }
  }

  lemma SlotsNotUnderCache(r: Roots, own: Ownership, s: Slot)
    requires RootsDisjoint(r) && s in Slots(r, own)
    ensures !(r.cache <= s.source) && !(r.cache <= s.target)
  {
    hide Slots;
    SlotPlaces(r, own, s);
    NotUnderCache(r, s.source);
    NotUnderCache(r, s.target);
  }

  lemma SlotSame(a: FileSystem, b: FileSystem, r: Roots, own: Ownership, s: Slot)
    requires RootsDisjoint(r) && SameOutside(a, b, r.cache) && s in Slots(r, own)
    ensures PlanSlot(a, s, own.serviceGid) == PlanSlot(b, s, own.serviceGid)
  {
    hide Slots;
    SlotsNotUnderCache(r, own, s);
    assert Get(a, s.source) == Get(b, s.source) && Get(a, s.target) == Get(b, s.target);
  }

  lemma {:induction false} SlotListSame(a: FileSystem, b: FileSystem, r: Roots, own: Ownership, slots: seq<Slot>)
    requires RootsDisjoint(r) && SameOutside(a, b, r.cache) && forall s :: s in slots ==> s in Slots(r, own)
    ensures PlanSlots(a, slots, own.serviceGid) == PlanSlots(b, slots, own.serviceGid)
  {
    hide Slots, PlanSlot, SameOutside, RootsDisjoint;
    if slots != [] {
      SlotSame(a, b, r, own, slots[0]);
      SlotListSame(a, b, r, own, slots[1..]);
    }
  }

  lemma StateNamesSame(a: FileSystem, b: FileSystem, r: Roots, dir: Path)
    requires RootsDisjoint(r) && SameOutside(a, b, r.cache) && (r.source <= dir || r.state <= dir)
    ensures StateNames(a, dir) == StateNames(b, dir)
  {
    NotUnderCache(r, dir);
    assert Get(a, dir) == Get(b, dir);
    ChildrenMembers(a, dir);
    ChildrenMembers(b, dir);
    forall n ensures dir + [n] in a <==> dir + [n] in b {
      assert (dir + [n])[..|dir|] == dir;
      NotUnderCache(r, dir + [n]);
      assert Get(a, dir + [n]) == Get(b, dir + [n]);
    }
    assert Children(a, dir) == Children(b, dir);
  }

  lemma {:induction false} SidecarsSame(a: FileSystem, b: FileSystem, r: Roots, databases: seq<string>)
    requires RootsDisjoint(r) && SameOutside(a, b, r.cache)
    ensures SidecarSnapshots(a, r, databases) == SidecarSnapshots(b, r, databases)
  {
    hide SnapshotsAt, RootsDisjoint;
    if databases != [] {
      var paths := SidecarPaths(SourceDb(r), databases[0]);
      SidecarPathsInSource(r, databases[0]);
      forall i | 0 <= i < |paths| ensures Get(a, paths[i]) == Get(b, paths[i]) {
        NotUnderCache(r, paths[i]);
      }
      SnapshotsSame(a, b, paths);
      SidecarsSame(a, b, r, databases[1..]);
    }
  }

  lemma TargetSidecarsSame(a: FileSystem, b: FileSystem, r: Roots, own: Ownership)
    requires RootsDisjoint(r) && SameOutside(a, b, r.cache)
    ensures TargetSidecarsValid(a, r, own) == TargetSidecarsValid(b, r, own)
  {
    hide SidecarNames, RootsDisjoint;
    forall name ensures Get(a, r.state + [Plain(name)]) == Get(b, r.state + [Plain(name)]) {
      NotUnderCache(r, r.state + [Plain(name)]);
    }
  }

  lemma RepairsSame(a: FileSystem, b: FileSystem, r: Roots, own: Ownership)
    requires RootsDisjoint(r) && SameOutside(a, b, r.cache) && r.cache !in b
    requires r.cache in a && a[r.cache] == C.StageRoot(own)
    ensures PlanRepairs(a, FhsRoots(r, own), own.serviceGid) == PlanRepairs(b, FhsRoots(r, own), own.serviceGid)
  {
    RootsApart(r);
    NotUnderCache(r, r.env);
    NotUnderCache(r, r.state);
    assert Get(a, r.env) == Get(b, r.env) && Get(a, r.state) == Get(b, r.state);
    assert FHS_DIRECTORY_MODE & GROUP_OTHER_WRITE == 0;
    var last, two, all := [(r.cache, own.serviceUid)], [(r.state, own.serviceUid), (r.cache, own.serviceUid)], FhsRoots(r, own);
    assert last[1..] == [] && two[1..] == last && all[1..] == two;
    assert PlanRepairs(a, last, own.serviceGid) == PlanRepairs(b, last, own.serviceGid) == Success([]);
    assert PlanRepairs(a, two, own.serviceGid) == PlanRepairs(b, two, own.serviceGid);
  }

  lemma RootsSafeSame(a: FileSystem, b: FileSystem, r: Roots)
    requires RootsDisjoint(r) && SameOutside(a, b, r.cache) && r.cache !in b && r.cache in a && a[r.cache].Dir? && r.cache != []
    ensures RootsSafe(a, r) == RootsSafe(b, r)
  {
    hide SafeDirectory, SameOutside;
    RootsApart(r);
    SafeSame(a, b, r.cache, r.source, false);
    SafeSame(a, b, r.cache, r.env, true);
    SafeSame(a, b, r.cache, r.state, true);
    CacheSafeSame(a, b, r.cache);
    if r.sourceCache.Some? {
      SourceCacheApart(r);
      SafeSame(a, b, r.cache, r.sourceCache.value, false);
    }
  }

  lemma StatePlanSame(a: FileSystem, b: FileSystem, r: Roots, setup: Setup)
    requires RootsDisjoint(r) && SameOutside(a, b, r.cache)
    ensures ValidateStateNames(a, r) == ValidateStateNames(b, r)
    ensures PlanEnvironment(a, r, setup) == PlanEnvironment(b, r, setup)
    ensures PlanConfigs(a, r, setup.own) == PlanConfigs(b, r, setup.own)
    ensures PlanSlots(a, DatabaseSlots(r, setup.own), setup.own.serviceGid) == PlanSlots(b, DatabaseSlots(r, setup.own), setup.own.serviceGid)
    ensures PlanSlot(a, DeadLetterSlot(r, setup.own), setup.own.serviceGid) == PlanSlot(b, DeadLetterSlot(r, setup.own), setup.own.serviceGid)
  {
    hide PlanSlot, PlanSlots, StateNames, SidecarNames, Slots, EnvSlot, ConfigSlot, StateSlot, DeadLetterSlot, RootsDisjoint;
    var own := setup.own;
    StateNamesSame(a, b, r, SourceDb(r));
    StateNamesSame(a, b, r, r.state);
    NotUnderCache(r, ConfigDir(r));
    assert Get(a, ConfigDir(r)) == Get(b, ConfigDir(r));
    SlotKinds(r, own, EnvSlot(r, own));
    SlotKinds(r, own, DeadLetterSlot(r, own));
    SlotSame(a, b, r, own, EnvSlot(r, own));
    SlotSame(a, b, r, own, DeadLetterSlot(r, own));
    SlotsMembers(r, own);
    SlotListSame(a, b, r, own, ConfigSlots(r, own));
    SlotListSame(a, b, r, own, DatabaseSlots(r, own));
  }

  /** Planning with a cache that has its proper root is planning without it. */
  lemma CacheInvisible(a: FileSystem, b: FileSystem, r: Roots, setup: Setup)
    requires RootsDisjoint(r) && SameOutside(a, b, r.cache) && r.cache !in b && r.cache != []
    requires r.cache in a && a[r.cache] == C.StageRoot(setup.own)
    ensures BuildPlan(a, r, setup) == BuildPlan(b, r, setup)
  {
    RootsSafeSame(a, b, r);
    RepairsSame(a, b, r, setup.own);
    StatePlanSame(a, b, r, setup);
    SidecarsSame(a, b, r, KNOWN_DB_FILENAMES);
    TargetSidecarsSame(a, b, r, setup.own);
    hide RootsSafe, RootsDisjoint, PlanRepairs, PlanEnvironment, PlanConfigs, ValidateStateNames, PlanSlots, SidecarSnapshots,
         TargetSidecarsValid, PlanSlot, SameOutside;
  }

  // ----- The caches while the files are migrated -----

  /** The cache to copy from, if one was given. */
  function SourceTree(fs: FileSystem, r: Roots): Option<Tree> {
    if r.sourceCache.Some? then TreeAt(fs, r.sourceCache.value) else None
  }

  lemma BeneathCachesSame(fs0: FileSystem, fs: FileSystem, r: Roots, setup: Setup)
    requires RootsDisjoint(r) && Progress(fs0, fs, r, setup)
    ensures SameBeneath(fs0, fs, r.cache)
    ensures r.sourceCache.Some? ==> forall p :: r.sourceCache.value <= p ==> Get(fs0, p) == Get(fs, p)
  {
    hide MayAdd, Slots;
    RootsApart(r);
    if r.sourceCache.Some? {
      SourceCacheApart(r);
    }
    forall p | r.cache < p || (r.sourceCache.Some? && r.sourceCache.value <= p) ensures Get(fs0, p) == Get(fs, p) {
      if p in fs && p !in fs0 {
        OutsideCaches(fs0, p, fs[p], r, setup);
      }
      RootNotBeneath(r, setup.own, p);
    }
  }

  lemma RootNotBeneath(r: Roots, own: Ownership, p: Path)
    requires RootsDisjoint(r) && (r.cache < p || (r.sourceCache.Some? && r.sourceCache.value <= p))
    ensures forall x :: x in FhsRoots(r, own) ==> x.0 != p
  {
    RootsApart(r);
    if r.sourceCache.Some? {
      SourceCacheApart(r);
    }
  }

  predicate Repairable(root: Node, own: Ownership) {
    root.Dir? && root.uid == own.serviceUid && root.gid == own.serviceGid
  }

  lemma CacheRootSame(fs0: FileSystem, fs: FileSystem, r: Roots, setup: Setup)
    requires RootsDisjoint(r) && Progress(fs0, fs, r, setup)
    ensures r.cache in fs <==> r.cache in fs0
    ensures r.cache in fs0 ==> fs[r.cache] == fs0[r.cache] || (Repairable(fs0[r.cache], setup.own) && fs[r.cache] == C.StageRoot(setup.own))
  {
    hide MayAdd, Slots;
    RootsApart(r);
    if r.cache in fs && r.cache !in fs0 {
      OutsideCaches(fs0, r.cache, fs[r.cache], r, setup);
    }
  }

  /** Migrating the files leaves the cache to copy as it was. */
  lemma SourceTreeSame(fs0: FileSystem, fs: FileSystem, r: Roots, setup: Setup)
    requires RootsDisjoint(r) && Progress(fs0, fs, r, setup)
    ensures SourceTree(fs, r) == SourceTree(fs0, r)
  {
    hide Progress, TreeAt;
    BeneathCachesSame(fs0, fs, r, setup);
    if r.sourceCache.Some? {
      TreeSame(fs0, fs, r.sourceCache.value);
    }
  }

  /** And the cache that is there, but for the mode of its root. */
  lemma TargetTreeSame(fs0: FileSystem, fs: FileSystem, r: Roots, setup: Setup)
    requires RootsDisjoint(r) && Progress(fs0, fs, r, setup)
    ensures r.cache !in fs0 ==> TreeAt(fs0, r.cache) == None && TreeAt(fs, r.cache) == None
    ensures r.cache in fs0 ==> r.cache in fs && TreeAt(fs0, r.cache).Some?
    ensures r.cache in fs0 ==> TreeAt(fs, r.cache) == Some(TreeAt(fs0, r.cache).value[[] := fs[r.cache]])
  {
    hide Progress, Reached;
    BeneathCachesSame(fs0, fs, r, setup);
    CacheRootSame(fs0, fs, r, setup);
    if r.cache in fs0 {
      TreeSameButRoot(fs0, fs, r.cache);
    }
  }

  // ----- The whole plan -----

  datatype WholePlan = WholePlan(files: Plan, cache: P.CachePlan)

  ghost function PlanCacheOn(fs: FileSystem, r: Roots, own: Ownership, codec: C.Codec): Result<P.CachePlan, Reason> {
    P.CachePlanned(TreeAt(fs, r.cache), SourceTree(fs, r), own, codec)
  }

  /** build_plan: the cache is planned after the files. */
  ghost function PlanAll(fs: FileSystem, r: Roots, setup: Setup, codec: C.Codec): Result<WholePlan, Reason> {
    match BuildPlan(fs, r, setup)
    case Failure(e) => Failure(e)
    case Success(files) =>
      match PlanCacheOn(fs, r, setup.own, codec)
      case Failure(e) => Failure(e)
      case Success(cache) => Success(WholePlan(files, cache))
  }

  /** Planning succeeds and finds nothing to do. */
  ghost predicate Converged(fs: FileSystem, r: Roots, setup: Setup, codec: C.Codec) {
    var plan := PlanAll(fs, r, setup, codec);
    plan.Success? && !RequiresMigration(plan.value.files) && !plan.value.cache.Ready?
  }

  lemma StageRootClosed(own: Ownership)
    ensures var root := C.StageRoot(own);
      root.Dir? && root.uid == own.serviceUid && root.gid == own.serviceGid && root.mode & GROUP_OTHER_WRITE == 0
  {
  }

  lemma AcceptableStill(t: Tree, own: Ownership, codec: C.Codec)
    requires P.CacheAcceptable(t, own, codec)
    ensures P.CacheAcceptable(t[[] := C.StageRoot(own)], own, codec)
    ensures C.IsTree(t) ==> Listing(t[[] := C.StageRoot(own)], [], C.ManifestSkip) == Listing(t, [], C.ManifestSkip)
  {
    hide C.StageRoot, C.CacheValid, Listing, C.FineBelow;
    StageRootClosed(own);
    assert t[[] := C.StageRoot(own)][[] := C.StageRoot(own)] == t[[] := C.StageRoot(own)];
    if C.IsTree(t) {
      P.RootIsNotListed(t, C.StageRoot(own), own);
    }
  }

  lemma RepairedPlanSame(t: Tree, root: Node, source: Option<Tree>, own: Ownership, codec: C.Codec)
    requires C.IsTree(t) && (root == t[[]] || root == C.StageRoot(own)) && P.CachePlanned(Some(t), source, own, codec).Success?
    ensures P.CachePlanned(Some(t[[] := root]), source, own, codec) == P.CachePlanned(Some(t), source, own, codec)
  {
    hide P.CacheAcceptable, Listing, C.StageRoot, C.FineBelow, C.Parented;
    AcceptableStill(t, own, codec);
    assert t[[] := t[[]]] == t;
  }

  /** Migrating the files does not change what is planned for the cache. */
  lemma CachePlanSame(fs0: FileSystem, fs: FileSystem, r: Roots, setup: Setup, codec: C.Codec)
    requires RootsDisjoint(r) && Progress(fs0, fs, r, setup) && PlanCacheOn(fs0, r, setup.own, codec).Success?
    ensures PlanCacheOn(fs, r, setup.own, codec) == PlanCacheOn(fs0, r, setup.own, codec)
  {
    hide Progress, TreeAt, P.CachePlanned, SourceTree;
    SourceTreeSame(fs0, fs, r, setup);
    TargetTreeSame(fs0, fs, r, setup);
    CacheRootSame(fs0, fs, r, setup);
    if r.cache in fs0 {
      TreeAtIsTree(fs0, r.cache);
      RepairedPlanSame(TreeAt(fs0, r.cache).value, fs[r.cache], SourceTree(fs0, r), setup.own, codec);
    }
  }
}
