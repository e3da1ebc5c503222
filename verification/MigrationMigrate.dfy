/** migrate as a whole: plan, file stages, cache stage, on one host; what a run
    that succeeds, fails, is repeated or is resumed leaves. */
module MigrationMigrate {
  import opened Wrappers
  import opened MigrationModel
  import opened MigrationPlan
  import opened MigrationHost
  import opened MigrationProgress
  import opened MigrationResume
  import opened MigrationApply
  import opened MigrationRun
  import opened MigrationTree
  import opened MigrationInventory
  import opened MigrationWhole
  import opened MigrationOutcome
  import C = MigrationCache
  import P = MigrationCachePublish
  import Sqlite = MigrationSqlite

  // ----- The cache stage on the host -----

  lemma GraftNumbered(fs: FileSystem, root: Path, t: Tree, ino: int, ino': int, uuid: nat)
    requires Numbered(fs, ino, uuid) && ino <= ino' && NamesBelow(root, uuid) && C.InosUnder(t, ino')
    ensures Numbered(Graft(fs, root, t), ino', uuid)
  {
    hide Graft, Grafted;
    var after := Graft(fs, root, t);
    forall p | p in after ensures NamesBelow(p, uuid) && (after[p].File? ==> after[p].ino < ino') {
      GraftMembers(fs, root, t, p);
      if p !in fs {
        GraftedName(p, root, t, uuid);
      }
    }
  }

  lemma GraftedName(p: Path, root: Path, t: Tree, uuid: nat)
    requires Grafted(p, root, t) && NamesBelow(root, uuid)
    ensures NamesBelow(p, uuid) && AllPlain(p[|root|..]) && Texts(p[|root|..]) in t
  {
    assert p == root + p[|root|..];
  }

  ghost predicate Fits(entries: seq<Entry>, codec: C.Codec) {
    |codec.encode(entries)| <= C.MAX_CACHE_MANIFEST_BYTES
  }

  ghost predicate PublishedAt(a: FileSystem, b: FileSystem, r: Roots, t: Tree, entries: seq<Entry>, own: Ownership, codec: C.Codec) {
    P.Published(t, entries, own, codec) && b == Graft(a, r.cache, t)
  }

  /** All that the cache stage may do, alone: publish the manifest's cache where
      there was none. */
  ghost predicate CacheStep(a: FileSystem, b: FileSystem, r: Roots, manifest: Option<seq<Entry>>, own: Ownership, codec: C.Codec) {
    b == a || (r.cache !in a && manifest.Some? && exists t :: PublishedAt(a, b, r, t, manifest.value, own, codec))
  }

  lemma TreesThere(fs: FileSystem, root: Path)
    ensures TreeAt(fs, root).Some? <==> root in fs
    ensures P.AnyTree(TreeAt(fs, root))
  {
    hide TreeAt;
    SomeTree(fs, root);
    if root in fs {
      TreeAtIsTree(fs, root);
    }
  }

  /** Another process may publish a cache between the look at the target and
      the rename. */
  method MeetOthers(h: Host, r: Roots) returns (target: Option<Tree>, raced: Option<Tree>)
    requires h.Valid() && RootsNamed(r, h.nextUuid)
    modifies h`fs, h`others
    ensures h.Valid() && Kept(old(h.fs), h.fs)
    ensures old(h.others) == [] ==> h.fs == old(h.fs) && h.others == [] && target == TreeAt(h.fs, r.cache) && raced == None
    ensures P.AnyTree(target) && P.AnyTree(raced)
    ensures target.Some? || raced.Some? ==> r.cache in h.fs
  {
    hide Numbered, TreeAt, P.AnyTree;
    ghost var a, ino, uuid := h.fs, h.nextIno, h.nextUuid;
    h.Interfere(ino, uuid);
    NumberedWithOthers(a, h.fs, ino, uuid, ino, uuid);
    TreesThere(h.fs, r.cache);
    target := TreeAt(h.fs, r.cache);
    ghost var b := h.fs;
    h.Interfere(ino, uuid);
    NumberedWithOthers(b, h.fs, ino, uuid, ino, uuid);
    KeptTransitive(a, b, h.fs);
    TreesThere(h.fs, r.cache);
    raced := if target.Some? then None else TreeAt(h.fs, r.cache);
    NoTree();
  }

  lemma NoTree()
    ensures P.AnyTree(None)
  {
  }

  /** What the cache stage did, put into the file system: the published tree,
      and a staging directory that could not be removed. */
  method Settle(h: Host, root: Path, staging: Path, published: Option<Tree>, leftover: Option<Tree>, ino: int)
    requires h.Valid() && h.nextIno <= ino && NamesBelow(root, h.nextUuid) && NamesBelow(staging, h.nextUuid)
    requires published.Some? ==> C.InosUnder(published.value, ino) && C.IsTree(published.value)
    requires leftover.Some? ==> C.InosUnder(leftover.value, ino)
    modifies h`fs, h`nextIno, h`residue
    ensures h.Valid() && Kept(old(h.fs), h.fs) && h.nextIno == ino
    ensures h.residue == (old(h.residue) || leftover.Some?)
    ensures leftover.None? ==> h.fs == if published.Some? then Graft(old(h.fs), root, published.value) else old(h.fs)
    ensures published.Some? ==> root in h.fs
  {
    hide Numbered, NamesBelow, Graft, C.InosUnder, C.IsTree;
    h.Renumber(ino, h.nextUuid);
    ghost var a, before := h.fs, h.nextIno;
    h.nextIno := ino;
    if published.Some? {
      GraftNumbered(h.fs, root, published.value, before, ino, h.nextUuid);
      GraftKeeps(h.fs, root, published.value);
      GraftHasRoot(h.fs, root, published.value);
      h.fs := Graft(h.fs, root, published.value);
    }
    if leftover.Some? {
      ghost var b := h.fs;
      GraftNumbered(h.fs, staging, leftover.value, ino, ino, h.nextUuid);
      GraftKeeps(h.fs, staging, leftover.value);
      h.fs := Graft(h.fs, staging, leftover.value);
      h.residue := true;
      KeptTransitive(a, b, h.fs);
    }
  }

  lemma StagingName(cache: Path, uuid: nat)
    requires cache != [] && NamesBelow(cache, uuid)
    ensures NamesBelow(Parent(cache) + [Staging("cache", uuid)], uuid + 1)
  {
    assert forall n :: n in Parent(cache) ==> n in cache;
  }

  ghost predicate Planned(fs: FileSystem, r: Roots, manifest: Option<seq<Entry>>, own: Ownership) {
    manifest.Some? && SourceTree(fs, r).Some? && P.PlannedFrom(SourceTree(fs, r).value, manifest.value, own)
  }

  /** _copy_cache on the trees that the host shows: what it published and what
      it left of the staging directory. */
  method CopyTrees(h: Host, r: Roots, target: Option<Tree>, raced: Option<Tree>, manifest: Option<seq<Entry>>,
                   own: Ownership, codec: C.Codec)
    returns (result: Result<C.Status, Reason>, published: Option<Tree>, leftover: Option<Tree>, ino: int)
    requires P.AnyTree(target) && P.AnyTree(raced) && codec.Valid() && manifest.Some? && r.cache != []
    modifies h`faults
    ensures h.nextIno <= ino && (old(h.faults) == [] ==> h.faults == [] && leftover == None)
    ensures published.Some? ==>
      target.None? && C.IsTree(published.value) && C.InosUnder(published.value, ino) && P.Published(published.value, manifest.value, own, codec)
    ensures leftover.Some? ==> C.InosUnder(leftover.value, ino)
    ensures result.Success? ==> target.Some? || raced.Some? || (published.Some? && Fits(manifest.value, codec))
    ensures old(h.faults) == [] && target.None? && raced.None? && Planned(h.fs, r, manifest, own) ==>
      (result.Success? <==> Publishable(h.fs, r, manifest.value, own, codec))
  {
    hide NamesBelow, TreeAt, C.InosUnder, C.IsTree, P.Published, P.PlannedFrom, P.NamesSafe, C.CacheValid, C.TrustedParent;
    var source := SourceTree(h.fs, r);
    var c := new C.CacheHost(target, raced, NodeAt(h.fs, Parent(r.cache)), h.faults, h.nextIno);
    result := P.CopyCache(c, if source.Some? then source.value else map[], manifest, own, codec);
    h.faults := c.faults;
    published := if target.None? && raced.None? then c.target else None;
    leftover, ino := c.staging, c.nextIno;
    if published.Some? {
      PublishedFits(published.value, manifest.value, own, codec);
    }
  }

  /** The made-up name of the staging directory. */
  method NameStaging(h: Host, r: Roots) returns (staging: Path)
    requires h.Valid() && RootsNamed(r, h.nextUuid) && r.cache != []
    modifies h`nextUuid
    ensures h.Valid() && RootsNamed(r, h.nextUuid)
    ensures NamesBelow(staging, h.nextUuid) && NamesBelow(r.cache, h.nextUuid)
  {
    hide Numbered, NamesBelow;
    staging := Parent(r.cache) + [Staging("cache", h.nextUuid)];
    StagingName(r.cache, h.nextUuid);
    RootsNamedLater(r, h.nextUuid, h.nextUuid + 1);
    h.Renumber(h.nextIno, h.nextUuid + 1);
    h.nextUuid := h.nextUuid + 1;
  }

  /** _copy_cache on the host, given what it shows of the target. */
  method CopyAndSettle(h: Host, r: Roots, target: Option<Tree>, raced: Option<Tree>, manifest: Option<seq<Entry>>,
                       own: Ownership, codec: C.Codec)
    returns (result: Result<C.Status, Reason>)
    requires h.Valid() && RootsNamed(r, h.nextUuid) && codec.Valid() && r.cache != [] && manifest.Some?
    requires P.AnyTree(target) && P.AnyTree(raced)
    modifies h`fs, h`nextIno, h`nextUuid, h`faults, h`residue
    ensures h.Valid() && RootsNamed(r, h.nextUuid) && Kept(old(h.fs), h.fs) && (old(h.residue) ==> h.residue)
    ensures old(h.faults) == [] ==> h.faults == [] && h.residue == old(h.residue)
    ensures target.None? && raced.None? && !h.residue && r.cache !in old(h.fs) ==>
      CacheStep(old(h.fs), h.fs, r, manifest, own, codec)
    ensures target.Some? && !h.residue ==> h.fs == old(h.fs)
    ensures result.Success? ==> target.Some? || raced.Some? || (r.cache in h.fs && Fits(manifest.value, codec))
    ensures old(h.faults) == [] && target.None? && raced.None? && Planned(old(h.fs), r, manifest, own) ==>
      (result.Success? <==> Publishable(old(h.fs), r, manifest.value, own, codec))
  {
    hide Numbered, NamesBelow, RootsNamed, Graft, TreeAt, C.InosUnder, C.IsTree, P.Published, P.AnyTree, Publishable, Planned, Fits, CacheStep;
    ghost var start := h.fs;
    var staging := NameStaging(h, r);
    var published, leftover, ino;
    result, published, leftover, ino := CopyTrees(h, r, target, raced, manifest, own, codec);
    Settle(h, r.cache, staging, published, leftover, ino);
    if target.None? && raced.None? && !h.residue && r.cache !in start {
      StepTaken(start, h.fs, r, published, manifest, own, codec);
    }
  }

  /** _apply_cache */
  method ApplyCache(h: Host, r: Roots, manifest: Option<seq<Entry>>, own: Ownership, codec: C.Codec) returns (result: Result<C.Status, Reason>)
    requires h.Valid() && RootsNamed(r, h.nextUuid) && codec.Valid() && r.cache != []
    modifies h`fs, h`nextIno, h`nextUuid, h`faults, h`others, h`residue
    ensures h.Valid() && RootsNamed(r, h.nextUuid) && Kept(old(h.fs), h.fs) && (old(h.residue) ==> h.residue)
    ensures (old(h.faults) == [] ==> h.faults == [] && h.residue == old(h.residue)) && (old(h.others) == [] ==> h.others == [])
    ensures manifest.None? ==> result == Success(C.NotRequested) && h.fs == old(h.fs)
    ensures old(h.others) == [] && !h.residue ==> CacheStep(old(h.fs), h.fs, r, manifest, own, codec)
    ensures old(h.others) == [] && result.Success? && manifest.Some? ==>
      r.cache in h.fs && (r.cache !in old(h.fs) ==> Fits(manifest.value, codec))
    ensures old(h.faults) == [] && old(h.others) == [] && manifest.Some? && r.cache !in old(h.fs) && Planned(old(h.fs), r, manifest, own) ==>
      (result.Success? <==> Publishable(old(h.fs), r, manifest.value, own, codec))
  {
    hide *;
    ghost var start := h.fs;
    Sqlite.KeptSame(start);
    StepTaken(start, start, r, None, manifest, own, codec);
    if manifest.None? {
      return Success(C.NotRequested);
    }
    var target, raced := MeetOthers(h, r);
    SomeTree(h.fs, r.cache);
    ghost var met := h.fs;
    result := CopyAndSettle(h, r, target, raced, manifest, own, codec);
    KeptTransitive(start, met, h.fs);
    if r.cache in met {
      KeptAt(met, h.fs, r.cache);
    }
  }

  lemma StepTaken(a: FileSystem, b: FileSystem, r: Roots, published: Option<Tree>, manifest: Option<seq<Entry>>,
                  own: Ownership, codec: C.Codec)
    requires b == if published.Some? then Graft(a, r.cache, published.value) else a
    requires published.Some? ==> r.cache !in a && manifest.Some? && P.Published(published.value, manifest.value, own, codec)
    ensures CacheStep(a, b, r, manifest, own, codec)
  {
    hide Graft, P.Published;
    if published.Some? {
      assert PublishedAt(a, b, r, published.value, manifest.value, own, codec);
    }
  }

  lemma GraftHasRoot(fs: FileSystem, root: Path, t: Tree)
    requires C.IsTree(t)
    ensures root in Graft(fs, root, t)
  {
    GraftedAt(root, t, []);
    assert root + Names([]) == root;
    GraftMembers(fs, root, t, root);
  }

  lemma PublishedFits(t: Tree, entries: seq<Entry>, own: Ownership, codec: C.Codec)
    requires P.Published(t, entries, own, codec) && codec.Valid()
    ensures C.CacheValid(t, own, codec) ==> Fits(entries, codec)
  {
    hide Listing, C.FineBelow;
    P.PublishedValid(t, entries, own, codec);
  }

  /** What a planned cache needs to be published and to be valid. */
  ghost predicate Publishable(fs: FileSystem, r: Roots, entries: seq<Entry>, own: Ownership, codec: C.Codec) {
    r.cache != [] && C.TrustedParent(NodeAt(fs, Parent(r.cache)), own.envUid) && P.NamesSafe(entries) && Fits(entries, codec)
  }

  // ----- What the cache stage adds to the files' progress -----

  /** What a plan with a cache to copy says. */
  lemma ReadyCache(fs: FileSystem, r: Roots, setup: Setup, codec: C.Codec)
    requires PlanAll(fs, r, setup, codec).Success? && PlanAll(fs, r, setup, codec).value.cache.Ready?
    ensures r.cache !in fs && InDirectory(fs, r.cache) && SourceTree(fs, r).Some?
    ensures PlanAll(fs, r, setup, codec).value.cache.entries == Manifest(fs, r)
    ensures P.PlannedFrom(SourceTree(fs, r).value, Manifest(fs, r), setup.own)
  {
    PlanNeeds(fs, r, setup, codec);
    SafeRoots(fs, r, setup);
    hide BuildPlan, TreeAt, Listing, C.FineBelow;
    SomeTree(fs, r.cache);
    SourceRooted(fs, r);
  }

  lemma SafeRoots(fs: FileSystem, r: Roots, setup: Setup)
    requires BuildPlan(fs, r, setup).Success?
    ensures SafeDirectory(fs, r.cache, true) && (r.sourceCache.Some? ==> SafeDirectory(fs, r.sourceCache.value, false))
    ensures r.cache !in fs ==> InDirectory(fs, r.cache)
  {
    hide PlanRepairs, PlanEnvironment, PlanConfigs, ValidateStateNames, PlanSlots, SidecarSnapshots, TargetSidecarsValid, PlanSlot;
  }

  lemma SourceRooted(fs: FileSystem, r: Roots)
    requires r.sourceCache.Some? ==> SafeDirectory(fs, r.sourceCache.value, false)
    ensures SourceTree(fs, r).Some? <==> r.sourceCache.Some?
    ensures SourceTree(fs, r).Some? ==> Rooted(SourceTree(fs, r).value)
  {
    hide TreeAt;
    if r.sourceCache.Some? {
      SomeTree(fs, r.sourceCache.value);
      TreeAtIsTree(fs, r.sourceCache.value);
    }
  }

  /** A part of the file stages is a part of the whole migration. */
  lemma FilesAlone(fs0: FileSystem, fs: FileSystem, r: Roots, setup: Setup, codec: C.Codec)
    requires WellFormed(fs0) && RootsDisjoint(r) && Progress(fs0, fs, r, setup)
    ensures WholeProgress(fs0, fs, r, setup, codec)
    ensures r.cache !in fs0 ==> r.cache !in fs && NothingAt(fs, r.cache)
    ensures Files(fs0, fs, r) == fs
  {
    hide Progress, NewCache, RootsDisjoint;
    if r.cache !in fs0 {
      ProgressWellFormed(fs0, fs, r, setup);
      CacheRootSame(fs0, fs, r, setup);
      forall p | p in fs ensures !(r.cache <= p) {
        if r.cache <= p {
          NothingBeneath(fs, r.cache, p);
        }
      }
      NothingRemoved(fs, r.cache);
    }
  }

  lemma GraftedIsReached(fs: FileSystem, root: Path, t: Tree, p: Path)
    requires NothingAt(fs, root) && C.IsTree(t) && p in Graft(fs, root, t) && root <= p
    ensures Reached(Graft(fs, root, t), root, p)
  {
    hide Graft, Reached, Grafted;
    GraftMembers(fs, root, t, p);
    GraftedParts(p, root, t);
    GraftReached(fs, root, t, Texts(p[|root|..]));
  }

  lemma GraftedParts(p: Path, root: Path, t: Tree)
    requires Grafted(p, root, t)
    ensures AllPlain(p[|root|..]) && Texts(p[|root|..]) in t && p == root + Names(Texts(p[|root|..]))
  {
  }

  /** The cache stage, after the files, makes a new cache. */
  lemma CacheAdded(fs0: FileSystem, a: FileSystem, b: FileSystem, t: Tree, r: Roots, setup: Setup, codec: C.Codec)
    requires WellFormed(fs0) && RootsDisjoint(r) && Progress(fs0, a, r, setup)
    requires r.cache !in fs0 && InDirectory(fs0, r.cache) && SourceTree(fs0, r).Some?
    requires PublishedAt(a, b, r, t, Manifest(fs0, r), setup.own, codec)
    ensures WholeProgress(fs0, b, r, setup, codec) && Files(fs0, b, r) == a && r.cache in b
  {
    hide Progress, Graft, P.Published, RootsDisjoint, Manifest, NothingAt, C.IsTree, NewCache, SourceTree, InDirectory, WellFormed;
    FilesAlone(fs0, a, r, setup, codec);
    PublishedIsTree(t, Manifest(fs0, r), setup.own, codec);
    DirectoryStays(fs0, a, r, setup, r.cache);
    NewCacheMade(fs0, a, t, r, setup, codec);
    GraftRemoved(a, r.cache, t);
    GraftHasRoot(a, r.cache, t);
  }

  lemma NewCacheMade(fs0: FileSystem, a: FileSystem, t: Tree, r: Roots, setup: Setup, codec: C.Codec)
    requires NothingAt(a, r.cache) && InDirectory(a, r.cache) && C.IsTree(t) && SourceTree(fs0, r).Some?
    requires P.Published(t, Manifest(fs0, r), setup.own, codec)
    ensures NewCache(fs0, Graft(a, r.cache, t), r, setup, codec)
  {
    hide Graft, P.Published, Reached, TreeAt, Manifest, NothingAt, C.IsTree, SourceTree;
    var b := Graft(a, r.cache, t);
    GraftRoundTrip(a, r.cache, t);
    GraftKeeps(a, r.cache, t);
    GraftHasRoot(a, r.cache, t);
    KeptAt(a, b, Parent(r.cache));
    forall p | p in b && r.cache <= p ensures Reached(b, r.cache, p) {
      GraftedIsReached(a, r.cache, t, p);
    }
  }

  lemma PublishedIsTree(t: Tree, entries: seq<Entry>, own: Ownership, codec: C.Codec)
    requires P.Published(t, entries, own, codec)
    ensures C.IsTree(t)
  {
  }

  lemma DirectoryStays(fs0: FileSystem, fs: FileSystem, r: Roots, setup: Setup, p: Path)
    requires Progress(fs0, fs, r, setup) && InDirectory(fs0, p)
    ensures InDirectory(fs, p)
  {
  }

  /** The parent of the cache is none of the roots, and stays as it is. */
  lemma CacheParentSame(fs0: FileSystem, fs: FileSystem, r: Roots, setup: Setup)
    requires RootsDisjoint(r) && Progress(fs0, fs, r, setup) && InDirectory(fs0, r.cache)
    ensures NodeAt(fs, Parent(r.cache)) == NodeAt(fs0, Parent(r.cache))
  {
    RootsApart(r);
    assert Parent(r.cache) <= r.cache && Parent(r.cache) != r.cache;
  }

  lemma CacheStepTracks(fs0: FileSystem, a: FileSystem, b: FileSystem, r: Roots, manifest: Option<seq<Entry>>, setup: Setup, codec: C.Codec)
    requires WellFormed(fs0) && PlanAll(fs0, r, setup, codec).Success? && Progress(fs0, a, r, setup)
    requires manifest == ManifestOf(PlanAll(fs0, r, setup, codec).value.cache)
    requires CacheStep(a, b, r, manifest, setup.own, codec)
    ensures WholeProgress(fs0, b, r, setup, codec) && Files(fs0, b, r) == a
  {
    PlanNeeds(fs0, r, setup, codec);
    hide Progress, PublishedAt, RootsDisjoint, BuildPlan, PlanAll, Files, WholeProgress;
    if b == a {
      FilesAlone(fs0, a, r, setup, codec);
    } else {
      var t :| PublishedAt(a, b, r, t, manifest.value, setup.own, codec);
      ReadyCache(fs0, r, setup, codec);
      CacheAdded(fs0, a, b, t, r, setup, codec);
    }
  }

  /** The manifest is only kept in a plan that asks for the cache. */
  function ManifestOf(plan: P.CachePlan): Option<seq<Entry>> {
    if plan.Ready? then Some(plan.entries) else None
  }

  /** The planned cache, if there is one to copy, can be published. */
  ghost predicate CacheCanBe(fs: FileSystem, r: Roots, setup: Setup, codec: C.Codec)
    requires PlanAll(fs, r, setup, codec).Success?
  {
    PlanAll(fs, r, setup, codec).value.cache.Ready? ==> Publishable(fs, r, Manifest(fs, r), setup.own, codec)
  }

  // ----- The whole run -----

  /** Planning at the level of the host: the same answer as PlanAll. */
  method PlanWhole(fs: FileSystem, r: Roots, setup: Setup, codec: C.Codec) returns (plan: Result<WholePlan, Reason>)
    ensures plan == PlanAll(fs, r, setup, codec)
  {
    hide TreeAt, P.CachePlanned;
    var files := BuildPlan(fs, r, setup);
    if files.Failure? {
      return Failure(files.error);
    }
    SafeRoots(fs, r, setup);
    SourceRooted(fs, r);
    TreesThere(fs, r.cache);
    var cache := P.PlanCache(TreeAt(fs, r.cache), SourceTree(fs, r), setup.own, codec);
    return if cache.Success? then Success(WholePlan(files.value, cache.value)) else Failure(cache.error);
  }

  /** apply_plan: the file stages, then the cache. */
  method ApplyPlan(h: Host, plan: WholePlan, setup: Setup, codec: C.Codec, ghost planned: FileSystem) returns (r: Outcome)
    requires h.Valid() && RootsNamed(plan.files.roots, h.nextUuid) && codec.Valid()
    requires PlanAll(planned, plan.files.roots, setup, codec) == Success(plan)
    modifies h`fs, h`nextIno, h`nextUuid, h`faults, h`others, h`residue
    ensures h.Valid() && RootsNamed(plan.files.roots, h.nextUuid) && Framed(old(h.fs), h.fs, plan.files.roots, setup.own)
    ensures (old(h.faults) == [] ==> h.faults == []) && (old(h.residue) ==> h.residue)
    ensures !RequiresMigration(plan.files) && !plan.cache.Ready? ==> r.Success? && h.fs == old(h.fs)
    ensures old(h.others) == [] && old(h.fs) == planned ==> h.others == []
    ensures old(h.others) == [] && old(h.fs) == planned && WellFormed(planned) && !h.residue ==>
      && WholeProgress(planned, h.fs, plan.files.roots, setup, codec)
      && (r.Success? ==> WholeComplete(planned, h.fs, plan.files.roots, setup, codec))
    ensures old(h.Quiet() && h.fs == planned && !h.residue) && BackupsWork(planned, plan.files.roots, setup) ==>
      !h.residue && (r.Success? <==> CacheCanBe(planned, plan.files.roots, setup, codec))
  {
    hide PlanAll, RootsNamed, Framed, Progress, RequiresMigration, BackupsWork, Complete, WholeProgress, CacheCanBe, CacheStep, Planned,
         Publishable, Fits, Numbered, NamesBelow, BuildPlan, WellFormed, Kept, Files, Oversized, RootsDisjoint;
    var roots, manifest := plan.files.roots, ManifestOf(plan.cache);
    ghost var start, alone := h.fs, h.others == [] && h.fs == planned;
    PlannedFiles(planned, plan, setup, codec);
    r := ApplyFiles(h, plan.files, setup, planned);
    if r.Failure? {
      if alone && WellFormed(planned) && !h.residue {
        FilesAlone(planned, h.fs, roots, setup, codec);
      }
      return;
    }
    ghost var filed := h.fs;
    var status := ApplyCache(h, roots, manifest, setup.own, codec);
    KeptIsFramed(filed, h.fs, roots, setup.own);
    FramedTransitive(start, filed, h.fs, roots, setup.own);
    if alone && !h.residue {
      CacheDecides(planned, filed, plan, manifest, setup, codec);
      if WellFormed(planned) {
        CacheStepTracks(planned, filed, h.fs, roots, manifest, setup, codec);
        if status.Success? {
          NowComplete(planned, filed, h.fs, plan, manifest, setup, codec);
        }
      }
    }
    r := if status.Success? then Success(()) else Failure(status.error);
  }

  /** Whether the cache can be published is decided by what was planned on. */
  lemma CacheDecides(planned: FileSystem, filed: FileSystem, plan: WholePlan, manifest: Option<seq<Entry>>, setup: Setup, codec: C.Codec)
    requires PlanAll(planned, plan.files.roots, setup, codec) == Success(plan) && manifest == ManifestOf(plan.cache)
    requires Progress(planned, filed, plan.files.roots, setup)
    ensures manifest.Some? ==> plan.files.roots.cache !in filed && Planned(filed, plan.files.roots, manifest, setup.own)
    ensures CacheCanBe(planned, plan.files.roots, setup, codec) <==>
      (manifest.Some? ==> Publishable(filed, plan.files.roots, manifest.value, setup.own, codec))
  {
    hide Progress, BuildPlan, RootsDisjoint, Fits, P.PlannedFrom, SourceTree, Manifest, InDirectory;
    var r := plan.files.roots;
    PlanNeeds(planned, r, setup, codec);
    if manifest.Some? {
      ReadyCache(planned, r, setup, codec);
      hide PlanAll;
      CacheRootSame(planned, filed, r, setup);
      SourceTreeSame(planned, filed, r, setup);
      CacheParentSame(planned, filed, r, setup);
    }
  }

  lemma NotReadyMeansThere(fs: FileSystem, r: Roots, setup: Setup, codec: C.Codec)
    requires PlanAll(fs, r, setup, codec).Success? && !PlanAll(fs, r, setup, codec).value.cache.Ready? && r.sourceCache.Some?
    ensures r.cache in fs
  {
    hide BuildPlan, TreeAt, PlanAll, P.CachePlanned, SafeDirectory, SourceTree, Rooted;
    PlanNeeds(fs, r, setup, codec);
    SafeRoots(fs, r, setup);
    SourceRooted(fs, r);
    SomeTree(fs, r.cache);
    if r.cache !in fs {
      assert TreeAt(fs, r.cache) == None;
      MissingIsReady(SourceTree(fs, r), setup.own, codec);
    }
  }

  lemma MissingIsReady(source: Option<Tree>, own: Ownership, codec: C.Codec)
    requires P.CachePlanned(None, source, own, codec).Success? && source.Some?
    ensures P.CachePlanned(None, source, own, codec).value.Ready?
  {
    hide Listing, C.FineBelow;
  }

  lemma NowComplete(planned: FileSystem, filed: FileSystem, fs: FileSystem, plan: WholePlan, manifest: Option<seq<Entry>>,
                    setup: Setup, codec: C.Codec)
    requires WellFormed(planned) && PlanAll(planned, plan.files.roots, setup, codec) == Success(plan)
    requires manifest == ManifestOf(plan.cache) && Complete(planned, filed, plan.files.roots, setup)
    requires CacheStep(filed, fs, plan.files.roots, manifest, setup.own, codec)
    requires manifest.Some? ==> plan.files.roots.cache in fs && (plan.files.roots.cache !in filed ==> Fits(manifest.value, codec))
    ensures WholeComplete(planned, fs, plan.files.roots, setup, codec)
  {
    var r := plan.files.roots;
    hide Progress, BuildPlan, RootsDisjoint, PublishedAt, Manifest, WholeProgress, PlanAll, Files;
    PlanNeeds(planned, r, setup, codec);
    CacheStepTracks(planned, filed, fs, r, manifest, setup, codec);
    CacheRootSame(planned, filed, r, setup);
    if plan.cache.Ready? {
      ReadyCache(planned, r, setup, codec);
    } else if r.sourceCache.Some? {
      NotReadyMeansThere(planned, r, setup, codec);
    }
  }

  lemma PlannedFiles(planned: FileSystem, plan: WholePlan, setup: Setup, codec: C.Codec)
    requires PlanAll(planned, plan.files.roots, setup, codec) == Success(plan)
    ensures PlannedOn(plan.files, planned, setup) && RootsDisjoint(plan.files.roots) && plan.files.roots.cache != []
  {
    hide BuildPlan, RootsDisjoint;
    PlanNeeds(planned, plan.files.roots, setup, codec);
  }

  /** migrate: plan on the file system as it is, then apply; other processes
      may act in between. Whatever fails and whoever else is active, the frame
      holds, and a plan that fails or asks for nothing changes nothing. Alone, a
      run that leaves no residue is a part of what was planned, which can be
      planned again unless an oversized cache was published; one that also
      succeeds is complete and has converged; and one in which nothing fails
      succeeds exactly when the cache can be published. */
  method Migrate(h: Host, roots: Roots, setup: Setup, codec: C.Codec) returns (r: Outcome)
    requires h.Valid() && RootsNamed(roots, h.nextUuid) && codec.Valid()
    modifies h`fs, h`nextIno, h`nextUuid, h`faults, h`others, h`residue
    ensures h.Valid() && RootsNamed(roots, h.nextUuid) && Framed(old(h.fs), h.fs, roots, setup.own)
    ensures (old(h.faults) == [] ==> h.faults == []) && (old(h.residue) ==> h.residue)
    ensures old(h.others) == [] ==> h.others == []
    ensures PlanAll(old(h.fs), roots, setup, codec).Failure? ==> r.Failure? && h.fs == old(h.fs)
    ensures old(h.others) == [] && Converged(old(h.fs), roots, setup, codec) ==> r.Success? && h.fs == old(h.fs)
    ensures old(h.others) == [] && WellFormed(old(h.fs)) && !h.residue ==> WellFormed(h.fs)
    ensures old(h.others) == [] && WellFormed(old(h.fs)) && !h.residue && PlanAll(old(h.fs), roots, setup, codec).Success? ==>
      && WholeProgress(old(h.fs), h.fs, roots, setup, codec)
      && (PlanAll(h.fs, roots, setup, codec).Success? <==> !Oversized(old(h.fs), h.fs, roots, codec))
    ensures old(h.others) == [] && WellFormed(old(h.fs)) && !h.residue && r.Success? ==>
      WholeComplete(old(h.fs), h.fs, roots, setup, codec) && Converged(h.fs, roots, setup, codec)
    ensures PlanAll(old(h.fs), roots, setup, codec).Success? && BackupsWork(old(h.fs), roots, setup) && old(h.Quiet() && !h.residue) ==>
      !h.residue && (r.Success? <==> CacheCanBe(old(h.fs), roots, setup, codec))
  {
    hide PlanAll, RootsNamed, Framed, RequiresMigration, BackupsWork, WholeProgress, WholeComplete, CacheCanBe, Numbered, NamesBelow,
         WellFormed, Kept, Oversized;
    ghost var planned := h.fs;
    var plan := PlanWhole(h.fs, roots, setup, codec);
    if plan.Failure? {
      FramedSame(planned, roots, setup.own);
      return Failure(plan.error);
    }
    PlannedRoots(planned, roots, setup, codec, plan.value);
    h.Interfere(h.nextIno, h.nextUuid);
    NumberedWithOthers(planned, h.fs, h.nextIno, h.nextUuid, h.nextIno, h.nextUuid);
    KeptIsFramed(planned, h.fs, roots, setup.own);
    ghost var met := h.fs;
    r := ApplyPlan(h, plan.value, setup, codec, planned);
    FramedTransitive(planned, met, h.fs, roots, setup.own);
    if old(h.others) == [] && WellFormed(planned) && !h.residue {
      WholeWellFormed(planned, h.fs, roots, setup, codec);
      WholeReplan(planned, h.fs, roots, setup, codec);
      if r.Success? {
        WholeConverges(planned, h.fs, roots, setup, codec);
      }
    }
  }

  lemma PlannedRoots(fs: FileSystem, r: Roots, setup: Setup, codec: C.Codec, plan: WholePlan)
    requires PlanAll(fs, r, setup, codec) == Success(plan)
    ensures plan.files.roots == r
  {
    hide BuildPlan;
    PlanNeeds(fs, r, setup, codec);
    PlanParts(fs, r, setup, plan.files);
  }

  // ----- Two runs -----

  lemma BackupsStillWork(fs0: FileSystem, fs: FileSystem, r: Roots, setup: Setup, codec: C.Codec)
    requires RootsDisjoint(r) && WholeProgress(fs0, fs, r, setup, codec) && BackupsWork(fs0, r, setup)
    ensures BackupsWork(fs, r, setup)
  {
    hide Progress, SlotContent, Slots, RootsDisjoint, NewCache, Files;
    forall s | s in Slots(r, setup.own) && s.database && s.source in fs && s.target !in fs
      ensures SlotContent(fs, s, r, setup).Some?
    {
      BackupStillWorks(fs0, fs, r, setup, s);
    }
  }

  lemma BackupStillWorks(fs0: FileSystem, fs: FileSystem, r: Roots, setup: Setup, s: Slot)
    requires RootsDisjoint(r) && Progress(fs0, Files(fs0, fs, r), r, setup) && BackupsWork(fs0, r, setup)
    requires s in Slots(r, setup.own) && s.database && s.source in fs && s.target !in fs
    ensures SlotContent(fs, s, r, setup).Some?
  {
    hide Progress, SlotContent, Slots, RootsDisjoint;
    var files := Files(fs0, fs, r);
    SlotContentSame(fs0, files, r, setup, s);
    SlotsNotUnderCache(r, setup.own, s);
    SlotPlaces(r, setup.own, s);
    SourceSame(fs0, files, r, setup, s.source);
    WithoutCacheSame(fs, r, setup, s);
    if s.target in fs0 {
      KeptTarget(fs0, files, r, setup, s.target);
    }
  }

  /** A cache that could be published at the start can be when the migration is
      resumed, if it is not there already. */
  lemma CacheStillCanBe(fs0: FileSystem, fs: FileSystem, r: Roots, setup: Setup, codec: C.Codec)
    requires WellFormed(fs0) && codec.Valid() && WholeProgress(fs0, fs, r, setup, codec)
    requires PlanAll(fs0, r, setup, codec).Success? && CacheCanBe(fs0, r, setup, codec)
    ensures PlanAll(fs, r, setup, codec).Success? && CacheCanBe(fs, r, setup, codec)
  {
    PlanNeeds(fs0, r, setup, codec);
    WholeReplan(fs0, fs, r, setup, codec);
    hide Progress, RootsDisjoint, BuildPlan, PlanAll, Manifest, P.PlannedFrom, P.Published, Reached, SourceTree, InDirectory, Publishable;
    if Oversized(fs0, fs, r, codec) {
      ReadyAtStart(fs0, fs, r, setup, codec);
      PublishableFits(fs0, r, Manifest(fs0, r), setup.own, codec);
    }
    if PlanAll(fs, r, setup, codec).value.cache.Ready? {
      ReadyCache(fs, r, setup, codec);
      NotThereAtStart(fs0, fs, r, setup, codec);
      ReadyAtStart(fs0, fs, r, setup, codec);
      ReadyCache(fs0, r, setup, codec);
      ManifestSame(fs0, fs, r, setup, codec);
      PublishableStill(fs0, fs, r, Manifest(fs0, r), setup, codec);
    }
  }

  lemma PublishableFits(fs: FileSystem, r: Roots, entries: seq<Entry>, own: Ownership, codec: C.Codec)
    requires Publishable(fs, r, entries, own, codec)
    ensures |codec.encode(entries)| <= C.MAX_CACHE_MANIFEST_BYTES
  {
  }

  lemma NotThereAtStart(fs0: FileSystem, fs: FileSystem, r: Roots, setup: Setup, codec: C.Codec)
    requires WholeProgress(fs0, fs, r, setup, codec) && r.cache !in fs
    ensures r.cache !in fs0 && NothingAt(fs, r.cache)
  {
    hide Progress, P.Published, Reached;
    if r.cache in fs0 {
      KeptTarget(fs0, fs, r, setup, r.cache);
    }
  }

  /** Whoever has a cache to copy and none in place is asked to copy it. */
  lemma ReadyAtStart(fs0: FileSystem, fs: FileSystem, r: Roots, setup: Setup, codec: C.Codec)
    requires PlanAll(fs0, r, setup, codec).Success? && r.cache !in fs0
    requires SourceTree(fs, r).Some? || (WholeProgress(fs0, fs, r, setup, codec) && r.cache in fs)
    ensures PlanAll(fs0, r, setup, codec).value.cache.Ready?
  {
    hide Progress, P.Published, Reached, BuildPlan, PlanAll;
    if !PlanAll(fs0, r, setup, codec).value.cache.Ready? && r.sourceCache.Some? {
      NotReadyMeansThere(fs0, r, setup, codec);
    }
  }

  lemma PublishableStill(fs0: FileSystem, fs: FileSystem, r: Roots, entries: seq<Entry>, setup: Setup, codec: C.Codec)
    requires RootsDisjoint(r) && WholeProgress(fs0, fs, r, setup, codec) && NothingAt(fs, r.cache) && r.cache !in fs0
    requires InDirectory(fs0, r.cache) && Publishable(fs0, r, entries, setup.own, codec)
    ensures Publishable(fs, r, entries, setup.own, codec)
  {
    hide Progress, RootsDisjoint, P.NamesSafe, Fits, NewCache, InDirectory;
    NothingRemoved(fs, r.cache);
    CacheParentSame(fs0, fs, r, setup);
  }

  /** Stop a migration anywhere, plan again and go on; beside it, the same
      migration in one go. If the second and the direct run succeed, every
      target and the cache end the same on both hosts. The second run succeeds
      if nothing fails in it any more, and one after a success changes nothing. */
  method StopAndResume(h: Host, d: Host, roots: Roots, setup: Setup, codec: C.Codec)
    returns (first: Outcome, second: Outcome, direct: Outcome, ghost stopped: FileSystem, ghost calm: bool)
    requires h != d && h.Valid() && d.Valid() && RootsNamed(roots, h.nextUuid) && RootsNamed(roots, d.nextUuid) && codec.Valid()
    requires h.fs == d.fs && WellFormed(h.fs) && h.others == [] && d.others == [] && !h.residue && !d.residue
    modifies h`fs, h`nextIno, h`nextUuid, h`faults, h`others, h`residue
    modifies d`fs, d`nextIno, d`nextUuid, d`faults, d`others, d`residue
    ensures !h.residue && !d.residue && second.Success? && direct.Success? ==>
      && SameOutcome(h.fs, d.fs, roots, setup)
      && Converged(h.fs, roots, setup, codec) && Converged(d.fs, roots, setup, codec)
    ensures !h.residue && first.Success? ==> second.Success? && h.fs == stopped
    ensures old(h.faults) == [] ==> calm
    ensures !h.residue && calm && PlanAll(old(h.fs), roots, setup, codec).Success? && BackupsWork(old(h.fs), roots, setup) ==>
      CacheCanBe(old(h.fs), roots, setup, codec) ==> second.Success?
  {
    hide PlanAll, RootsNamed, Framed, BackupsWork, WholeProgress, WholeComplete, CacheCanBe, Numbered, NamesBelow, WellFormed, Kept,
         Oversized, SameOutcome, Converged;
    ghost var start := h.fs;
    first := Migrate(h, roots, setup, codec);
    stopped, calm := h.fs, h.faults == [];
    if !h.residue && PlanAll(start, roots, setup, codec).Success? && BackupsWork(start, roots, setup) && CacheCanBe(start, roots, setup, codec) {
      PlanDisjoint(start, roots, setup, codec);
      BackupsStillWork(start, stopped, roots, setup, codec);
      CacheStillCanBe(start, stopped, roots, setup, codec);
    }
    second := Migrate(h, roots, setup, codec);
    direct := Migrate(d, roots, setup, codec);
    if !h.residue && !d.residue && second.Success? && direct.Success? {
      ResumedRunEndsTheSame(start, stopped, h.fs, d.fs, roots, setup, codec);
    }
  }

  lemma PlanDisjoint(fs: FileSystem, r: Roots, setup: Setup, codec: C.Codec)
    requires PlanAll(fs, r, setup, codec).Success?
    ensures RootsDisjoint(r)
  {
    hide BuildPlan, RootsDisjoint, PlanAll;
    PlanNeeds(fs, r, setup, codec);
  }
}
