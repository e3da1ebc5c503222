/** Where a migration may be killed inside one atomic copy and still be
    resumed: the exact answer. */
module MigrationCrash {
  import opened Wrappers
  import opened MigrationModel
  import opened MigrationPlan
  import opened MigrationHost
  import opened MigrationSqlite
  import opened MigrationProgress
  import opened MigrationResume
  import opened MigrationApply

  /** A made-up name directly in the state root is unknown state to the planner. */
  lemma StrayInStateRootBlocks(fs: FileSystem, r: Roots, setup: Setup, n: Name)
    requires r.state + [n] in fs && !n.Plain? && r.state in fs
    ensures BuildPlan(fs, r, setup).Failure?
  {
    hide RootsSafe, RootsDisjoint, PlanSlots, PlanSlot, PlanRepairs, PlanEnvironment, PlanConfigs, SidecarSnapshots, TargetSidecarsValid,
         ValidateStateNames;
    StrayIsUnknown(fs, r, n);
  }

  lemma StrayIsUnknown(fs: FileSystem, r: Roots, n: Name)
    requires r.state + [n] in fs && !n.Plain? && r.state in fs
    ensures ValidateStateNames(fs, r).Failure?
  {
    hide NoOrphans, IsSidecar;
    ChildrenMembers(fs, r.state);
    assert !TargetAllowed(n) && !IsTemporary(n);
  }

  /** A target that still has a second link is not accepted. */
  lemma SecondLinkBlocks(fs: FileSystem, r: Roots, setup: Setup, s: Slot)
    requires s in Slots(r, setup.own) && s.target in fs && fs[s.target].File? && fs[s.target].nlink != 1
    ensures BuildPlan(fs, r, setup).Failure?
  {
    hide BuildPlan, RootsSafe, RootsDisjoint, RootsFine, EnvironmentFine, ConfigDirFine, MandatoryFine,
         ValidateStateNames, SidecarsFine, TargetSidecarsValid, Slots;
    BuildPlanSucceeds(fs, r, setup);
    assert !PlanSlot(fs, s, setup.own.serviceGid).Success?;
  }

  /** A path the planner looks at: plain at its end, or not under the stray's directory. */
  lemma LookupUnchanged(fs: FileSystem, t: Path, node: Node, p: Path)
    requires t != [] && !Last(t).Plain? && (p == [] || Last(p).Plain?)
    ensures p != t && Get(fs[t := node], p) == Get(fs, p)
  {
  }

  lemma SlotLooksUnchanged(fs: FileSystem, t: Path, node: Node, r: Roots, own: Ownership, s: Slot)
    requires t != [] && !Last(t).Plain? && s in Slots(r, own)
    ensures PlanSlot(fs[t := node], s, own.serviceGid) == PlanSlot(fs, s, own.serviceGid)
  {
    SlotKinds(r, own, s);
    LookupUnchanged(fs, t, node, s.source);
    LookupUnchanged(fs, t, node, s.target);
  }

  lemma ListingUnchanged(fs: FileSystem, t: Path, node: Node, dir: Path)
    requires t != [] && Parent(t) != dir && t != dir
    ensures StateNames(fs[t := node], dir) == StateNames(fs, dir)
  {
    var after := fs[t := node];
    ChildrenMembers(fs, dir);
    ChildrenMembers(after, dir);
    forall n ensures dir + [n] in after <==> dir + [n] in fs {
      assert Parent(dir + [n]) == dir;
    }
    assert Children(after, dir) == Children(fs, dir);
  }

  lemma SafetyUnchanged(fs: FileSystem, t: Path, node: Node, p: Path, allowMissing: bool)
    requires !(t <= p)
    ensures SafeDirectory(fs[t := node], p, allowMissing) == SafeDirectory(fs, p, allowMissing)
  {
    assert forall k :: 0 <= k <= |p| ==> p[..k] != t;
    assert p[..|p|] == p;
  }

  lemma SidecarsUnchanged(fs: FileSystem, t: Path, node: Node, r: Roots, d: string)
    requires t != [] && !Last(t).Plain?
    ensures SnapshotsAt(fs[t := node], SidecarPaths(SourceDb(r), d)) == SnapshotsAt(fs, SidecarPaths(SourceDb(r), d))
  {
    var paths := SidecarPaths(SourceDb(r), d);
    forall i | 0 <= i < |paths| ensures Get(fs[t := node], paths[i]) == Get(fs, paths[i]) {
      LookupUnchanged(fs, t, node, paths[i]);
    }
    SnapshotsSame(fs[t := node], fs, paths);
  }

  ghost predicate AboveNoRoot(t: Path, r: Roots) {
    && !(t <= r.source) && !(t <= r.env) && !(t <= r.state) && !(t <= r.cache)
    && (r.sourceCache.Some? ==> !(t <= r.sourceCache.value))
  }

  /** A made-up name elsewhere is invisible to the planner. */
  lemma StrayElsewhereHarmless(fs: FileSystem, t: Path, node: Node, r: Roots, setup: Setup)
    requires t != [] && !Last(t).Plain? && Plannable(fs, r, setup)
    requires Parent(t) == r.env || Parent(t) == ConfigDir(r)
    requires AboveNoRoot(t, r)
    ensures Plannable(fs[t := node], r, setup)
  {
    var after, own := fs[t := node], setup.own;
    RootsApart(r);
    SafetyUnchanged(fs, t, node, r.source, false);
    SafetyUnchanged(fs, t, node, r.env, true);
    SafetyUnchanged(fs, t, node, r.state, true);
    SafetyUnchanged(fs, t, node, r.cache, true);
    if r.sourceCache.Some? {
      SafetyUnchanged(fs, t, node, r.sourceCache.value, false);
    }
    assert r.source != t && r.env != t && r.state != t && r.cache != t;
    hide SafeDirectory, Slots, SnapshotsAt, SidecarNames, NamesKnown, NoOrphans, SidecarPaths;
    assert RootsFine(after, r, own);
    forall s | s in Slots(r, own) ensures PlanSlot(after, s, own.serviceGid).Success? {
      SlotLooksUnchanged(fs, t, node, r, own, s);
    }
    EnvironmentUnchanged(fs, t, node, r, setup);
    LookupUnchanged(fs, t, node, ConfigDir(r));
    MandatoryUnchanged(fs, t, node, r, own);
    StrayDirectory(t, r);
    ListingUnchanged(fs, t, node, SourceDb(r));
    ListingUnchanged(fs, t, node, r.state);
    forall d | d in KNOWN_DB_FILENAMES ensures SnapshotsAt(after, SidecarPaths(SourceDb(r), d)).Success? {
      SidecarsUnchanged(fs, t, node, r, d);
    }
    TargetSidecarsUnchanged(fs, t, node, r, own);
  }

  lemma StrayDirectory(t: Path, r: Roots)
    requires t != [] && !Last(t).Plain? && RootsDisjoint(r) && (Parent(t) == r.env || Parent(t) == ConfigDir(r))
    ensures Parent(t) != SourceDb(r) && t != SourceDb(r) && Parent(t) != r.state
  {
    RootsApart(r);
    DirectoriesApart(r);
  }

  lemma DirectoriesApart(r: Roots)
    requires RootsDisjoint(r)
    ensures SourceDb(r) != ConfigDir(r) && SourceDb(r) != r.env
  {
    RootsApart(r);
    if SourceDb(r) == ConfigDir(r) {
      PrefixesOverlap(r.source, r.state, SourceDb(r));
    }
  }

  lemma EnvironmentUnchanged(fs: FileSystem, t: Path, node: Node, r: Roots, setup: Setup)
    requires t != [] && !Last(t).Plain?
    ensures EnvironmentFine(fs[t := node], r, setup) == EnvironmentFine(fs, r, setup)
  {
    LookupUnchanged(fs, t, node, EnvSlot(r, setup.own).source);
    LookupUnchanged(fs, t, node, EnvSlot(r, setup.own).target);
  }

  lemma MandatoryUnchanged(fs: FileSystem, t: Path, node: Node, r: Roots, own: Ownership)
    requires t != [] && !Last(t).Plain?
    ensures MandatoryFine(fs[t := node], r, own) == MandatoryFine(fs, r, own)
  {
    forall n ensures ConfigSlot(r, own, n).source != t && ConfigSlot(r, own, n).target != t {
      LookupUnchanged(fs, t, node, ConfigSlot(r, own, n).source);
      LookupUnchanged(fs, t, node, ConfigSlot(r, own, n).target);
    }
  }

  lemma TargetSidecarsUnchanged(fs: FileSystem, t: Path, node: Node, r: Roots, own: Ownership)
    requires t != [] && !Last(t).Plain?
    ensures TargetSidecarsValid(fs[t := node], r, own) == TargetSidecarsValid(fs, r, own)
  {
    hide SidecarNames;
    forall name ensures r.state + [Plain(name)] != t {
      LookupUnchanged(fs, t, node, r.state + [Plain(name)]);
    }
  }

  // ----- Stopping inside one atomic copy -----

  /** The steps of atomic_copy that leave a different file system behind. */
  datatype Stop = Copying | LinkedTwice | Done

  /** What is left of a copy of slot s killed at the given step. */
  function AfterStop(fs: FileSystem, s: Slot, t: Path, node: Node, stop: Stop): FileSystem
    requires node.File?
  {
    match stop
    case Copying => fs[t := node]
    case LinkedTwice => fs[t := node.(nlink := 2)][s.target := node.(nlink := 2)]
    case Done => fs[s.target := node]
  }

  /** Slot s has to be copied, and t is the made-up name beside its target. */
  ghost predicate CopyUnderWay(fs: FileSystem, r: Roots, setup: Setup, s: Slot, t: Path) {
    && s in Slots(r, setup.own) && !s.database && s.target !in fs && s.source in fs && fs[s.source].File?
    && InDirectory(fs, s.target)
    && t != [] && Parent(t) == Parent(s.target) && Last(t).Temporary? && t !in fs
    && AboveNoRoot(t, r)
  }

  lemma DoneResumable(fs: FileSystem, r: Roots, setup: Setup, s: Slot, node: Node)
    requires WellFormed(fs) && BuildPlan(fs, r, setup).Success?
    requires s in Slots(r, setup.own) && s.target !in fs && InDirectory(fs, s.target)
    requires FileMetadata(node, s.uid, setup.own.serviceGid, s.mode) && SlotContent(fs, s, r, setup) == Some(node.content)
    ensures BuildPlan(fs[s.target := node], r, setup).Success?
  {
    hide BuildPlan, Progress, Plannable, Slots, SlotContent;
    ProgressStart(fs, r, setup);
    ProgressSlot(fs, fs, fs[s.target := node], r, setup, s, node.content);
    Replan(fs, fs[s.target := node], r, setup);
  }

  lemma CopyingResumable(fs: FileSystem, r: Roots, setup: Setup, s: Slot, t: Path, node: Node)
    requires BuildPlan(fs, r, setup).Success? && CopyUnderWay(fs, r, setup, s, t)
    ensures BuildPlan(fs[t := node], r, setup).Success? <==> Parent(s.target) != r.state
  {
    hide BuildPlan, Plannable, Slots;
    if Parent(s.target) == r.state {
      assert t == r.state + [Last(t)];
      StrayInStateRootBlocks(fs[t := node], r, setup, Last(t));
    } else {
      BuildPlanSucceeds(fs, r, setup);
      BuildPlanSucceeds(fs[t := node], r, setup);
      TargetDirectory(r, setup.own, s);
      StrayElsewhereHarmless(fs, t, node, r, setup);
    }
  }

  /** A copy that is killed can be resumed exactly when it was done, or when it
      was still copying and its directory is not the state root: between the
      link and the unlink the target has two links, and in the state root the
      leftover name is unknown state. */
  lemma StoppedCopyResumable(fs: FileSystem, r: Roots, setup: Setup, s: Slot, t: Path, node: Node, stop: Stop)
    requires WellFormed(fs) && BuildPlan(fs, r, setup).Success? && CopyUnderWay(fs, r, setup, s, t)
    requires node.File? && (stop == Done ==>
      FileMetadata(node, s.uid, setup.own.serviceGid, s.mode) && node.content == fs[s.source].content)
    ensures BuildPlan(AfterStop(fs, s, t, node, stop), r, setup).Success? <==>
      stop == Done || (stop == Copying && Parent(s.target) != r.state)
  {
    hide BuildPlan, WellFormed, Slots;
    match stop {
      case Done => DoneResumable(fs, r, setup, s, node);
      case LinkedTwice => SecondLinkBlocks(AfterStop(fs, s, t, node, stop), r, setup, s);
      case Copying => CopyingResumable(fs, r, setup, s, t, node);
    }
  }

  // ----- Stopping inside one database backup -----

  /** The steps of sqlite_backup that leave a different file system behind. */
  datatype BackupStop = Staged | Written | LinkedBoth | TemporaryGone | StagingGone

  /** What is left of the backup of database slot s killed at the given step;
      `inside` is the staging directory with what it holds by then. */
  function AfterBackupStop(fs: FileSystem, s: Slot, inside: FileSystem, t: Path, node: Node, stop: BackupStop): FileSystem
    requires node.File?
  {
    match stop
    case Staged => fs + inside
    case Written => (fs + inside)[t := node]
    case LinkedBoth => (fs + inside)[t := node.(nlink := 2)][s.target := node.(nlink := 2)]
    case TemporaryGone => (fs + inside)[s.target := node]
    case StagingGone => fs[s.target := node]
  }

  /** Database slot s has to be backed up; staging and t are made-up names beside
      its target. */
  ghost predicate BackupUnderWay(fs: FileSystem, r: Roots, setup: Setup, s: Slot, staging: Path, inside: FileSystem, t: Path) {
    && s in Slots(r, setup.own) && s.database && s.target !in fs && InDirectory(fs, s.target)
    && staging != [] && Parent(staging) == Parent(s.target) && Last(staging).Staging?
    && staging in inside && (forall p :: p in inside ==> staging <= p)
    && t != [] && Parent(t) == Parent(s.target) && Last(t).Temporary?
  }

  lemma StagingBlocks(fs: FileSystem, r: Roots, setup: Setup, s: Slot, staging: Path, inside: FileSystem, t: Path, node: Node, stop: BackupStop)
    requires BackupUnderWay(fs, r, setup, s, staging, inside, t) && node.File? && stop != StagingGone
    ensures BuildPlan(AfterBackupStop(fs, s, inside, t, node, stop), r, setup).Failure?
  {
    hide BuildPlan, Slots;
    DatabaseMode(s, r, setup.own);
    var after := AfterBackupStop(fs, s, inside, t, node, stop);
    BackupInStateRoot(r, setup.own, s);
    assert staging == r.state + [Last(staging)];
    assert |r.state| < |staging| && |r.state| < |s.target| && |r.state| < |t|;
    StrayInStateRootBlocks(after, r, setup, Last(staging));
  }

  lemma BackupInStateRoot(r: Roots, own: Ownership, s: Slot)
    requires s in Slots(r, own) && s.database
    ensures s.target != [] && Parent(s.target) == r.state
  {
    SlotKinds(r, own, s);
  }

  /** A backup that is killed can be resumed only when it was done: its staging
      directory is unknown state in the state root until the last step. */
  lemma StoppedBackupResumable(fs: FileSystem, r: Roots, setup: Setup, s: Slot, staging: Path, inside: FileSystem, t: Path,
                               node: Node, stop: BackupStop)
    requires WellFormed(fs) && BuildPlan(fs, r, setup).Success? && BackupUnderWay(fs, r, setup, s, staging, inside, t)
    requires node.File? && (stop == StagingGone ==>
      FileMetadata(node, s.uid, setup.own.serviceGid, s.mode) && SlotContent(fs, s, r, setup) == Some(node.content))
    ensures BuildPlan(AfterBackupStop(fs, s, inside, t, node, stop), r, setup).Success? <==> stop == StagingGone
  {
    hide BuildPlan, WellFormed, Slots, SlotContent;
    if stop == StagingGone {
      DoneResumable(fs, r, setup, s, node);
    } else {
      StagingBlocks(fs, r, setup, s, staging, inside, t, node, stop);
    }
  }

  lemma TargetDirectory(r: Roots, own: Ownership, s: Slot)
    requires s in Slots(r, own)
    ensures s.target != [] && Parent(s.target) in {r.env, ConfigDir(r), r.state}
  {
    SlotKinds(r, own, s);
  }
}
