/** apply_plan of docker/_systemd_migration_apply.py, stage by stage, on a host
    with failing system calls and other processes. */
module MigrationApply {
  import opened Wrappers
  import opened MigrationModel
  import opened MigrationPlan
  import opened MigrationHost
  import opened MigrationSqlite
  import opened MigrationProgress
  import opened MigrationResume

  ghost predicate RootsNamed(r: Roots, uuid: nat) {
    && NamesBelow(r.source, uuid) && NamesBelow(r.env, uuid) && NamesBelow(r.state, uuid) && NamesBelow(r.cache, uuid)
    && (r.sourceCache.Some? ==> NamesBelow(r.sourceCache.value, uuid))
  }

  lemma NamedChild(p: Path, text: string, uuid: nat)
    requires NamesBelow(p, uuid)
    ensures NamesBelow(p + [Plain(text)], uuid)
  {
  }

  lemma SlotNamed(r: Roots, own: Ownership, s: Slot, uuid: nat)
    requires s in Slots(r, own) && RootsNamed(r, uuid)
    ensures NamesBelow(s.source, uuid) && NamesBelow(s.target, uuid) && s.target != []
    ensures NamesBelow(ConfigDir(r), uuid)
    ensures forall i :: 0 <= i < 3 ==> NamesBelow(SidecarPaths(SourceDb(r), s.name)[i], uuid)
  {
    hide NamesBelow;
    SlotKinds(r, own, s);
    NamedChild(r.source, ".env", uuid);
    NamedChild(r.env, "gateway.env", uuid);
    NamedChild(r.source, s.name, uuid);
    NamedChild(r.source, "db", uuid);
    NamedChild(r.state, "config", uuid);
    NamedChild(ConfigDir(r), s.name, uuid);
    NamedChild(SourceDb(r), s.name, uuid);
    NamedChild(r.state, s.name, uuid);
    forall i | 0 <= i < 3 ensures NamesBelow(SidecarPaths(SourceDb(r), s.name)[i], uuid) {
      NamedChild(SourceDb(r), s.name + SQLITE_SIDECAR_SUFFIXES[i], uuid);
    }
  }

  // ----- Each change keeps the progress relation -----

  lemma ProgressStart(fs: FileSystem, r: Roots, setup: Setup)
    ensures Progress(fs, fs, r, setup)
  {
  }

  lemma ProgressRoot(fs0: FileSystem, a: FileSystem, b: FileSystem, r: Roots, setup: Setup, x: (Path, int))
    requires RootsDisjoint(r) && Progress(fs0, a, r, setup) && x in FhsRoots(r, setup.own)
    requires x.0 in a && a[x.0].Dir? && a[x.0].uid == x.1 && a[x.0].gid == setup.own.serviceGid && a[x.0].mode & GROUP_OTHER_WRITE == 0
    requires b == a[x.0 := Dir(x.1, setup.own.serviceGid, FHS_DIRECTORY_MODE)]
    ensures Progress(fs0, b, r, setup)
  {
    hide Slots, SlotContent, MayAdd;
    var p, after := x.0, Dir(x.1, setup.own.serviceGid, FHS_DIRECTORY_MODE);
    if p in fs0 {
      RepairedTwice(fs0[p], a[p], r, setup, x);
    } else {
      NewRootsHaveMode(fs0, a, r, setup, x);
      assert b == a;
    }
  }

  lemma RepairedTwice(before: Node, now: Node, r: Roots, setup: Setup, x: (Path, int))
    requires RootsDisjoint(r) && x in FhsRoots(r, setup.own)
    requires now == before || RootRepaired(before, now, x.0, r, setup.own)
    requires now.Dir? && now.uid == x.1 && now.gid == setup.own.serviceGid && now.mode & GROUP_OTHER_WRITE == 0
    ensures RootRepaired(before, Dir(x.1, setup.own.serviceGid, FHS_DIRECTORY_MODE), x.0, r, setup.own)
  {
    if now != before {
      var y :| y in FhsRoots(r, setup.own) && x.0 == y.0
        && before.Dir? && before.uid == y.1 && before.gid == setup.own.serviceGid && before.mode & GROUP_OTHER_WRITE == 0
        && now == Dir(y.1, setup.own.serviceGid, FHS_DIRECTORY_MODE);
    }
  }

  lemma ProgressAdd(fs0: FileSystem, a: FileSystem, b: FileSystem, r: Roots, setup: Setup, p: Path, node: Node)
    requires Progress(fs0, a, r, setup) && p !in a && InDirectory(a, p) && b == a[p := node] && MayAdd(fs0, p, node, r, setup)
    ensures Progress(fs0, b, r, setup)
  {
    hide MayAdd, RootRepaired, InDirectory;
    InDirectoryAdd(a, p, node);
  }

  lemma InDirectoryAdd(a: FileSystem, p: Path, node: Node)
    requires p !in a
    ensures forall q :: InDirectory(a, q) ==> InDirectory(a[p := node], q)
  {
  }

  lemma ProgressSlot(fs0: FileSystem, a: FileSystem, b: FileSystem, r: Roots, setup: Setup, s: Slot, content: Content)
    requires Progress(fs0, a, r, setup) && s in Slots(r, setup.own)
    requires PublishedAs(a, b, content, s.target, s.uid, setup.own.serviceGid, s.mode)
    requires SlotContent(fs0, s, r, setup) == Some(content)
    ensures Progress(fs0, b, r, setup)
  {
    hide SlotContent, Slots, Progress;
    assert AddsSlot(fs0, s.target, b[s.target], r, setup);
    ProgressAdd(fs0, a, b, r, setup, s.target, b[s.target]);
  }

  // ----- The frame without any assumption on what was planned -----

  lemma FramedTransitive(a: FileSystem, b: FileSystem, c: FileSystem, r: Roots, own: Ownership)
    requires Framed(a, b, r, own) && Framed(b, c, r, own)
    ensures Framed(a, c, r, own)
  {
  }

  lemma KeptIsFramed(a: FileSystem, b: FileSystem, r: Roots, own: Ownership)
    requires Kept(a, b)
    ensures Framed(a, b, r, own)
  {
  }

  /** Where a run stands: the frame holds from `start` whatever happened; with
      nobody else active and nothing left behind, so does the progress relation
      to what was planned on. */
  ghost predicate OnTrack(h: Host, start: FileSystem, planned: FileSystem, alone: bool, r: Roots, setup: Setup)
    reads h
  {
    && h.Valid() && RootsNamed(r, h.nextUuid)
    && Framed(start, h.fs, r, setup.own)
    && (alone ==> h.others == [])
    && (alone && !h.residue ==> Progress(planned, h.fs, r, setup))
  }

  /** The plan was made on `planned`. */
  ghost predicate PlannedOn(plan: Plan, planned: FileSystem, setup: Setup) {
    BuildPlan(planned, plan.roots, setup) == Success(plan)
  }

  lemma TrackRoot(h: Host, start: FileSystem, planned: FileSystem, alone: bool, r: Roots, setup: Setup, before: FileSystem, x: (Path, int))
    requires RootsDisjoint(r) && x in FhsRoots(r, setup.own) && h.Valid() && RootsNamed(r, h.nextUuid)
    requires Framed(start, before, r, setup.own) && (alone ==> h.others == [])
    requires alone && !h.residue ==> Progress(planned, before, r, setup)
    requires h.fs == before || (x.0 in before && before[x.0].Dir? && before[x.0].uid == x.1 && before[x.0].gid == setup.own.serviceGid
      && before[x.0].mode & GROUP_OTHER_WRITE == 0 && h.fs == before[x.0 := Dir(x.1, setup.own.serviceGid, FHS_DIRECTORY_MODE)])
    ensures OnTrack(h, start, planned, alone, r, setup)
  {
    if h.fs != before {
      assert RootRepaired(before[x.0], h.fs[x.0], x.0, r, setup.own);
      FramedTransitive(start, before, h.fs, r, setup.own);
      if alone && !h.residue {
        ProgressRoot(planned, before, h.fs, r, setup, x);
      }
    }
  }

  lemma RepairsPlanned(plan: Plan, planned: FileSystem, setup: Setup)
    requires PlannedOn(plan, planned, setup)
    ensures Plannable(planned, plan.roots, setup) && RootsDisjoint(plan.roots)
    ensures forall x :: x in plan.repairs ==> x in FhsRoots(plan.roots, setup.own) && x.0 in planned
  {
    hide Plannable, RootsDisjoint;
    PlanParts(planned, plan.roots, setup, plan);
    PlanNeedsDisjoint(planned, plan.roots, setup);
    BuildPlanSucceeds(planned, plan.roots, setup);
  }

  method NormalizeRoot(h: Host, x: (Path, int), r: Roots, setup: Setup,
                       ghost start: FileSystem, ghost planned: FileSystem, ghost alone: bool) returns (result: Outcome)
    requires OnTrack(h, start, planned, alone, r, setup) && Plannable(planned, r, setup)
    requires x in FhsRoots(r, setup.own) && x.0 in planned
    modifies h`fs, h`faults
    ensures OnTrack(h, start, planned, alone, r, setup)
    ensures old(h.faults) == [] ==> h.faults == []
    ensures alone && old(h.faults) == [] && !h.residue ==> result.Success?
    ensures result.Success? ==> Repaired(h.fs, x, setup)
    ensures forall y :: y in FhsRoots(r, setup.own) && Repaired(old(h.fs), y, setup) ==> Repaired(h.fs, y, setup)
  {
    hide Progress, Framed, Numbered, NamesBelow, Plannable, NeedsNormalization, FhsRoots, RootsDisjoint, RootsNamed;
    ghost var before := h.fs;
    assert RootsDisjoint(r) by { PlannableDisjoint(planned, r, setup); }
    if alone && !h.residue {
      RepairableStill(planned, before, r, setup, x);
    }
    result := h.NormalizeDirectory(x.0, x.1, setup.own.serviceGid, FHS_DIRECTORY_MODE);
    TrackRoot(h, start, planned, alone, r, setup, before, x);
    forall y | y in FhsRoots(r, setup.own) && Repaired(before, y, setup) ensures Repaired(h.fs, y, setup) {
      SameRoot(r, setup.own, y, x);
    }
  }

  /** _normalize_fhs_directories */
  method NormalizeFhsDirectories(h: Host, plan: Plan, setup: Setup, ghost start: FileSystem, ghost planned: FileSystem, ghost alone: bool)
    returns (r: Outcome)
    requires OnTrack(h, start, planned, alone, plan.roots, setup) && PlannedOn(plan, planned, setup)
    modifies h`fs, h`faults
    ensures OnTrack(h, start, planned, alone, plan.roots, setup)
    ensures plan.repairs == [] ==> h.fs == old(h.fs) && r.Success?
    ensures old(h.faults) == [] ==> h.faults == []
    ensures alone && old(h.faults) == [] && !h.residue ==> r.Success?
    ensures r.Success? ==> forall x :: x in plan.repairs ==> Repaired(h.fs, x, setup)
  {
    hide OnTrack, Plannable, RootsDisjoint, PlannedOn, Repaired, FhsRoots;
    RepairsPlanned(plan, planned, setup);
    var i := 0;
    while i < |plan.repairs|
      invariant i <= |plan.repairs| && OnTrack(h, start, planned, alone, plan.roots, setup)
      invariant old(h.faults) == [] ==> h.faults == []
      invariant i == 0 ==> h.fs == old(h.fs)
      invariant forall k :: 0 <= k < i ==> Repaired(h.fs, plan.repairs[k], setup)
    {
      r := NormalizeRoot(h, plan.repairs[i], plan.roots, setup, start, planned, alone);
      if r.Failure? {
        return;
      }
      i := i + 1;
    }
    r := Success(());
  }

  ghost predicate Repaired(fs: FileSystem, x: (Path, int), setup: Setup) {
    x.0 in fs && fs[x.0] == Dir(x.1, setup.own.serviceGid, FHS_DIRECTORY_MODE)
  }

  lemma SameRoot(r: Roots, own: Ownership, x: (Path, int), y: (Path, int))
    requires x in FhsRoots(r, own) && y in FhsRoots(r, own) && RootsDisjoint(r)
    ensures x.0 == y.0 ==> x == y
  {
    RootsApart(r);
  }

  lemma RepairableStill(planned: FileSystem, fs: FileSystem, r: Roots, setup: Setup, x: (Path, int))
    requires Plannable(planned, r, setup) && Progress(planned, fs, r, setup)
    requires x in FhsRoots(r, setup.own) && x.0 in planned
    ensures x.0 in fs && NeedsNormalization(fs, x.0, x.1, setup.own.serviceGid, FHS_DIRECTORY_MODE).Success?
  {
    RootsStayFine(planned, fs, r, setup);
  }

  // ----- Publishing one slot -----

  /** The artifact of a slot that has to be published. */
  ghost predicate Pending(planned: FileSystem, s: Slot, a: Artifact, r: Roots, setup: Setup) {
    && s in Slots(r, setup.own)
    && PlanSlot(planned, s, setup.own.serviceGid) == Success(a) && Ready(a)
  }

  lemma PendingFacts(planned: FileSystem, fs: FileSystem, s: Slot, a: Artifact, r: Roots, setup: Setup)
    requires Pending(planned, s, a, r, setup) && RootsDisjoint(r)
    ensures a.name == s.name && s.source in planned && planned[s.source].File?
    ensures a.source == Some(SnapshotOf(s.source, planned[s.source], !s.database))
    ensures Progress(planned, fs, r, setup) ==> Current(fs, a.source.value) && s.source in fs && fs[s.source] == planned[s.source]
  {
    hide Progress, Slots;
    SlotPlaces(r, setup.own, s);
    if Progress(planned, fs, r, setup) {
      SourceSame(planned, fs, r, setup, s.source);
    }
  }

  lemma PublicationTracks(planned: FileSystem, before: FileSystem, after: FileSystem, s: Slot, a: Artifact, r: Roots, setup: Setup)
    requires Pending(planned, s, a, r, setup) && RootsDisjoint(r) && Progress(planned, before, r, setup) && !s.database
    requires after == before || Published(before, after, s.source, s.target, s.uid, setup.own.serviceGid, s.mode)
    ensures Progress(planned, after, r, setup)
  {
    hide Progress, Slots;
    PendingFacts(planned, before, s, a, r, setup);
    if after != before {
      ProgressSlot(planned, before, after, r, setup, s, before[s.source].content);
    }
  }

  lemma CanPublishStill(planned: FileSystem, fs: FileSystem, s: Slot, a: Artifact, r: Roots, setup: Setup)
    requires Plannable(planned, r, setup) && Progress(planned, fs, r, setup) && Pending(planned, s, a, r, setup)
    requires InDirectory(fs, s.target)
    ensures CanPublish(fs, a.source.value, s.target, s.uid, setup.own.serviceGid, s.mode)
  {
    hide Progress, Slots, SlotContent;
    PendingFacts(planned, fs, s, a, r, setup);
    if s.target in fs {
      TargetsFine(planned, fs, r, setup, s);
    }
  }

  /** atomic_copy of one pending slot. */
  method PublishCopy(h: Host, s: Slot, a: Artifact, r: Roots, setup: Setup,
                     ghost start: FileSystem, ghost planned: FileSystem, ghost alone: bool) returns (result: Outcome)
    requires OnTrack(h, start, planned, alone, r, setup) && Plannable(planned, r, setup) && Pending(planned, s, a, r, setup) && !s.database
    modifies h`fs, h`nextIno, h`nextUuid, h`faults, h`others, h`residue
    ensures OnTrack(h, start, planned, alone, r, setup) && Kept(old(h.fs), h.fs)
    ensures result.Success? ==> s.target in h.fs
    ensures (old(h.faults) == [] ==> h.faults == []) && (old(h.residue) ==> h.residue)
    ensures alone && old(h.faults) == [] ==> h.residue == old(h.residue)
    ensures alone && old(h.faults) == [] && !old(h.residue) && InDirectory(old(h.fs), s.target) ==> result.Success?
  {
    hide Progress, Framed, Numbered, NamesBelow, Pending, Published, CanPublish, FileMetadata, Plannable;
    ghost var before := h.fs;
    assert RootsDisjoint(r) by { PlannableDisjoint(planned, r, setup); }
    PendingFacts(planned, before, s, a, r, setup);
    PendingSlot(planned, s, a, r, setup);
    SlotNamed(r, setup.own, s, h.nextUuid);
    if alone && !h.residue && InDirectory(before, s.target) {
      CanPublishStill(planned, before, s, a, r, setup);
    }
    result := h.AtomicCopy(a.source.value, a.name, s.target, s.uid, setup.own.serviceGid, s.mode);
    KeptIsFramed(before, h.fs, r, setup.own);
    FramedTransitive(start, before, h.fs, r, setup.own);
    RootsNamedLater(r, old(h.nextUuid), h.nextUuid);
    if alone && !h.residue {
      PublicationTracks(planned, before, h.fs, s, a, r, setup);
    }
  }

  lemma PlannableDisjoint(fs: FileSystem, r: Roots, setup: Setup)
    requires Plannable(fs, r, setup)
    ensures RootsDisjoint(r)
  {
  }

  lemma PendingSlot(planned: FileSystem, s: Slot, a: Artifact, r: Roots, setup: Setup)
    requires Pending(planned, s, a, r, setup)
    ensures s in Slots(r, setup.own)
  {
  }

  lemma RootsNamedLater(r: Roots, uuid: nat, uuid': nat)
    requires RootsNamed(r, uuid) && uuid <= uuid'
    ensures RootsNamed(r, uuid')
  {
  }

  // ----- Publishing one database -----

  predicate LastsDistinct(paths: seq<Path>) {
    forall i, j :: 0 <= i < j < |paths| ==> Last(paths[i]) != Last(paths[j])
  }

  lemma {:induction false} SnapshotsDistinct(fs: FileSystem, paths: seq<Path>)
    requires SnapshotsAt(fs, paths).Success? && LastsDistinct(paths)
    ensures DistinctNames(SnapshotsAt(fs, paths).value)
  {
    if paths != [] {
      var rest := SnapshotsAt(fs, paths[1..]).value;
      SnapshotsDistinct(fs, paths[1..]);
      SnapshotsFacts(fs, paths[1..]);
      forall i | 0 <= i < |rest| ensures Last(rest[i].path) != Last(paths[0]) {
        var k :| 0 <= k < |paths[1..]| && paths[1..][k] == rest[i].path;
        assert paths[k + 1] == rest[i].path;
      }
    }
  }

  lemma {:induction false} WithoutShmDistinct(snaps: seq<Snapshot>)
    requires DistinctNames(snaps)
    ensures DistinctNames(WithoutShm(snaps))
  {
    if snaps != [] {
      var rest := WithoutShm(snaps[1..]);
      WithoutShmDistinct(snaps[1..]);
      WithoutShmMembers(snaps[1..]);
      forall i | 0 <= i < |rest| ensures Last(rest[i].path) != Last(snaps[0].path) {
        var k :| 0 <= k < |snaps[1..]| && snaps[1..][k] == rest[i];
        assert snaps[k + 1] == rest[i];
      }
    }
  }

  lemma SidecarLasts(dir: Path, name: string)
    ensures var paths := SidecarPaths(dir, name);
      LastsDistinct(paths) && forall i :: 0 <= i < |paths| ==> Last(paths[i]) == Plain(name + SQLITE_SIDECAR_SUFFIXES[i])
  {
    var paths := SidecarPaths(dir, name);
    assert (name + "-wal")[|name| + 1] == 'w' && (name + "-shm")[|name| + 1] == 's' && (name + "-journal")[|name| + 1] == 'j';
    assert Last(paths[0]) == Plain(name + "-wal") && Last(paths[1]) == Plain(name + "-shm") && Last(paths[2]) == Plain(name + "-journal");
  }

  ghost predicate DatabaseJob(planned: FileSystem, s: Slot, a: Artifact, j: Job, r: Roots, setup: Setup) {
    && s.database && Pending(planned, s, a, r, setup)
    && SnapshotsAt(planned, SidecarPaths(SourceDb(r), s.name)).Success?
    && j == SlotJob(planned, s, r, setup, a.source.value)
  }

  lemma JobSame(planned: FileSystem, fs: FileSystem, s: Slot, a: Artifact, j: Job, r: Roots, setup: Setup)
    requires RootsDisjoint(r) && Progress(planned, fs, r, setup) && DatabaseJob(planned, s, a, j, r, setup)
    ensures JobContent(fs, j) == SlotContent(planned, s, r, setup)
  {
    hide Progress, Slots, JobContent, SnapshotsAt;
    PendingFacts(planned, fs, s, a, r, setup);
    SlotContentSame(planned, fs, r, setup, s);
  }

  lemma JobNames(planned: FileSystem, s: Slot, a: Artifact, j: Job, r: Roots, setup: Setup, uuid: nat)
    requires RootsDisjoint(r) && DatabaseJob(planned, s, a, j, r, setup) && RootsNamed(r, uuid)
    ensures JobNamed(j, uuid)
  {
    hide NamesBelow, Slots;
    SlotNamed(r, setup.own, s, uuid);
    PendingFacts(planned, planned, s, a, r, setup);
    var paths := SidecarPaths(SourceDb(r), s.name);
    SnapshotsFacts(planned, paths);
    forall i | 0 <= i < |j.sidecars| ensures NamesBelow(j.sidecars[i].path, uuid) {
      var k :| 0 <= k < |paths| && paths[k] == j.sidecars[i].path;
    }
  }

  lemma JobRuns(planned: FileSystem, fs: FileSystem, s: Slot, a: Artifact, j: Job, r: Roots, setup: Setup)
    requires Plannable(planned, r, setup) && Progress(planned, fs, r, setup) && DatabaseJob(planned, s, a, j, r, setup)
    requires InDirectory(fs, s.target) && SlotContent(planned, s, r, setup).Some?
    ensures JobCanRun(fs, j)
  {
    hide Progress, Slots, SlotContent, JobContent, Plannable;
    PlannableDisjoint(planned, r, setup);
    PendingFacts(planned, fs, s, a, r, setup);
    PendingSlot(planned, s, a, r, setup);
    JobSame(planned, fs, s, a, j, r, setup);
    if s.target in fs {
      TargetsFine(planned, fs, r, setup, s);
    }
    var paths := SidecarPaths(SourceDb(r), s.name);
    SlotContentSame(planned, fs, r, setup, s);
    SnapshotsFacts(fs, paths);
    WithoutShmMembers(j.sidecars);
    DistinctStaged(planned, s, a, j, r, setup);
    DatabaseMode(s, r, setup.own);
  }

  lemma DatabaseMode(s: Slot, r: Roots, own: Ownership)
    requires s in Slots(r, own) && s.database
    ensures s.mode == RUNTIME_FILE_MODE && s.source == SourceDb(r) + [Plain(s.name)] && s.name in KNOWN_DB_FILENAMES
  {
    SlotKinds(r, own, s);
  }

  lemma DistinctStaged(planned: FileSystem, s: Slot, a: Artifact, j: Job, r: Roots, setup: Setup)
    requires RootsDisjoint(r) && DatabaseJob(planned, s, a, j, r, setup)
    ensures DistinctNames(Staged(j.main, j.sidecars))
  {
    hide Slots, IsShm;
    var paths := SidecarPaths(SourceDb(r), s.name);
    PendingFacts(planned, planned, s, a, r, setup);
    PendingSlot(planned, s, a, r, setup);
    DatabaseMode(s, r, setup.own);
    SidecarLasts(SourceDb(r), s.name);
    SnapshotsDistinct(planned, paths);
    SnapshotsFacts(planned, paths);
    WithoutShmDistinct(j.sidecars);
    WithoutShmMembers(j.sidecars);
    var side := WithoutShm(j.sidecars);
    assert Last(j.main.path) == Plain(s.name);
    forall i | 0 <= i < |side| ensures Last(side[i].path) != Plain(s.name) {
      assert side[i] in j.sidecars;
      var k :| 0 <= k < |paths| && paths[k] == side[i].path;
      assert |s.name + SQLITE_SIDECAR_SUFFIXES[k]| > |s.name|;
    }
  }

  lemma BackupTracks(planned: FileSystem, before: FileSystem, after: FileSystem, s: Slot, a: Artifact, j: Job, r: Roots, setup: Setup)
    requires RootsDisjoint(r) && Progress(planned, before, r, setup) && DatabaseJob(planned, s, a, j, r, setup)
    requires after == before || JobDone(before, after, j)
    ensures Progress(planned, after, r, setup)
  {
    hide Progress, Slots, SlotContent, JobContent;
    PendingSlot(planned, s, a, r, setup);
    if after != before {
      JobSame(planned, before, s, a, j, r, setup);
      DatabaseMode(s, r, setup.own);
      ProgressSlot(planned, before, after, r, setup, s, JobContent(before, j).value);
    }
  }

  /** sqlite_backup of one pending database slot. */
  method PublishBackup(h: Host, s: Slot, a: Artifact, sidecars: seq<Snapshot>, r: Roots, setup: Setup,
                       ghost start: FileSystem, ghost planned: FileSystem, ghost alone: bool) returns (result: Outcome)
    requires OnTrack(h, start, planned, alone, r, setup) && Plannable(planned, r, setup)
    requires Pending(planned, s, a, r, setup) && s.database
    requires SnapshotsAt(planned, SidecarPaths(SourceDb(r), s.name)) == Success(sidecars)
    modifies h`fs, h`nextIno, h`nextUuid, h`faults, h`others, h`residue
    ensures OnTrack(h, start, planned, alone, r, setup) && Kept(old(h.fs), h.fs)
    ensures result.Success? ==> s.target in h.fs
    ensures (old(h.faults) == [] ==> h.faults == []) && (old(h.residue) ==> h.residue)
    ensures alone && old(h.faults) == [] ==> h.residue == old(h.residue)
    ensures SlotContent(planned, s, r, setup).Some? ==>
              alone && old(h.faults) == [] && !old(h.residue) && InDirectory(old(h.fs), s.target) ==> result.Success?
  {
    ghost var before := h.fs;
    assert RootsDisjoint(r) by { PlannableDisjoint(planned, r, setup); }
    var j := Job(a.source.value, sidecars, s.target, s.uid, setup.own.serviceGid, setup.backup);
    assert DatabaseJob(planned, s, a, j, r, setup);
    JobNames(planned, s, a, j, r, setup, h.nextUuid);
    hide Progress, Framed, Numbered, NamesBelow, Pending, JobDone, JobCanRun, FileMetadata, Plannable, DatabaseJob, SlotContent;
    if alone && !h.residue && InDirectory(before, s.target) && SlotContent(planned, s, r, setup).Some? {
      JobRuns(planned, before, s, a, j, r, setup);
    }
    result := SqliteBackup(h, a.name, j);
    KeptIsFramed(before, h.fs, r, setup.own);
    FramedTransitive(start, before, h.fs, r, setup.own);
    RootsNamedLater(r, old(h.nextUuid), h.nextUuid);
    if alone && !h.residue {
      BackupTracks(planned, before, h.fs, s, a, j, r, setup);
    }
  }

  // ----- Directories -----

  predicate IsPlanDirectory(p: Path, node: Node, r: Roots, setup: Setup) {
    var own := setup.own;
    || (p == r.env && node == Dir(own.envUid, own.serviceGid, FHS_DIRECTORY_MODE))
    || (p == r.state && node == Dir(own.serviceUid, own.serviceGid, FHS_DIRECTORY_MODE))
    || (p == ConfigDir(r) && node == Dir(own.serviceUid, own.serviceGid, RUNTIME_DIRECTORY_MODE))
  }

  lemma DirectoryTracks(planned: FileSystem, before: FileSystem, after: FileSystem, p: Path, node: Node, r: Roots, setup: Setup)
    requires Progress(planned, before, r, setup) && IsPlanDirectory(p, node, r, setup)
    requires after == before || DirectoryMade(before, after, p, node)
    ensures Progress(planned, after, r, setup)
  {
    hide Progress, AddsSlot;
    if after != before {
      ProgressAdd(planned, before, after, r, setup, p, node);
    }
  }

  /** ensure_directory of one of the plan's directories. */
  method EnsurePlanDirectory(h: Host, p: Path, owner: int, mode: bv16, r: Roots, setup: Setup,
                             ghost start: FileSystem, ghost planned: FileSystem, ghost alone: bool) returns (result: Outcome)
    requires OnTrack(h, start, planned, alone, r, setup) && IsPlanDirectory(p, Dir(owner, setup.own.serviceGid, mode), r, setup)
    modifies h`fs, h`faults, h`others, h`residue
    ensures OnTrack(h, start, planned, alone, r, setup) && Kept(old(h.fs), h.fs)
    ensures result.Success? ==> p in h.fs && h.fs[p] == Dir(owner, setup.own.serviceGid, mode)
    ensures (old(h.faults) == [] ==> h.faults == []) && (old(h.residue) ==> h.residue)
    ensures alone && old(h.faults) == [] ==> h.residue == old(h.residue)
    ensures alone && old(h.faults) == [] && DirectoryCanBe(old(h.fs), p, Dir(owner, setup.own.serviceGid, mode)) ==> result.Success?
  {
    ghost var before := h.fs;
    NamedChild(r.state, "config", h.nextUuid);
    hide Progress, Framed, Numbered, NamesBelow, DirectoryCanBe;
    result := h.EnsureDirectory(p, owner, setup.own.serviceGid, mode, h.nextIno, h.nextUuid);
    KeptIsFramed(before, h.fs, r, setup.own);
    FramedTransitive(start, before, h.fs, r, setup.own);
    if alone && !h.residue {
      DirectoryTracks(planned, before, h.fs, p, Dir(owner, setup.own.serviceGid, mode), r, setup);
    }
  }
}
