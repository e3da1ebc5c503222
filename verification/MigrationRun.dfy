/** The file stages of a migration in their order, and what they leave when
    they succeed or fail. */
module MigrationRun {
  import opened Wrappers
  import opened MigrationModel
  import opened MigrationPlan
  import opened MigrationHost
  import opened MigrationSqlite
  import opened MigrationProgress
  import opened MigrationResume
  import opened MigrationApply

  /** Every root that exists has its proper owner and mode. */
  ghost predicate RootsReady(fs: FileSystem, r: Roots, setup: Setup) {
    forall x :: x in FhsRoots(r, setup.own) && x.0 in fs ==> fs[x.0] == Dir(x.1, setup.own.serviceGid, FHS_DIRECTORY_MODE)
  }

  /** Nobody else is active, nothing fails, nothing was left behind. */
  ghost predicate Healthy(h: Host, alone: bool, r: Roots, setup: Setup)
    reads h
  {
    alone && h.faults == [] && !h.residue && RootsReady(h.fs, r, setup)
  }

  lemma ReadyStill(planned: FileSystem, a: FileSystem, b: FileSystem, r: Roots, setup: Setup)
    requires RootsDisjoint(r) && RootsReady(a, r, setup) && Kept(a, b)
    requires Progress(planned, a, r, setup) && Progress(planned, b, r, setup)
    ensures RootsReady(b, r, setup)
  {
    hide Progress, Slots, RootsDisjoint, FhsRoots;
    forall x | x in FhsRoots(r, setup.own) && x.0 in b
      ensures b[x.0] == Dir(x.1, setup.own.serviceGid, FHS_DIRECTORY_MODE)
    {
      if x.0 !in a {
        if x.0 in planned {
          KeptTarget(planned, a, r, setup, x.0);
        }
        NewRootIs(planned, b, r, setup, x);
      }
    }
  }

  lemma StageStaysHealthy(h: Host, planned: FileSystem, before: FileSystem, alone: bool, r: Roots, setup: Setup)
    requires Plannable(planned, r, setup) && alone && h.faults == [] && !h.residue
    requires RootsReady(before, r, setup) && Kept(before, h.fs)
    requires Progress(planned, before, r, setup) && Progress(planned, h.fs, r, setup)
    ensures Healthy(h, alone, r, setup)
  {
    hide Progress;
    PlannableDisjoint(planned, r, setup);
    ReadyStill(planned, before, h.fs, r, setup);
  }

  lemma RootCanBe(planned: FileSystem, fs: FileSystem, r: Roots, setup: Setup, x: (Path, int))
    requires Plannable(planned, r, setup) && Progress(planned, fs, r, setup) && RootsReady(fs, r, setup)
    requires x in FhsRoots(r, setup.own)
    ensures DirectoryCanBe(fs, x.0, Dir(x.1, setup.own.serviceGid, FHS_DIRECTORY_MODE))
  {
    hide Progress, ValidateStateNames, TargetSidecarsValid;
    RootsStaySafe(planned, fs, r, setup);
    assert x.0 in [r.env, r.state, r.cache];
    if x.0 !in fs {
      assert SafeDirectory(fs, x.0, true);
      assert x.0[..|x.0| - 1] in fs;
    }
  }

  lemma ConfigDirCanBe(planned: FileSystem, fs: FileSystem, r: Roots, setup: Setup)
    requires Plannable(planned, r, setup) && Progress(planned, fs, r, setup)
    requires r.state in fs && fs[r.state].Dir?
    ensures DirectoryCanBe(fs, ConfigDir(r), Dir(setup.own.serviceUid, setup.own.serviceGid, RUNTIME_DIRECTORY_MODE))
  {
    hide Progress, ValidateStateNames, TargetSidecarsValid;
    ConfigDirStaysFine(planned, fs, r, setup);
    assert Parent(ConfigDir(r)) == r.state;
  }

  // ----- What a plan's artifacts are -----

  lemma EnvironmentPlanned(plan: Plan, planned: FileSystem, setup: Setup)
    requires PlannedOn(plan, planned, setup)
    ensures Plannable(planned, plan.roots, setup)
    ensures plan.environment.target.None? ==> Pending(planned, EnvSlot(plan.roots, setup.own), plan.environment, plan.roots, setup)
  {
    hide Plannable, Slots;
    PlanParts(planned, plan.roots, setup, plan);
    BuildPlanSucceeds(planned, plan.roots, setup);
    SlotKinds(plan.roots, setup.own, EnvSlot(plan.roots, setup.own));
    EnvironmentReady(plan, planned, setup);
  }

  lemma EnvironmentReady(plan: Plan, planned: FileSystem, setup: Setup)
    requires PlannedOn(plan, planned, setup)
    ensures plan.environment.source.Some? || plan.environment.target.Some?
  {
    hide PlanSlot, PlanRepairs, PlanConfigs, ValidateStateNames, SidecarSnapshots, PlanSlots, RootsSafe, RootsDisjoint, TargetSidecarsValid;
  }

  lemma ConfigsPlanned(plan: Plan, planned: FileSystem, setup: Setup)
    requires PlannedOn(plan, planned, setup)
    ensures Plannable(planned, plan.roots, setup)
    ensures |plan.configs| == |CONFIG_FILENAMES|
    ensures forall i :: 0 <= i < |plan.configs| && Ready(plan.configs[i]) ==>
      Pending(planned, ConfigSlot(plan.roots, setup.own, CONFIG_FILENAMES[i]), plan.configs[i], plan.roots, setup)
  {
    hide Plannable, Slots, BuildPlan, PlanSlot;
    PlanParts(planned, plan.roots, setup, plan);
    BuildPlanSucceeds(planned, plan.roots, setup);
    forall i | 0 <= i < |plan.configs| && Ready(plan.configs[i])
      ensures Pending(planned, ConfigSlot(plan.roots, setup.own, CONFIG_FILENAMES[i]), plan.configs[i], plan.roots, setup)
    {
      var s := ConfigSlots(plan.roots, setup.own)[i];
      SlotKinds(plan.roots, setup.own, s);
    }
  }

  lemma DatabasesPlanned(plan: Plan, planned: FileSystem, setup: Setup)
    requires PlannedOn(plan, planned, setup)
    ensures Plannable(planned, plan.roots, setup)
    ensures |plan.databases| == |KNOWN_DB_FILENAMES| == |plan.sidecars|
    ensures forall i :: 0 <= i < |plan.databases| ==>
      SnapshotsAt(planned, SidecarPaths(SourceDb(plan.roots), KNOWN_DB_FILENAMES[i])) == Success(plan.sidecars[i])
    ensures forall i :: 0 <= i < |plan.databases| && Ready(plan.databases[i]) ==>
      Pending(planned, StateSlot(plan.roots, setup.own, KNOWN_DB_FILENAMES[i], true), plan.databases[i], plan.roots, setup)
  {
    hide Plannable, Slots, BuildPlan, PlanSlot, SnapshotsAt;
    PlanParts(planned, plan.roots, setup, plan);
    BuildPlanSucceeds(planned, plan.roots, setup);
    forall i | 0 <= i < |plan.databases| && Ready(plan.databases[i])
      ensures Pending(planned, StateSlot(plan.roots, setup.own, KNOWN_DB_FILENAMES[i], true), plan.databases[i], plan.roots, setup)
    {
      var s := DatabaseSlots(plan.roots, setup.own)[i];
      SlotKinds(plan.roots, setup.own, s);
    }
  }

  lemma DeadLetterPlanned(plan: Plan, planned: FileSystem, setup: Setup)
    requires PlannedOn(plan, planned, setup)
    ensures Plannable(planned, plan.roots, setup)
    ensures Ready(plan.deadLetter) ==>
      Pending(planned, DeadLetterSlot(plan.roots, setup.own), plan.deadLetter, plan.roots, setup)
  {
    hide Plannable, Slots, BuildPlan, PlanSlot;
    PlanParts(planned, plan.roots, setup, plan);
    BuildPlanSucceeds(planned, plan.roots, setup);
    SlotKinds(plan.roots, setup.own, DeadLetterSlot(plan.roots, setup.own));
  }

  // ----- The stages -----

  predicate StateWrites(plan: Plan) {
    || (exists i :: 0 <= i < |plan.configs| && Ready(plan.configs[i]))
    || (exists i :: 0 <= i < |plan.databases| && Ready(plan.databases[i]))
    || Ready(plan.deadLetter)
  }

  predicate StateRootThere(fs: FileSystem, r: Roots) {
    r.state in fs && fs[r.state].Dir?
  }

  /** _apply_environment */
  method ApplyEnvironment(h: Host, plan: Plan, setup: Setup, ghost start: FileSystem, ghost planned: FileSystem, ghost alone: bool)
    returns (result: Outcome)
    requires OnTrack(h, start, planned, alone, plan.roots, setup) && PlannedOn(plan, planned, setup)
    modifies h`fs, h`nextIno, h`nextUuid, h`faults, h`others, h`residue
    ensures OnTrack(h, start, planned, alone, plan.roots, setup) && Kept(old(h.fs), h.fs)
    ensures plan.environment.target.Some? ==> result.Success? && h.fs == old(h.fs)
    ensures result.Success? && plan.environment.target.None? ==> EnvSlot(plan.roots, setup.own).target in h.fs
    ensures (old(h.faults) == [] ==> h.faults == []) && (old(h.residue) ==> h.residue)
    ensures old(Healthy(h, alone, plan.roots, setup)) ==> result.Success? && Healthy(h, alone, plan.roots, setup)
  {
    if plan.environment.target.Some? {
      return Success(());
    }
    var r, s := plan.roots, EnvSlot(plan.roots, setup.own);
    ghost var before := h.fs;
    EnvironmentPlanned(plan, planned, setup);
    hide Plannable, Progress, Framed, Pending, Numbered, NamesBelow, RootsReady, BuildPlan, DirectoryCanBe;
    if alone && !h.residue && RootsReady(before, r, setup) {
      RootCanBe(planned, before, r, setup, (r.env, setup.own.envUid));
    }
    result := EnsurePlanDirectory(h, r.env, setup.own.envUid, FHS_DIRECTORY_MODE, r, setup, start, planned, alone);
    if result.Failure? {
      return;
    }
    assert Parent(s.target) == r.env;
    ghost var made := h.fs;
    result := PublishCopy(h, s, plan.environment, r, setup, start, planned, alone);
    KeptTransitive(before, made, h.fs);
    if old(Healthy(h, alone, plan.roots, setup)) {
      StageStaysHealthy(h, planned, before, alone, r, setup);
    }
  }

  /** _ensure_state_root */
  method EnsureStateRoot(h: Host, plan: Plan, setup: Setup, ghost start: FileSystem, ghost planned: FileSystem, ghost alone: bool)
    returns (result: Outcome)
    requires OnTrack(h, start, planned, alone, plan.roots, setup) && PlannedOn(plan, planned, setup)
    modifies h`fs, h`nextIno, h`nextUuid, h`faults, h`others, h`residue
    ensures OnTrack(h, start, planned, alone, plan.roots, setup) && Kept(old(h.fs), h.fs)
    ensures !StateWrites(plan) ==> result.Success? && h.fs == old(h.fs)
    ensures result.Success? && StateWrites(plan) ==> StateRootThere(h.fs, plan.roots)
    ensures (old(h.faults) == [] ==> h.faults == []) && (old(h.residue) ==> h.residue)
    ensures old(Healthy(h, alone, plan.roots, setup)) ==> result.Success? && Healthy(h, alone, plan.roots, setup)
  {
    if !StateWrites(plan) {
      return Success(());
    }
    var r := plan.roots;
    ghost var before := h.fs;
    EnvironmentPlanned(plan, planned, setup);
    hide Plannable, Progress, Framed, Pending, Numbered, NamesBelow, RootsReady, BuildPlan, DirectoryCanBe;
    if alone && !h.residue && RootsReady(before, r, setup) {
      RootCanBe(planned, before, r, setup, (r.state, setup.own.serviceUid));
    }
    result := EnsurePlanDirectory(h, r.state, setup.own.serviceUid, FHS_DIRECTORY_MODE, r, setup, start, planned, alone);
    if old(Healthy(h, alone, plan.roots, setup)) {
      StageStaysHealthy(h, planned, before, alone, r, setup);
    }
  }

  lemma TrackProgress(h: Host, start: FileSystem, planned: FileSystem, alone: bool, r: Roots, setup: Setup)
    requires OnTrack(h, start, planned, alone, r, setup)
    ensures alone && !h.residue ==> Progress(planned, h.fs, r, setup)
  {
  }

  lemma ConfigSlotPlace(r: Roots, own: Ownership, name: string)
    ensures ConfigSlot(r, own, name).target != [] && Parent(ConfigSlot(r, own, name).target) == ConfigDir(r)
    ensures !ConfigSlot(r, own, name).database
  {
  }

  lemma StateSlotPlace(r: Roots, own: Ownership, name: string, database: bool)
    ensures StateSlot(r, own, name, database).target != [] && Parent(StateSlot(r, own, name, database).target) == r.state
    ensures StateSlot(r, own, name, database).database == database && StateSlot(r, own, name, database).name == name
  {
  }

  /** The loop of _apply_configs over its pending artifacts. */
  method CopyConfigs(h: Host, plan: Plan, setup: Setup, ghost start: FileSystem, ghost planned: FileSystem, ghost alone: bool)
    returns (result: Outcome)
    requires OnTrack(h, start, planned, alone, plan.roots, setup) && PlannedOn(plan, planned, setup)
    requires ConfigDir(plan.roots) in h.fs && h.fs[ConfigDir(plan.roots)].Dir?
    modifies h`fs, h`nextIno, h`nextUuid, h`faults, h`others, h`residue
    ensures OnTrack(h, start, planned, alone, plan.roots, setup) && Kept(old(h.fs), h.fs)
    ensures result.Success? ==> |plan.configs| == |CONFIG_FILENAMES| && forall i :: 0 <= i < |plan.configs| && Ready(plan.configs[i]) ==>
              ConfigSlot(plan.roots, setup.own, CONFIG_FILENAMES[i]).target in h.fs
    ensures (old(h.faults) == [] ==> h.faults == []) && (old(h.residue) ==> h.residue)
    ensures alone && old(h.faults) == [] && !old(h.residue) ==> result.Success? && !h.residue
  {
    hide Plannable, Pending, PlannedOn, Kept, OnTrack, Ready, ConfigSlot, ConfigDir;
    var r := plan.roots;
    ghost var before := h.fs;
    ConfigsPlanned(plan, planned, setup);
    KeptSame(before);
    var i := 0;
    while i < |plan.configs|
      invariant i <= |plan.configs| && OnTrack(h, start, planned, alone, r, setup) && Kept(before, h.fs)
      invariant ConfigDir(r) in h.fs && h.fs[ConfigDir(r)].Dir?
      invariant (old(h.faults) == [] ==> h.faults == []) && (old(h.residue) ==> h.residue)
      invariant alone && old(h.faults) == [] ==> h.residue == old(h.residue)
      invariant forall k :: 0 <= k < i && Ready(plan.configs[k]) ==> ConfigSlot(r, setup.own, CONFIG_FILENAMES[k]).target in h.fs
    {
      if Ready(plan.configs[i]) {
        var s := ConfigSlot(r, setup.own, CONFIG_FILENAMES[i]);
        ConfigSlotPlace(r, setup.own, CONFIG_FILENAMES[i]);
        ghost var now := h.fs;
        result := PublishCopy(h, s, plan.configs[i], r, setup, start, planned, alone);
        KeptTransitive(before, now, h.fs);
        KeptAt(now, h.fs, ConfigDir(r));
        KeptTargets(now, h.fs);
        if result.Failure? {
          return;
        }
      }
      i := i + 1;
    }
    result := Success(());
  }

  /** _apply_configs */
  method ApplyConfigs(h: Host, plan: Plan, setup: Setup, ghost start: FileSystem, ghost planned: FileSystem, ghost alone: bool)
    returns (result: Outcome)
    requires OnTrack(h, start, planned, alone, plan.roots, setup) && PlannedOn(plan, planned, setup)
    requires StateWrites(plan) ==> StateRootThere(h.fs, plan.roots)
    modifies h`fs, h`nextIno, h`nextUuid, h`faults, h`others, h`residue
    ensures OnTrack(h, start, planned, alone, plan.roots, setup) && Kept(old(h.fs), h.fs)
    ensures (forall i :: 0 <= i < |plan.configs| ==> !Ready(plan.configs[i])) ==> result.Success? && h.fs == old(h.fs)
    ensures result.Success? ==> |plan.configs| == |CONFIG_FILENAMES| && forall i :: 0 <= i < |plan.configs| && Ready(plan.configs[i]) ==>
              ConfigSlot(plan.roots, setup.own, CONFIG_FILENAMES[i]).target in h.fs
    ensures (old(h.faults) == [] ==> h.faults == []) && (old(h.residue) ==> h.residue)
    ensures old(Healthy(h, alone, plan.roots, setup)) ==> result.Success? && Healthy(h, alone, plan.roots, setup)
  {
    var r := plan.roots;
    ghost var before := h.fs;
    ConfigsPlanned(plan, planned, setup);
    KeptSame(before);
    if forall i :: 0 <= i < |plan.configs| ==> !Ready(plan.configs[i]) {
      return Success(());
    }
    hide Plannable, Progress, Framed, Pending, Numbered, NamesBelow, RootsReady, BuildPlan, DirectoryCanBe, PlannedOn, Kept;
    if alone && !h.residue {
      ConfigDirCanBe(planned, before, r, setup);
    }
    result := EnsurePlanDirectory(h, ConfigDir(r), setup.own.serviceUid, RUNTIME_DIRECTORY_MODE, r, setup, start, planned, alone);
    if result.Failure? {
      return;
    }
    ghost var made := h.fs;
    result := CopyConfigs(h, plan, setup, start, planned, alone);
    KeptTransitive(before, made, h.fs);
    if old(Healthy(h, alone, r, setup)) {
      StageStaysHealthy(h, planned, before, alone, r, setup);
    }
  }

  lemma KeptTargets(a: FileSystem, b: FileSystem)
    requires Kept(a, b)
    ensures forall p :: p in a ==> p in b
  {
  }

  /** _apply_databases */
  method ApplyDatabases(h: Host, plan: Plan, setup: Setup, ghost start: FileSystem, ghost planned: FileSystem, ghost alone: bool)
    returns (result: Outcome)
    requires OnTrack(h, start, planned, alone, plan.roots, setup) && PlannedOn(plan, planned, setup)
    requires StateWrites(plan) ==> StateRootThere(h.fs, plan.roots)
    modifies h`fs, h`nextIno, h`nextUuid, h`faults, h`others, h`residue
    ensures OnTrack(h, start, planned, alone, plan.roots, setup) && Kept(old(h.fs), h.fs)
    ensures (forall i :: 0 <= i < |plan.databases| ==> !Ready(plan.databases[i])) ==> result.Success? && h.fs == old(h.fs)
    ensures result.Success? ==> |plan.databases| == |KNOWN_DB_FILENAMES| && forall i :: 0 <= i < |plan.databases| && Ready(plan.databases[i]) ==>
              StateSlot(plan.roots, setup.own, KNOWN_DB_FILENAMES[i], true).target in h.fs
    ensures (old(h.faults) == [] ==> h.faults == []) && (old(h.residue) ==> h.residue)
    ensures old(Healthy(h, alone, plan.roots, setup)) && BackupsWork(planned, plan.roots, setup) ==>
              result.Success? && Healthy(h, alone, plan.roots, setup)
  {
    hide Plannable, Pending, RootsReady, PlannedOn, Kept, SnapshotsAt, SlotContent, StateSlot, OnTrack;
    var r := plan.roots;
    ghost var before, calm := h.fs, Healthy(h, alone, r, setup);
    DatabasesPlanned(plan, planned, setup);
    KeptSame(before);
    TrackProgress(h, start, planned, alone, r, setup);
    var i := 0;
    while i < |plan.databases|
      invariant i <= |plan.databases| && OnTrack(h, start, planned, alone, r, setup) && Kept(before, h.fs)
      invariant StateWrites(plan) ==> StateRootThere(h.fs, r)
      invariant (old(h.faults) == [] ==> h.faults == []) && (old(h.residue) ==> h.residue)
      invariant alone && old(h.faults) == [] ==> h.residue == old(h.residue)
      invariant (forall k :: 0 <= k < |plan.databases| ==> !Ready(plan.databases[k])) ==> h.fs == before
      invariant forall k :: 0 <= k < i && Ready(plan.databases[k]) ==> StateSlot(r, setup.own, KNOWN_DB_FILENAMES[k], true).target in h.fs
    {
      if Ready(plan.databases[i]) {
        assert StateWrites(plan);
        var s := StateSlot(r, setup.own, KNOWN_DB_FILENAMES[i], true);
        StateSlotPlace(r, setup.own, KNOWN_DB_FILENAMES[i], true);
        ghost var now := h.fs;
        if BackupsWork(planned, r, setup) {
          BackupWorks(planned, r, setup, s, plan.databases[i]);
        }
        result := PublishBackup(h, s, plan.databases[i], plan.sidecars[i], r, setup, start, planned, alone);
        KeptTransitive(before, now, h.fs);
        KeptAt(now, h.fs, r.state);
        KeptTargets(now, h.fs);
        if result.Failure? {
          return;
        }
      }
      i := i + 1;
    }
    result := Success(());
    TrackProgress(h, start, planned, alone, r, setup);
    if calm {
      StageStaysHealthy(h, planned, before, alone, r, setup);
    }
  }

  /** SQLite accepts every database the plan has to back up. */
  ghost predicate BackupsWork(planned: FileSystem, r: Roots, setup: Setup) {
    forall s :: s in Slots(r, setup.own) && s.database && s.source in planned && s.target !in planned ==>
      SlotContent(planned, s, r, setup).Some?
  }

  lemma BackupWorks(planned: FileSystem, r: Roots, setup: Setup, s: Slot, a: Artifact)
    requires BackupsWork(planned, r, setup) && Pending(planned, s, a, r, setup) && s.database
    ensures SlotContent(planned, s, r, setup).Some?
  {
    hide SlotContent, Slots;
  }

  /** _apply_dead_letter */
  method ApplyDeadLetter(h: Host, plan: Plan, setup: Setup, ghost start: FileSystem, ghost planned: FileSystem, ghost alone: bool)
    returns (result: Outcome)
    requires OnTrack(h, start, planned, alone, plan.roots, setup) && PlannedOn(plan, planned, setup)
    requires StateWrites(plan) ==> StateRootThere(h.fs, plan.roots)
    modifies h`fs, h`nextIno, h`nextUuid, h`faults, h`others, h`residue
    ensures OnTrack(h, start, planned, alone, plan.roots, setup) && Kept(old(h.fs), h.fs)
    ensures !Ready(plan.deadLetter) ==> result.Success? && h.fs == old(h.fs)
    ensures result.Success? && Ready(plan.deadLetter) ==> DeadLetterSlot(plan.roots, setup.own).target in h.fs
    ensures (old(h.faults) == [] ==> h.faults == []) && (old(h.residue) ==> h.residue)
    ensures old(Healthy(h, alone, plan.roots, setup)) ==> result.Success? && Healthy(h, alone, plan.roots, setup)
  {
    if !Ready(plan.deadLetter) {
      return Success(());
    }
    var r, s := plan.roots, DeadLetterSlot(plan.roots, setup.own);
    ghost var before := h.fs;
    DeadLetterPlanned(plan, planned, setup);
    hide Plannable, Progress, Framed, Pending, Numbered, NamesBelow, RootsReady, BuildPlan;
    assert Parent(s.target) == r.state;
    result := PublishCopy(h, s, plan.deadLetter, r, setup, start, planned, alone);
    if old(Healthy(h, alone, plan.roots, setup)) {
      StageStaysHealthy(h, planned, before, alone, r, setup);
    }
  }

  // ----- The run -----

  lemma ReadyAfterRepairs(plan: Plan, planned: FileSystem, fs: FileSystem, setup: Setup)
    requires PlannedOn(plan, planned, setup) && Progress(planned, fs, plan.roots, setup)
    requires forall x :: x in plan.repairs ==> Repaired(fs, x, setup)
    ensures RootsReady(fs, plan.roots, setup)
  {
    var r, own := plan.roots, setup.own;
    RepairsPlanned(plan, planned, setup);
    PlanParts(planned, r, setup, plan);
    hide BuildPlan, Slots, ValidateStateNames, RootsSafe;
    forall x | x in FhsRoots(r, own) && x.0 in fs
      ensures fs[x.0] == Dir(x.1, own.serviceGid, FHS_DIRECTORY_MODE)
    {
      if x.0 in planned {
        assert NeedsNormalization(planned, x.0, x.1, own.serviceGid, FHS_DIRECTORY_MODE).Success?;
      } else {
        NewRootIs(planned, fs, r, setup, x);
      }
    }
  }

  lemma NewRootIs(planned: FileSystem, fs: FileSystem, r: Roots, setup: Setup, x: (Path, int))
    requires RootsDisjoint(r) && Progress(planned, fs, r, setup) && x in FhsRoots(r, setup.own) && x.0 in fs && x.0 !in planned
    ensures fs[x.0] == Dir(x.1, setup.own.serviceGid, FHS_DIRECTORY_MODE)
  {
    RootsApart(r);
    OutsideSource(planned, x.0, fs[x.0], r, setup);
    if AddsSlot(planned, x.0, fs[x.0], r, setup) {
      var s :| s in Slots(r, setup.own) && x.0 == s.target;
      SlotPlaces(r, setup.own, s);
    }
  }

  ghost predicate StatePublished(fs: FileSystem, plan: Plan, setup: Setup) {
    var own := setup.own;
    && |plan.configs| == |CONFIG_FILENAMES| && |plan.databases| == |KNOWN_DB_FILENAMES|
    && (forall i :: 0 <= i < |plan.configs| && Ready(plan.configs[i]) ==> ConfigSlot(plan.roots, own, CONFIG_FILENAMES[i]).target in fs)
    && (forall i :: 0 <= i < |plan.databases| && Ready(plan.databases[i]) ==> StateSlot(plan.roots, own, KNOWN_DB_FILENAMES[i], true).target in fs)
    && (Ready(plan.deadLetter) ==> DeadLetterSlot(plan.roots, own).target in fs)
  }

  /** Every ready artifact has been published. */
  ghost predicate AllPublished(fs: FileSystem, plan: Plan, setup: Setup) {
    && (plan.environment.target.None? ==> EnvSlot(plan.roots, setup.own).target in fs)
    && StatePublished(fs, plan, setup)
  }

  lemma PublishedSlot(planned: FileSystem, fs: FileSystem, r: Roots, setup: Setup, s: Slot, a: Artifact)
    requires Progress(planned, fs, r, setup) && PlanSlot(planned, s, setup.own.serviceGid) == Success(a)
    requires Ready(a) ==> s.target in fs
    ensures s.source in planned ==> s.target in fs
  {
    hide Progress;
    if s.target in planned {
      KeptTarget(planned, fs, r, setup, s.target);
    }
  }

  lemma EnvironmentPublished(planned: FileSystem, fs: FileSystem, r: Roots, setup: Setup, s: Slot, a: Artifact)
    requires Progress(planned, fs, r, setup) && PlanSlot(planned, s, setup.own.serviceGid) == Success(a)
    requires a.target.None? ==> s.target in fs
    ensures s.source in planned ==> s.target in fs
  {
    hide Progress;
    PublishedSlot(planned, fs, r, setup, s, a);
  }

  lemma RunIsComplete(plan: Plan, planned: FileSystem, fs: FileSystem, setup: Setup)
    requires PlannedOn(plan, planned, setup) && Progress(planned, fs, plan.roots, setup)
    requires AllPublished(fs, plan, setup) && RootsReady(fs, plan.roots, setup)
    ensures Complete(planned, fs, plan.roots, setup)
  {
    var r, own := plan.roots, setup.own;
    hide BuildPlan, Progress, Slots, AllPublished, FhsRoots;
    forall s | s in Slots(r, own) && s.source in planned ensures s.target in fs {
      SlotIsPublished(plan, planned, fs, setup, s);
    }
    forall x | x in FhsRoots(r, own) && x.0 in planned ensures x.0 in fs {
      KeptTarget(planned, fs, r, setup, x.0);
    }
  }

  lemma SlotIsPublished(plan: Plan, planned: FileSystem, fs: FileSystem, setup: Setup, s: Slot)
    requires PlannedOn(plan, planned, setup) && Progress(planned, fs, plan.roots, setup) && AllPublished(fs, plan, setup)
    requires s in Slots(plan.roots, setup.own) && s.source in planned
    ensures s.target in fs
  {
    hide BuildPlan, Progress, PlanSlot, Slots, EnvSlot, ConfigSlot, StateSlot, DeadLetterSlot;
    var r, own := plan.roots, setup.own;
    PlanParts(planned, r, setup, plan);
    SlotKinds(r, own, s);
    if s == EnvSlot(r, own) {
      EnvironmentPublished(planned, fs, r, setup, s, plan.environment);
    } else if IsConfigSlot(s, r, own) {
      var i :| 0 <= i < |CONFIG_FILENAMES| && CONFIG_FILENAMES[i] == s.name;
      assert ConfigSlots(r, own)[i] == s;
      PublishedSlot(planned, fs, r, setup, s, plan.configs[i]);
    } else if IsDatabaseSlot(s, r, own) {
      var i :| 0 <= i < |KNOWN_DB_FILENAMES| && KNOWN_DB_FILENAMES[i] == s.name;
      assert DatabaseSlots(r, own)[i] == s;
      PublishedSlot(planned, fs, r, setup, s, plan.databases[i]);
    } else {
      PublishedSlot(planned, fs, r, setup, s, plan.deadLetter);
    }
  }

  lemma StillPublished(a: FileSystem, b: FileSystem, r: Roots)
    requires Kept(a, b)
    ensures forall p :: p in a ==> p in b
    ensures StateRootThere(a, r) ==> StateRootThere(b, r)
  {
  }

  lemma NothingPending(plan: Plan)
    requires !RequiresMigration(plan)
    ensures plan.repairs == [] && !StateWrites(plan) && !Ready(plan.environment)
  {
    var all := Artifacts(plan);
    assert all[0] == plan.environment && all[|all| - 1] == plan.deadLetter;
    forall i | 0 <= i < |plan.configs| ensures !Ready(plan.configs[i]) {
      assert all[i + 1] == plan.configs[i];
    }
    forall i | 0 <= i < |plan.databases| ensures !Ready(plan.databases[i]) {
      assert all[i + 1 + |plan.configs|] == plan.databases[i];
    }
  }

  /** The stages that write below the state root. */
  method ApplyState(h: Host, plan: Plan, setup: Setup, ghost start: FileSystem, ghost planned: FileSystem, ghost alone: bool)
    returns (r: Outcome)
    requires OnTrack(h, start, planned, alone, plan.roots, setup) && PlannedOn(plan, planned, setup)
    modifies h`fs, h`nextIno, h`nextUuid, h`faults, h`others, h`residue
    ensures OnTrack(h, start, planned, alone, plan.roots, setup) && Kept(old(h.fs), h.fs)
    ensures !StateWrites(plan) ==> r.Success? && h.fs == old(h.fs)
    ensures r.Success? ==> StatePublished(h.fs, plan, setup)
    ensures (old(h.faults) == [] ==> h.faults == []) && (old(h.residue) ==> h.residue)
    ensures old(Healthy(h, alone, plan.roots, setup)) && BackupsWork(planned, plan.roots, setup) ==>
              r.Success? && Healthy(h, alone, plan.roots, setup)
  {
    hide OnTrack, PlannedOn, Kept, Healthy, BackupsWork, ConfigSlot, StateSlot, DeadLetterSlot;
    ghost var a := h.fs;
    r := EnsureStateRoot(h, plan, setup, start, planned, alone);
    if r.Failure? {
      return;
    }
    ghost var c := h.fs;
    r := ApplyConfigs(h, plan, setup, start, planned, alone);
    KeptTransitive(a, c, h.fs);
    if r.Failure? {
      return;
    }
    StillPublished(c, h.fs, plan.roots);
    ghost var d := h.fs;
    r := ApplyDatabases(h, plan, setup, start, planned, alone);
    KeptTransitive(a, d, h.fs);
    if r.Failure? {
      return;
    }
    StillPublished(d, h.fs, plan.roots);
    ghost var e := h.fs;
    r := ApplyDeadLetter(h, plan, setup, start, planned, alone);
    KeptTransitive(a, e, h.fs);
    StillPublished(e, h.fs, plan.roots);
  }

  /** apply_plan from its second stage on, but for the cache. */
  method ApplyArtifacts(h: Host, plan: Plan, setup: Setup, ghost start: FileSystem, ghost planned: FileSystem, ghost alone: bool)
    returns (r: Outcome)
    requires OnTrack(h, start, planned, alone, plan.roots, setup) && PlannedOn(plan, planned, setup)
    modifies h`fs, h`nextIno, h`nextUuid, h`faults, h`others, h`residue
    ensures OnTrack(h, start, planned, alone, plan.roots, setup) && Kept(old(h.fs), h.fs)
    ensures plan.environment.target.Some? && !StateWrites(plan) ==> r.Success? && h.fs == old(h.fs)
    ensures r.Success? ==> AllPublished(h.fs, plan, setup)
    ensures (old(h.faults) == [] ==> h.faults == []) && (old(h.residue) ==> h.residue)
    ensures old(Healthy(h, alone, plan.roots, setup)) && BackupsWork(planned, plan.roots, setup) ==>
              r.Success? && Healthy(h, alone, plan.roots, setup)
  {
    hide OnTrack, PlannedOn, Kept, Healthy, BackupsWork, EnvSlot, StatePublished, StateWrites;
    ghost var a := h.fs;
    r := ApplyEnvironment(h, plan, setup, start, planned, alone);
    if r.Failure? {
      return;
    }
    ghost var b := h.fs;
    r := ApplyState(h, plan, setup, start, planned, alone);
    KeptTransitive(a, b, h.fs);
    StillPublished(b, h.fs, plan.roots);
  }

  /** The stages of apply_plan that migrate files. Whatever fails and whoever
      else is active, no entry that was there changes except for the mode of the
      three roots, and nothing existing is replaced. A plan that asks for nothing
      changes nothing. Alone, a run that leaves no residue is a part of what was
      planned; one that also succeeds is complete; and one in which nothing
      fails succeeds. */
  method ApplyFiles(h: Host, plan: Plan, setup: Setup, ghost planned: FileSystem) returns (r: Outcome)
    requires h.Valid() && RootsNamed(plan.roots, h.nextUuid) && PlannedOn(plan, planned, setup)
    modifies h`fs, h`nextIno, h`nextUuid, h`faults, h`others, h`residue
    ensures h.Valid() && RootsNamed(plan.roots, h.nextUuid) && Framed(old(h.fs), h.fs, plan.roots, setup.own)
    ensures (old(h.faults) == [] ==> h.faults == []) && (old(h.residue) ==> h.residue)
    ensures old(h.others) == [] && old(h.fs) == planned ==> h.others == []
    ensures !RequiresMigration(plan) ==> r.Success? && h.fs == old(h.fs)
    ensures old(h.others) == [] && old(h.fs) == planned && !h.residue ==> Progress(planned, h.fs, plan.roots, setup)
    ensures old(h.others) == [] && old(h.fs) == planned && !h.residue && r.Success? ==> Complete(planned, h.fs, plan.roots, setup)
    ensures old(h.Quiet() && h.fs == planned && !h.residue) && BackupsWork(planned, plan.roots, setup) ==>
              r.Success? && !h.residue
  {
    ghost var start := h.fs;
    ghost var alone := h.others == [] && h.fs == planned;
    ProgressStart(start, plan.roots, setup);
    if !RequiresMigration(plan) {
      NothingPending(plan);
      EnvironmentReady(plan, planned, setup);
    }
    r := NormalizeFhsDirectories(h, plan, setup, start, planned, alone);
    if r.Failure? {
      return;
    }
    ghost var repaired := h.fs;
    if alone && !h.residue {
      ReadyAfterRepairs(plan, planned, repaired, setup);
    }
    r := ApplyArtifacts(h, plan, setup, start, planned, alone);
    if alone && !h.residue && r.Success? {
      RepairedStill(plan, repaired, h.fs, setup);
      ReadyAfterRepairs(plan, planned, h.fs, setup);
      RunIsComplete(plan, planned, h.fs, setup);
    }
  }

  lemma RepairedStill(plan: Plan, a: FileSystem, b: FileSystem, setup: Setup)
    requires Kept(a, b) && forall x :: x in plan.repairs ==> Repaired(a, x, setup)
    ensures forall x :: x in plan.repairs ==> Repaired(b, x, setup)
  {
  }

  lemma FramedSame(fs: FileSystem, r: Roots, own: Ownership)
    ensures Framed(fs, fs, r, own)
  {
  }
}
