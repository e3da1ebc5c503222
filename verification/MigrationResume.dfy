/** Planning again during and after a migration: convergence and resumption. */
module MigrationResume {
  import opened Wrappers
  import opened MigrationModel
  import opened MigrationPlan
  import opened MigrationHost
  import opened MigrationSqlite
  import opened MigrationProgress

  // ----- When planning succeeds -----

  predicate EnvironmentFine(fs: FileSystem, r: Roots, setup: Setup) {
    var s := EnvSlot(r, setup.own);
    if s.target in fs then fs[s.target].File? && setup.envAccepted(fs[s.target].content)
    else s.source in fs && fs[s.source].File? && setup.envAccepted(fs[s.source].content)
  }

  predicate ConfigDirFine(fs: FileSystem, r: Roots, own: Ownership) {
    ConfigDir(r) in fs ==> fs[ConfigDir(r)] == Dir(own.serviceUid, own.serviceGid, RUNTIME_DIRECTORY_MODE)
  }

  predicate MandatoryFine(fs: FileSystem, r: Roots, own: Ownership) {
    forall n | n in MANDATORY_CONFIG_FILENAMES ::
      ConfigSlot(r, own, n).source in fs || ConfigSlot(r, own, n).target in fs
  }

  ghost predicate RootsFine(fs: FileSystem, r: Roots, own: Ownership) {
    forall x :: x in FhsRoots(r, own) && x.0 in fs ==>
      NeedsNormalization(fs, x.0, x.1, own.serviceGid, FHS_DIRECTORY_MODE).Success?
  }

  ghost predicate SidecarsFine(fs: FileSystem, r: Roots) {
    forall d :: d in KNOWN_DB_FILENAMES ==> SnapshotsAt(fs, SidecarPaths(SourceDb(r), d)).Success?
  }

  ghost predicate SlotsFine(fs: FileSystem, r: Roots, own: Ownership) {
    forall s :: s in Slots(r, own) ==> PlanSlot(fs, s, own.serviceGid).Success?
  }

  /** The conditions of build_plan, apart from the order it checks them in. */
  ghost predicate Plannable(fs: FileSystem, r: Roots, setup: Setup) {
    && RootsSafe(fs, r) && RootsDisjoint(r)
    && RootsFine(fs, r, setup.own)
    && SlotsFine(fs, r, setup.own)
    && EnvironmentFine(fs, r, setup)
    && ConfigDirFine(fs, r, setup.own)
    && MandatoryFine(fs, r, setup.own)
    && ValidateStateNames(fs, r).Success?
    && SidecarsFine(fs, r)
    && TargetSidecarsValid(fs, r, setup.own)
  }

  lemma RepairsFine(fs: FileSystem, r: Roots, own: Ownership)
    ensures PlanRepairs(fs, FhsRoots(r, own), own.serviceGid).Success? <==> RootsFine(fs, r, own)
  {
    var roots := FhsRoots(r, own);
    if RootsFine(fs, r, own) {
      forall i | 0 <= i < |roots| && roots[i].0 in fs
        ensures NeedsNormalization(fs, roots[i].0, roots[i].1, own.serviceGid, FHS_DIRECTORY_MODE).Success?
      {
        assert roots[i] in roots;
      }
    }
  }

  lemma SlotsSplit(fs: FileSystem, r: Roots, own: Ownership)
    ensures SlotsFine(fs, r, own) <==>
      && PlanSlot(fs, EnvSlot(r, own), own.serviceGid).Success?
      && PlanSlots(fs, ConfigSlots(r, own), own.serviceGid).Success?
      && PlanSlots(fs, DatabaseSlots(r, own), own.serviceGid).Success?
      && PlanSlot(fs, DeadLetterSlot(r, own), own.serviceGid).Success?
  {
    hide PlanSlot, EnvSlot, DeadLetterSlot, Slots, ConfigSlots, DatabaseSlots;
    var configs, databases := ConfigSlots(r, own), DatabaseSlots(r, own);
    SlotsMembers(r, own);
    assert forall i :: 0 <= i < |configs| ==> configs[i] in configs;
    assert forall i :: 0 <= i < |databases| ==> databases[i] in databases;
  }

  lemma SlotsMembers(r: Roots, own: Ownership)
    ensures forall s :: s in Slots(r, own) <==>
      s == EnvSlot(r, own) || s in ConfigSlots(r, own) || s in DatabaseSlots(r, own) || s == DeadLetterSlot(r, own)
  {
    hide EnvSlot, DeadLetterSlot, ConfigSlots, DatabaseSlots;
  }

  lemma SidecarsSplit(fs: FileSystem, r: Roots)
    ensures SidecarSnapshots(fs, r, KNOWN_DB_FILENAMES).Success? <==> SidecarsFine(fs, r)
  {
    hide SnapshotsAt;
    forall i | 0 <= i < |KNOWN_DB_FILENAMES| ensures KNOWN_DB_FILENAMES[i] in KNOWN_DB_FILENAMES {
    }
  }

  lemma ConfigsFine(fs: FileSystem, r: Roots, own: Ownership, configs: seq<Artifact>)
    requires PlanSlots(fs, ConfigSlots(r, own), own.serviceGid) == Success(configs)
    ensures ConfigsPresent(configs) <==> MandatoryFine(fs, r, own)
  {
    forall i | 0 <= i < |configs|
      ensures configs[i].name == CONFIG_FILENAMES[i]
      ensures configs[i].source.Some? <==> ConfigSlot(r, own, CONFIG_FILENAMES[i]).source in fs
      ensures configs[i].target.Some? <==> ConfigSlot(r, own, CONFIG_FILENAMES[i]).target in fs
    {
      assert PlanSlot(fs, ConfigSlots(r, own)[i], own.serviceGid) == Success(configs[i]);
    }
    if ConfigsPresent(configs) {
      forall n | n in MANDATORY_CONFIG_FILENAMES
        ensures ConfigSlot(r, own, n).source in fs || ConfigSlot(r, own, n).target in fs
      {
        var i := if n == CONFIG_FILENAMES[0] then 0 else 1;
        assert n == CONFIG_FILENAMES[i] && configs[i] in configs;
      }
    }
    if MandatoryFine(fs, r, own) {
      forall a | a in configs && a.name in MANDATORY_CONFIG_FILENAMES
        ensures a.source.Some? || a.target.Some?
      {
        var i :| 0 <= i < |configs| && configs[i] == a;
      }
    }
  }

  lemma EnvironmentSplit(fs: FileSystem, r: Roots, setup: Setup)
    ensures PlanEnvironment(fs, r, setup).Success? <==>
      EnvironmentFine(fs, r, setup) && PlanSlot(fs, EnvSlot(r, setup.own), setup.own.serviceGid).Success?
  {
  }

  lemma ConfigsSplit(fs: FileSystem, r: Roots, own: Ownership)
    ensures PlanConfigs(fs, r, own).Success? <==>
      PlanSlots(fs, ConfigSlots(r, own), own.serviceGid).Success? && ConfigDirFine(fs, r, own) && MandatoryFine(fs, r, own)
  {
    hide MandatoryFine, ConfigsPresent, PlanSlot;
    var configs := PlanSlots(fs, ConfigSlots(r, own), own.serviceGid);
    if configs.Success? {
      ConfigsFine(fs, r, own, configs.value);
    }
  }

  /** build_plan succeeds exactly when all its conditions hold. */
  lemma BuildPlanSucceeds(fs: FileSystem, r: Roots, setup: Setup)
    ensures BuildPlan(fs, r, setup).Success? <==> Plannable(fs, r, setup)
  {
    hide RootsSafe, RootsDisjoint, ValidateStateNames, TargetSidecarsValid, SidecarSnapshots, PlanRepairs, PlanEnvironment, PlanConfigs,
         PlanSlot, PlanSlots, EnvironmentFine, ConfigDirFine, MandatoryFine, SlotsFine, RootsFine, SidecarsFine;
    RepairsFine(fs, r, setup.own);
    SlotsSplit(fs, r, setup.own);
    SidecarsSplit(fs, r);
    EnvironmentSplit(fs, r, setup);
    ConfigsSplit(fs, r, setup.own);
  }

  lemma PlanParts(fs: FileSystem, r: Roots, setup: Setup, plan: Plan)
    requires BuildPlan(fs, r, setup) == Success(plan)
    ensures var own := setup.own;
      && plan.roots == r
      && PlanRepairs(fs, FhsRoots(r, own), own.serviceGid) == Success(plan.repairs)
      && PlanSlot(fs, EnvSlot(r, own), own.serviceGid) == Success(plan.environment)
      && PlanSlots(fs, ConfigSlots(r, own), own.serviceGid) == Success(plan.configs)
      && PlanSlots(fs, DatabaseSlots(r, own), own.serviceGid) == Success(plan.databases)
      && SidecarSnapshots(fs, r, KNOWN_DB_FILENAMES) == Success(plan.sidecars)
      && PlanSlot(fs, DeadLetterSlot(r, own), own.serviceGid) == Success(plan.deadLetter)
  {
    hide RootsSafe, RootsDisjoint, ValidateStateNames, TargetSidecarsValid, SidecarSnapshots, PlanRepairs, ConfigsPresent, PlanSlot, PlanSlots;
  }

  /** The plan's artifacts are its slots, one by one. */
  lemma PlanSlotsAll(fs: FileSystem, r: Roots, setup: Setup, plan: Plan)
    requires BuildPlan(fs, r, setup) == Success(plan)
    ensures |Artifacts(plan)| == |Slots(r, setup.own)|
    ensures forall i :: 0 <= i < |Artifacts(plan)| ==>
      PlanSlot(fs, Slots(r, setup.own)[i], setup.own.serviceGid) == Success(Artifacts(plan)[i])
  {
    hide PlanSlot, EnvSlot, ConfigSlot, StateSlot, DeadLetterSlot, BuildPlan;
    PlanParts(fs, r, setup, plan);
    var own := setup.own;
    var configs, databases := ConfigSlots(r, own), DatabaseSlots(r, own);
    forall i | 0 <= i < |Artifacts(plan)|
      ensures PlanSlot(fs, Slots(r, own)[i], own.serviceGid) == Success(Artifacts(plan)[i])
    {
      if i == 0 {
      } else if i < 1 + |configs| {
        assert Slots(r, own)[i] == configs[i - 1] && Artifacts(plan)[i] == plan.configs[i - 1];
      } else if i < 1 + |configs| + |databases| {
        assert Slots(r, own)[i] == databases[i - 1 - |configs|] && Artifacts(plan)[i] == plan.databases[i - 1 - |configs|];
      } else {
        assert Slots(r, own)[i] == DeadLetterSlot(r, own) && Artifacts(plan)[i] == plan.deadLetter;
      }
    }
  }

  // ----- Planning again -----

  /** A slot's target, if there, is a proper file: the one that was there from
      the start, or one with the content the slot publishes. */
  lemma TargetsFine(fs0: FileSystem, fs: FileSystem, r: Roots, setup: Setup, s: Slot)
    requires Plannable(fs0, r, setup) && Progress(fs0, fs, r, setup) && s in Slots(r, setup.own) && s.target in fs
    ensures FileMetadata(fs[s.target], s.uid, setup.own.serviceGid, s.mode)
    ensures s.target in fs0 ==> fs[s.target] == fs0[s.target]
    ensures s.target !in fs0 ==> SlotContent(fs0, s, r, setup) == Some(fs[s.target].content)
  {
    hide RootsSafe, ValidateStateNames, TargetSidecarsValid, SlotContent;
    SlotPlaces(r, setup.own, s);
    if s.target in fs0 {
      assert PlanSlot(fs0, s, setup.own.serviceGid).Success?;
    } else {
      assert MayAdd(fs0, s.target, fs[s.target], r, setup);
      var s' :| s' in Slots(r, setup.own) && s.target == s'.target
        && FileMetadata(fs[s.target], s'.uid, setup.own.serviceGid, s'.mode)
        && SlotContent(fs0, s', r, setup) == Some(fs[s.target].content);
      SlotByTarget(r, setup.own, s, s');
    }
  }

  lemma RootStaysSafe(fs0: FileSystem, fs: FileSystem, r: Roots, setup: Setup, p: Path, allowMissing: bool)
    requires Progress(fs0, fs, r, setup) && RootsDisjoint(r) && SafeDirectory(fs0, p, allowMissing)
    requires p in [r.source, r.env, r.state, r.cache] || r.sourceCache == Some(p)
    ensures SafeDirectory(fs, p, allowMissing)
  {
    forall k | 0 <= k < |p| ensures p[..k] in fs && fs[p[..k]].Dir? {
      assert p[..k] in fs0 && fs0[p[..k]].Dir?;
    }
    if p in fs && p !in fs0 {
      OutsideCaches(fs0, p, fs[p], r, setup);
      OutsideSource(fs0, p, fs[p], r, setup);
      if AddsSlot(fs0, p, fs[p], r, setup) {
        var s :| s in Slots(r, setup.own) && p == s.target;
        SlotPlaces(r, setup.own, s);
      }
    }
  }

  lemma RootsStaySafe(fs0: FileSystem, fs: FileSystem, r: Roots, setup: Setup)
    requires Progress(fs0, fs, r, setup) && RootsDisjoint(r) && RootsSafe(fs0, r)
    ensures RootsSafe(fs, r)
  {
    hide Progress, RootsDisjoint, SafeDirectory;
    RootStaysSafe(fs0, fs, r, setup, r.source, false);
    RootStaysSafe(fs0, fs, r, setup, r.env, true);
    RootStaysSafe(fs0, fs, r, setup, r.state, true);
    RootStaysSafe(fs0, fs, r, setup, r.cache, true);
    if r.sourceCache.Some? {
      RootStaysSafe(fs0, fs, r, setup, r.sourceCache.value, false);
    }
  }

  lemma RootsStayFine(fs0: FileSystem, fs: FileSystem, r: Roots, setup: Setup)
    requires Progress(fs0, fs, r, setup) && RootsDisjoint(r) && RootsFine(fs0, r, setup.own)
    ensures RootsFine(fs, r, setup.own)
  {
    hide Progress, RootsDisjoint, FhsRoots, NeedsNormalization;
    forall x | x in FhsRoots(r, setup.own) && x.0 in fs
      ensures NeedsNormalization(fs, x.0, x.1, setup.own.serviceGid, FHS_DIRECTORY_MODE).Success?
    {
      RootStaysFine(fs0, fs, r, setup, x);
    }
  }

  lemma RootStaysFine(fs0: FileSystem, fs: FileSystem, r: Roots, setup: Setup, x: (Path, int))
    requires Progress(fs0, fs, r, setup) && RootsDisjoint(r) && x in FhsRoots(r, setup.own) && x.0 in fs
    requires x.0 in fs0 ==> NeedsNormalization(fs0, x.0, x.1, setup.own.serviceGid, FHS_DIRECTORY_MODE).Success?
    ensures NeedsNormalization(fs, x.0, x.1, setup.own.serviceGid, FHS_DIRECTORY_MODE).Success?
  {
    hide Slots;
    RootsApart(r);
    assert FHS_DIRECTORY_MODE & GROUP_OTHER_WRITE == 0;
    if x.0 in fs0 {
      if fs[x.0] != fs0[x.0] {
        var y :| y in FhsRoots(r, setup.own) && x.0 == y.0;
        assert y == x;
      }
    } else {
      OutsideSource(fs0, x.0, fs[x.0], r, setup);
      if AddsSlot(fs0, x.0, fs[x.0], r, setup) {
        var s :| s in Slots(r, setup.own) && x.0 == s.target;
        SlotPlaces(r, setup.own, s);
      }
    }
  }

  lemma SlotsStayFine(fs0: FileSystem, fs: FileSystem, r: Roots, setup: Setup)
    requires Plannable(fs0, r, setup) && Progress(fs0, fs, r, setup)
    ensures SlotsFine(fs, r, setup.own)
  {
    hide Progress, Slots, ValidateStateNames, RootsSafe, TargetSidecarsValid;
    forall s | s in Slots(r, setup.own) ensures PlanSlot(fs, s, setup.own.serviceGid).Success? {
      assert PlanSlot(fs0, s, setup.own.serviceGid).Success?;
      SlotContentSame(fs0, fs, r, setup, s);
      if s.target in fs {
        TargetsFine(fs0, fs, r, setup, s);
      }
    }
  }

  lemma EnvironmentStaysFine(fs0: FileSystem, fs: FileSystem, r: Roots, setup: Setup)
    requires Plannable(fs0, r, setup) && Progress(fs0, fs, r, setup)
    ensures EnvironmentFine(fs, r, setup)
  {
    hide ValidateStateNames, RootsSafe, TargetSidecarsValid;
    var s := EnvSlot(r, setup.own);
    SlotKinds(r, setup.own, s);
    SourceSame(fs0, fs, r, setup, s.source);
    if s.target in fs {
      TargetsFine(fs0, fs, r, setup, s);
    }
  }

  lemma ConfigDirStaysFine(fs0: FileSystem, fs: FileSystem, r: Roots, setup: Setup)
    requires RootsDisjoint(r) && Progress(fs0, fs, r, setup) && ConfigDirFine(fs0, r, setup.own)
    ensures ConfigDirFine(fs, r, setup.own)
  {
    var p := ConfigDir(r);
    RootsApart(r);
    assert r.state <= p && p != r.state;
    if p in fs {
      if p in fs0 {
        assert forall x :: x in FhsRoots(r, setup.own) ==> x.0 != p;
      } else {
        assert MayAdd(fs0, p, fs[p], r, setup);
        if AddsSlot(fs0, p, fs[p], r, setup) {
          var s :| s in Slots(r, setup.own) && p == s.target;
          SlotPlaces(r, setup.own, s);
        }
      }
    }
  }

  lemma MandatoryStaysFine(fs0: FileSystem, fs: FileSystem, r: Roots, setup: Setup)
    requires RootsDisjoint(r) && Progress(fs0, fs, r, setup) && MandatoryFine(fs0, r, setup.own)
    ensures MandatoryFine(fs, r, setup.own)
  {
  }

  lemma SidecarsStayFine(fs0: FileSystem, fs: FileSystem, r: Roots, setup: Setup)
    requires RootsDisjoint(r) && Progress(fs0, fs, r, setup) && SidecarsFine(fs0, r)
    ensures SidecarsFine(fs, r)
  {
    hide Slots, Progress;
    forall d | d in KNOWN_DB_FILENAMES ensures SnapshotsAt(fs, SidecarPaths(SourceDb(r), d)).Success? {
      SlotKinds(r, setup.own, StateSlot(r, setup.own, d, true));
      SlotContentSame(fs0, fs, r, setup, StateSlot(r, setup.own, d, true));
    }
  }

  /** Side files have no name that the migration creates in the state root. */
  lemma SidecarNamesApart(name: string)
    requires IsSidecar(name)
    ensures name !in KNOWN_DB_FILENAMES && name != DEAD_LETTER_FILENAME && name != "config"
  {
    var x :| x in SidecarNames() && x.0 == name;
    var d, s :| d in KNOWN_DB_FILENAMES && s in SQLITE_SIDECAR_SUFFIXES && x == (d + s, d);
    hide SidecarNames, IsSidecar;
    SidecarEnd(d, s);
    DatabaseEnds();
  }

  lemma SidecarEnd(d: string, s: string)
    requires d in KNOWN_DB_FILENAMES && s in SQLITE_SIDECAR_SUFFIXES
    ensures 15 <= |d + s| <= 30 && (d + s)[|d + s| - 1] in {'l', 'm'}
  {
    assert 11 <= |d| <= 22 by {
      assert d == "tokens_usage.db" || d == "api_keys.db" || d == "llmgateway_rotation.db";
    }
    assert 4 <= |s| <= 8 && s[|s| - 1] in {'l', 'm'} by {
      assert s == "-wal" || s == "-shm" || s == "-journal";
    }
    assert (d + s)[|d + s| - 1] == s[|s| - 1];
  }

  lemma DatabaseEnds()
    ensures forall k :: k in KNOWN_DB_FILENAMES ==> |k| > 0 && k[|k| - 1] == 'b'
    ensures |DEAD_LETTER_FILENAME| == 33 && |"config"| == 6
  {
  }

  /** What appears directly in the state root while the migration runs. */
  lemma NewStateNames(fs0: FileSystem, fs: FileSystem, r: Roots, setup: Setup, n: Name)
    requires RootsDisjoint(r) && Progress(fs0, fs, r, setup)
    requires r.state + [n] in fs && r.state + [n] !in fs0
    ensures n == Plain("config") || n == Plain(DEAD_LETTER_FILENAME) || (n.Plain? && n.text in KNOWN_DB_FILENAMES)
  {
    var p := r.state + [n];
    RootsApart(r);
    assert MayAdd(fs0, p, fs[p], r, setup);
    assert p[|r.state|] == n;
    if p == ConfigDir(r) {
      assert ConfigDir(r)[|r.state|] == Plain("config");
    } else if AddsSlot(fs0, p, fs[p], r, setup) {
      var s :| s in Slots(r, setup.own) && p == s.target;
      SlotKinds(r, setup.own, s);
      if s == EnvSlot(r, setup.own) {
        PrefixesOverlap(r.env, r.state, p);
      } else if !IsConfigSlot(s, r, setup.own) {
        assert s.target[|r.state|] == Plain(s.name);
      }
    }
  }

  lemma KeptStateNames(fs0: FileSystem, fs: FileSystem, r: Roots, setup: Setup, n: Name)
    requires Progress(fs0, fs, r, setup) && r.state + [n] in fs0
    ensures r.state + [n] in fs
  {
  }

  lemma SourceStateNamesSame(fs0: FileSystem, fs: FileSystem, r: Roots, setup: Setup)
    requires RootsDisjoint(r) && Progress(fs0, fs, r, setup)
    ensures StateNames(fs, SourceDb(r)) == StateNames(fs0, SourceDb(r))
  {
    hide Progress;
    var dir := SourceDb(r);
    SourceSame(fs0, fs, r, setup, dir);
    ChildrenMembers(fs, dir);
    ChildrenMembers(fs0, dir);
    forall n ensures dir + [n] in fs <==> dir + [n] in fs0 {
      assert r.source <= dir + [n] by { assert (dir + [n])[..|r.source|] == r.source; }
      SourceSame(fs0, fs, r, setup, dir + [n]);
    }
    assert Children(fs, dir) == Children(fs0, dir);
  }

  lemma StateRootStays(fs0: FileSystem, fs: FileSystem, r: Roots, setup: Setup)
    requires RootsDisjoint(r) && Progress(fs0, fs, r, setup) && StateNames(fs0, r.state).Success?
    requires WellFormed(fs0)
    ensures StateNames(fs, r.state).Success?
    ensures forall n :: n in StateNames(fs, r.state).value <==> r.state + [n] in fs && r.state in fs
    ensures forall n :: n in StateNames(fs0, r.state).value <==> r.state + [n] in fs0
  {
    ChildrenMembers(fs, r.state);
    ChildrenMembers(fs0, r.state);
    forall n | r.state + [n] in fs0 ensures r.state in fs0 {
      assert Parent(r.state + [n]) == r.state;
    }
    if r.state in fs && r.state !in fs0 {
      OutsideSource(fs0, r.state, fs[r.state], r, setup);
      if AddsSlot(fs0, r.state, fs[r.state], r, setup) {
        var s :| s in Slots(r, setup.own) && r.state == s.target;
        SlotPlaces(r, setup.own, s);
      }
    }
  }

  lemma StateNamesStayFine(fs0: FileSystem, fs: FileSystem, r: Roots, setup: Setup)
    requires RootsDisjoint(r) && Progress(fs0, fs, r, setup) && ValidateStateNames(fs0, r).Success?
    requires WellFormed(fs0)
    ensures ValidateStateNames(fs, r).Success?
  {
    hide Progress, IsSidecar, SidecarNames, IsTemporary;
    SourceStateNamesSame(fs0, fs, r, setup);
    StateRootStays(fs0, fs, r, setup);
    var before, after := StateNames(fs0, r.state).value, StateNames(fs, r.state).value;
    forall x | x in SidecarNames() && Plain(x.0) in after ensures Plain(x.1) in after {
      assert IsSidecar(x.0) by { SidecarIntro(x); }
      SidecarNamesApart(x.0);
      if r.state + [Plain(x.0)] !in fs0 {
        NewStateNames(fs0, fs, r, setup, Plain(x.0));
      }
      assert Plain(x.1) in before;
      KeptStateNames(fs0, fs, r, setup, Plain(x.1));
    }
    forall n | n in after ensures TargetAllowed(n) || IsTemporary(n) {
      if r.state + [n] in fs0 {
        assert n in before;
      } else {
        NewStateNames(fs0, fs, r, setup, n);
      }
    }
  }

  lemma SidecarIntro(x: (string, string))
    requires x in SidecarNames()
    ensures IsSidecar(x.0)
  {
  }

  lemma TargetSidecarsStayValid(fs0: FileSystem, fs: FileSystem, r: Roots, setup: Setup)
    requires RootsDisjoint(r) && Progress(fs0, fs, r, setup) && TargetSidecarsValid(fs0, r, setup.own)
    ensures TargetSidecarsValid(fs, r, setup.own)
  {
    hide SidecarNames, IsSidecar;
    RootsApart(r);
    forall x | x in SidecarNames() && r.state + [Plain(x.0)] in fs
      ensures FileMetadata(fs[r.state + [Plain(x.0)]], setup.own.serviceUid, setup.own.serviceGid, RUNTIME_FILE_MODE)
    {
      var p := r.state + [Plain(x.0)];
      SidecarIntro(x);
      SidecarNamesApart(x.0);
      if p !in fs0 {
        NewStateNames(fs0, fs, r, setup, Plain(x.0));
      }
      assert p in fs0;
      assert forall y :: y in FhsRoots(r, setup.own) ==> y.0 != p;
      assert fs[p] == fs0[p];
    }
  }

  /** Planning again succeeds on every file system that a migration planned on
      fs0 can have reached. */
  lemma Replan(fs0: FileSystem, fs: FileSystem, r: Roots, setup: Setup)
    requires WellFormed(fs0) && BuildPlan(fs0, r, setup).Success? && Progress(fs0, fs, r, setup)
    ensures BuildPlan(fs, r, setup).Success?
  {
    hide BuildPlan, Progress, RootsSafe, RootsDisjoint, RootsFine, SlotsFine, EnvironmentFine, ConfigDirFine, MandatoryFine,
         ValidateStateNames, SidecarsFine, TargetSidecarsValid;
    BuildPlanSucceeds(fs0, r, setup);
    BuildPlanSucceeds(fs, r, setup);
    RootsStaySafe(fs0, fs, r, setup);
    RootsStayFine(fs0, fs, r, setup);
    SlotsStayFine(fs0, fs, r, setup);
    EnvironmentStaysFine(fs0, fs, r, setup);
    ConfigDirStaysFine(fs0, fs, r, setup);
    MandatoryStaysFine(fs0, fs, r, setup);
    StateNamesStayFine(fs0, fs, r, setup);
    SidecarsStayFine(fs0, fs, r, setup);
    TargetSidecarsStayValid(fs0, fs, r, setup);
  }

  // ----- Convergence -----

  /** Everything the plan on fs0 asked for is done. */
  ghost predicate Complete(fs0: FileSystem, fs: FileSystem, r: Roots, setup: Setup) {
    && Progress(fs0, fs, r, setup)
    && (forall s :: s in Slots(r, setup.own) && s.source in fs0 ==> s.target in fs)
    && (forall x :: x in FhsRoots(r, setup.own) && x.0 in fs0 ==> x.0 in fs && fs[x.0].Dir? && fs[x.0].mode == FHS_DIRECTORY_MODE)
  }

  lemma NewRootsHaveMode(fs0: FileSystem, fs: FileSystem, r: Roots, setup: Setup, x: (Path, int))
    requires RootsDisjoint(r) && Progress(fs0, fs, r, setup) && x in FhsRoots(r, setup.own) && x.0 in fs && x.0 !in fs0
    ensures fs[x.0].Dir? && fs[x.0].mode == FHS_DIRECTORY_MODE
  {
    RootsApart(r);
    OutsideSource(fs0, x.0, fs[x.0], r, setup);
    if AddsSlot(fs0, x.0, fs[x.0], r, setup) {
      var s :| s in Slots(r, setup.own) && x.0 == s.target;
      SlotPlaces(r, setup.own, s);
    }
  }

  lemma HasMember<T>(s: seq<T>)
    requires s != []
    ensures exists x :: x in s
  {
    assert s[0] in s;
  }

  lemma NothingReady(fs0: FileSystem, fs: FileSystem, r: Roots, setup: Setup, plan: Plan)
    requires RootsDisjoint(r) && Complete(fs0, fs, r, setup) && BuildPlan(fs, r, setup) == Success(plan)
    ensures forall a :: a in Artifacts(plan) ==> !Ready(a)
  {
    hide BuildPlan, Slots, Progress, RootsDisjoint, Artifacts;
    PlanSlotsAll(fs, r, setup, plan);
    forall a | a in Artifacts(plan) ensures !Ready(a) {
      var i :| 0 <= i < |Artifacts(plan)| && Artifacts(plan)[i] == a;
      var s := Slots(r, setup.own)[i];
      assert PlanSlot(fs, s, setup.own.serviceGid) == Success(a);
      SlotPlaces(r, setup.own, s);
      SourceSame(fs0, fs, r, setup, s.source);
    }
  }

  lemma NothingToRepair(fs0: FileSystem, fs: FileSystem, r: Roots, setup: Setup, repairs: seq<(Path, int)>)
    requires RootsDisjoint(r) && Complete(fs0, fs, r, setup)
    requires PlanRepairs(fs, FhsRoots(r, setup.own), setup.own.serviceGid) == Success(repairs)
    ensures repairs == []
  {
    hide Progress, Slots, RootsDisjoint, FhsRoots;
    forall x ensures x !in repairs {
      if x in FhsRoots(r, setup.own) && x.0 in fs && x.0 !in fs0 {
        NewRootsHaveMode(fs0, fs, r, setup, x);
      }
    }
    if repairs != [] {
      HasMember(repairs);
    }
  }

  /** After a complete migration, planning again succeeds and finds nothing to
      do. */
  lemma CompleteConverges(fs0: FileSystem, fs: FileSystem, r: Roots, setup: Setup)
    requires WellFormed(fs0) && BuildPlan(fs0, r, setup).Success? && Complete(fs0, fs, r, setup)
    ensures BuildPlan(fs, r, setup).Success? && !RequiresMigration(BuildPlan(fs, r, setup).value)
  {
    hide BuildPlan, Plannable;
    Replan(fs0, fs, r, setup);
    var plan := BuildPlan(fs, r, setup).value;
    assert RootsDisjoint(r) by { PlanNeedsDisjoint(fs, r, setup); }
    PlanParts(fs, r, setup, plan);
    NothingReady(fs0, fs, r, setup, plan);
    NothingToRepair(fs0, fs, r, setup, plan.repairs);
  }

  lemma PlanNeedsDisjoint(fs: FileSystem, r: Roots, setup: Setup)
    requires BuildPlan(fs, r, setup).Success?
    ensures RootsDisjoint(r)
  {
  }

  // ----- Resumption -----

  /** What a slot's target holds in the end: an existing target stays, an
      absent one gets what the slot publishes. */
  function FinalContent(fs: FileSystem, s: Slot, r: Roots, setup: Setup): Option<Content> {
    if s.target in fs then (if fs[s.target].File? then Some(fs[s.target].content) else None)
    else SlotContent(fs, s, r, setup)
  }

  /** The outcome is already decided when the migration starts: no part of it
      changes what any target will hold in the end. */
  lemma OutcomeFixed(fs0: FileSystem, fs: FileSystem, r: Roots, setup: Setup, s: Slot)
    requires BuildPlan(fs0, r, setup).Success? && Progress(fs0, fs, r, setup) && s in Slots(r, setup.own)
    ensures FinalContent(fs, s, r, setup) == FinalContent(fs0, s, r, setup)
  {
    hide BuildPlan, SlotContent, Progress, Slots;
    BuildPlanSucceeds(fs0, r, setup);
    SlotContentSame(fs0, fs, r, setup, s);
    if s.target in fs {
      TargetsFine(fs0, fs, r, setup, s);
      if s.target !in fs0 {
        assert FinalContent(fs, s, r, setup) == Some(fs[s.target].content);
      }
    } else if s.target in fs0 {
      KeptTarget(fs0, fs, r, setup, s.target);
    }
  }

  lemma KeptTarget(fs0: FileSystem, fs: FileSystem, r: Roots, setup: Setup, p: Path)
    requires Progress(fs0, fs, r, setup) && p in fs0
    ensures p in fs
  {
  }

  lemma ProgressTransitive(fs0: FileSystem, fs1: FileSystem, fs2: FileSystem, r: Roots, setup: Setup)
    requires BuildPlan(fs0, r, setup).Success? && Progress(fs0, fs1, r, setup) && Progress(fs1, fs2, r, setup)
    ensures Progress(fs0, fs2, r, setup)
  {
    hide BuildPlan, MayAdd, InDirectory, Plannable, RootsDisjoint, RootRepaired;
    BuildPlanSucceeds(fs0, r, setup);
    PlanNeedsDisjoint(fs0, r, setup);
    FramedStill(fs0, fs1, fs2, r, setup.own);
    forall p | p in fs2 && p !in fs0 ensures MayAdd(fs0, p, fs2[p], r, setup) && InDirectory(fs2, p) {
      if p in fs1 {
        assert MayAdd(fs0, p, fs1[p], r, setup) && InDirectory(fs1, p);
        StillInDirectory(fs1, fs2, r, setup.own, p);
        if fs2[p] != fs1[p] {
          assert RootRepaired(fs1[p], fs2[p], p, r, setup.own);
          NewRootRepaired(fs0, fs1, fs2, r, setup, p);
        }
      } else {
        assert MayAdd(fs1, p, fs2[p], r, setup);
        MayAddFromStart(fs0, fs1, p, fs2[p], r, setup);
      }
    }
  }

  lemma FramedStill(a: FileSystem, b: FileSystem, c: FileSystem, r: Roots, own: Ownership)
    requires Framed(a, b, r, own) && Framed(b, c, r, own)
    ensures Framed(a, c, r, own)
  {
  }

  lemma StillInDirectory(a: FileSystem, b: FileSystem, r: Roots, own: Ownership, p: Path)
    requires Framed(a, b, r, own) && InDirectory(a, p)
    ensures InDirectory(b, p)
  {
  }

  lemma MayAddFromStart(fs0: FileSystem, fs1: FileSystem, p: Path, node: Node, r: Roots, setup: Setup)
    requires RootsDisjoint(r) && Progress(fs0, fs1, r, setup) && MayAdd(fs1, p, node, r, setup)
    ensures MayAdd(fs0, p, node, r, setup)
  {
    hide Progress, SlotContent, Slots, RootsDisjoint;
    if AddsSlot(fs1, p, node, r, setup) {
      var s :| s in Slots(r, setup.own) && p == s.target
        && FileMetadata(node, s.uid, setup.own.serviceGid, s.mode)
        && SlotContent(fs1, s, r, setup) == Some(node.content);
      SlotContentSame(fs0, fs1, r, setup, s);
      assert AddsSlot(fs0, p, node, r, setup);
    }
  }

  lemma NewRootRepaired(fs0: FileSystem, fs1: FileSystem, fs2: FileSystem, r: Roots, setup: Setup, p: Path)
    requires RootsDisjoint(r) && Progress(fs0, fs1, r, setup) && p in fs1 && p !in fs0 && p in fs2
    requires RootRepaired(fs1[p], fs2[p], p, r, setup.own)
    ensures fs2[p] == fs1[p]
  {
    var x :| x in FhsRoots(r, setup.own) && p == x.0 && fs1[p].Dir? && fs1[p].uid == x.1 && fs1[p].gid == setup.own.serviceGid
      && fs2[p] == Dir(x.1, setup.own.serviceGid, FHS_DIRECTORY_MODE);
    NewRootsHaveMode(fs0, fs1, r, setup, x);
  }

  /** However two migrations planned on the same file system came to be
      complete, every target ends with the same content. */
  lemma CompleteRunsAgree(fs0: FileSystem, a: FileSystem, b: FileSystem, r: Roots, setup: Setup, s: Slot)
    requires BuildPlan(fs0, r, setup).Success? && s in Slots(r, setup.own)
    requires Complete(fs0, a, r, setup) && Complete(fs0, b, r, setup)
    ensures s.target in a <==> s.target in b
    ensures s.target in a ==>
      && FileMetadata(a[s.target], s.uid, setup.own.serviceGid, s.mode)
      && FileMetadata(b[s.target], s.uid, setup.own.serviceGid, s.mode)
      && a[s.target].content == b[s.target].content
  {
    hide BuildPlan, SlotContent, Slots, Progress;
    BuildPlanSucceeds(fs0, r, setup);
    OutcomeFixed(fs0, a, r, setup, s);
    OutcomeFixed(fs0, b, r, setup, s);
    if s.target in a {
      TargetsFine(fs0, a, r, setup, s);
      TargetPresence(fs0, a, b, r, setup, s);
    }
    if s.target in b {
      TargetsFine(fs0, b, r, setup, s);
      TargetPresence(fs0, b, a, r, setup, s);
    }
  }

  lemma TargetPresence(fs0: FileSystem, a: FileSystem, b: FileSystem, r: Roots, setup: Setup, s: Slot)
    requires Plannable(fs0, r, setup) && Progress(fs0, a, r, setup) && Progress(fs0, b, r, setup)
    requires s in Slots(r, setup.own) && s.target in a
    requires s.source in fs0 ==> s.target in b
    ensures s.target in b
  {
    hide SlotContent;
    if s.target !in fs0 {
      TargetsFine(fs0, a, r, setup, s);
      SlotContentNeedsSource(fs0, s, r, setup);
    }
  }

  lemma SlotContentNeedsSource(fs: FileSystem, s: Slot, r: Roots, setup: Setup)
    ensures SlotContent(fs, s, r, setup).Some? ==> s.source in fs
  {
  }
}
