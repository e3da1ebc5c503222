/** The planner, docker/_systemd_migration_plan.py, for a full plan of the files
    without the image outputs. */
module MigrationPlan {
  import opened Wrappers
  import opened MigrationModel

  datatype Roots = Roots(source: Path, env: Path, state: Path, cache: Path, sourceCache: Option<Path>)

  /** The oracles: what environment_assignments accepts, and the content that
      an SQLite backup makes of a main file and its write-ahead files. */
  datatype Setup = Setup(own: Ownership,
                         envAccepted: Content -> bool,
                         backup: (Content, seq<(Name, Content)>) -> Option<Content>)

  /** One file the migration may publish: from where, to where, with what
      metadata. Databases go through a backup, the others are copied. */
  datatype Slot = Slot(name: string, source: Path, target: Path, uid: int, mode: bv16, database: bool)

  function EnvSlot(r: Roots, own: Ownership): Slot {
    Slot("gateway.env", r.source + [Plain(".env")], r.env + [Plain("gateway.env")], own.envUid, ENV_FILE_MODE, false)
  }

  function ConfigDir(r: Roots): Path {
    r.state + [Plain("config")]
  }

  function ConfigSlot(r: Roots, own: Ownership, name: string): Slot {
    Slot(name, r.source + [Plain(name)], ConfigDir(r) + [Plain(name)], own.serviceUid, RUNTIME_FILE_MODE, false)
  }

  function SourceDb(r: Roots): Path {
    r.source + [Plain("db")]
  }

  function StateSlot(r: Roots, own: Ownership, name: string, database: bool): Slot {
    Slot(name, SourceDb(r) + [Plain(name)], r.state + [Plain(name)], own.serviceUid, RUNTIME_FILE_MODE, database)
  }

  function ConfigSlots(r: Roots, own: Ownership): (slots: seq<Slot>)
    ensures |slots| == |CONFIG_FILENAMES|
    ensures forall i :: 0 <= i < |slots| ==> slots[i] == ConfigSlot(r, own, CONFIG_FILENAMES[i])
  {
    seq(|CONFIG_FILENAMES|, i requires 0 <= i < |CONFIG_FILENAMES| => ConfigSlot(r, own, CONFIG_FILENAMES[i]))
  }

  function DatabaseSlots(r: Roots, own: Ownership): (slots: seq<Slot>)
    ensures |slots| == |KNOWN_DB_FILENAMES|
    ensures forall i :: 0 <= i < |slots| ==> slots[i] == StateSlot(r, own, KNOWN_DB_FILENAMES[i], true)
  {
    seq(|KNOWN_DB_FILENAMES|, i requires 0 <= i < |KNOWN_DB_FILENAMES| => StateSlot(r, own, KNOWN_DB_FILENAMES[i], true))
  }

  function DeadLetterSlot(r: Roots, own: Ownership): Slot {
    StateSlot(r, own, DEAD_LETTER_FILENAME, false)
  }

  /** Every file the plan covers, in the order apply publishes them. */
  function Slots(r: Roots, own: Ownership): seq<Slot> {
    [EnvSlot(r, own)] + ConfigSlots(r, own) + DatabaseSlots(r, own) + [DeadLetterSlot(r, own)]
  }

  function PlanSlot(fs: FileSystem, s: Slot, gid: int): Result<Artifact, Reason> {
    var source :- RegularSnapshot(fs, s.source, !s.database, UnsafeSource);
    var target :- ValidateTargetFile(fs, s.target, s.uid, gid, s.mode, !s.database);
    Success(Artifact(s.name, source, target))
  }

  function PlanSlots(fs: FileSystem, slots: seq<Slot>, gid: int): (r: Result<seq<Artifact>, Reason>)
    ensures r.Success? ==> |r.value| == |slots|
    ensures r.Success? <==> forall i :: 0 <= i < |slots| ==> PlanSlot(fs, slots[i], gid).Success?
    ensures r.Success? ==> forall i :: 0 <= i < |slots| ==> PlanSlot(fs, slots[i], gid) == Success(r.value[i])
  {
    if slots == [] then Success([])
    else
      assert forall i :: 0 < i < |slots| ==> slots[i] == slots[1..][i - 1];
      assert forall i :: 0 <= i < |slots[1..]| ==> slots[1..][i] == slots[i + 1];
      var first := PlanSlot(fs, slots[0], gid);
      var rest := PlanSlots(fs, slots[1..], gid);
      if first.Failure? then Failure(first.error)
      else if rest.Failure? then Failure(rest.error)
      else Success([first.value] + rest.value)
  }

  // ----- Roots -----

  /** The FHS roots with the uid each must have, in the order they are checked. */
  function FhsRoots(r: Roots, own: Ownership): seq<(Path, int)> {
    [(r.env, own.envUid), (r.state, own.serviceUid), (r.cache, own.serviceUid)]
  }

  predicate RootsSafe(fs: FileSystem, r: Roots) {
    && SafeDirectory(fs, r.source, false) && SafeDirectory(fs, r.env, true)
    && SafeDirectory(fs, r.state, true) && SafeDirectory(fs, r.cache, true)
    && (r.sourceCache.Some? ==> SafeDirectory(fs, r.sourceCache.value, false))
  }

  predicate RootsDisjoint(r: Roots) {
    Disjoint([r.source, r.env, r.state, r.cache] + if r.sourceCache.Some? then [r.sourceCache.value] else [])
  }

  /** _validate_fhs_roots: which existing roots have a mode to repair */
  function PlanRepairs(fs: FileSystem, roots: seq<(Path, int)>, gid: int): (r: Result<seq<(Path, int)>, Reason>)
    ensures r.Success? <==> forall i :: 0 <= i < |roots| && roots[i].0 in fs ==>
              NeedsNormalization(fs, roots[i].0, roots[i].1, gid, FHS_DIRECTORY_MODE).Success?
    ensures r.Success? ==> forall x :: x in r.value <==> x in roots && x.0 in fs && fs[x.0].Dir? && fs[x.0].mode != FHS_DIRECTORY_MODE
  {
    if roots == [] then Success([])
    else
      var rest := PlanRepairs(fs, roots[1..], gid);
      assert forall i :: 0 < i < |roots| ==> roots[i] == roots[1..][i - 1];
      assert forall i :: 0 <= i < |roots[1..]| ==> roots[1..][i] == roots[i + 1];
      if roots[0].0 !in fs then rest
      else
        var needs :- NeedsNormalization(fs, roots[0].0, roots[0].1, gid, FHS_DIRECTORY_MODE);
        var later :- rest;
        Success(if needs then [roots[0]] + later else later)
  }

  // ----- State names -----

  function SidecarNames(): (names: seq<(string, string)>)
    ensures forall x :: x in names <==> exists d, s :: d in KNOWN_DB_FILENAMES && s in SQLITE_SIDECAR_SUFFIXES && x == (d + s, d)
  {
    var pairs := seq(9, i requires 0 <= i < 9 =>
      (KNOWN_DB_FILENAMES[i / 3] + SQLITE_SIDECAR_SUFFIXES[i % 3], KNOWN_DB_FILENAMES[i / 3]));
    assert forall d, s :: d in KNOWN_DB_FILENAMES && s in SQLITE_SIDECAR_SUFFIXES ==> (d + s, d) in pairs by {
      forall d, s | d in KNOWN_DB_FILENAMES && s in SQLITE_SIDECAR_SUFFIXES ensures (d + s, d) in pairs {
        var a :| 0 <= a < 3 && KNOWN_DB_FILENAMES[a] == d;
        var b :| 0 <= b < 3 && SQLITE_SIDECAR_SUFFIXES[b] == s;
        assert (3 * a + b) / 3 == a && (3 * a + b) % 3 == b;
        assert pairs[3 * a + b] == (d + s, d);
      }
    }
    pairs
  }

  predicate IsSidecar(name: string) {
    exists x | x in SidecarNames() :: x.0 == name
  }

  predicate SourceAllowed(n: Name) {
    && n.Plain?
    && (n.text in KNOWN_DB_FILENAMES || n.text == DEAD_LETTER_FILENAME || n.text == LOCK_FILENAME || IsSidecar(n.text))
  }

  predicate TargetAllowed(n: Name) {
    SourceAllowed(n) || n == Plain("config") || n == Plain("outputs") || n == Plain(".migration")
  }

  predicate NoOrphans(names: set<Name>) {
    forall x | x in SidecarNames() :: Plain(x.0) in names ==> Plain(x.1) in names
  }

  predicate NamesKnown(source: set<Name>, target: set<Name>) {
    && (forall n | n in source :: SourceAllowed(n) || IsTemporary(n))
    && (forall n | n in target :: TargetAllowed(n) || IsTemporary(n))
  }

  function StateNames(fs: FileSystem, dir: Path): Result<set<Name>, Reason> {
    if dir !in fs then Success({})
    else if !fs[dir].Dir? then Failure(StateUnavailable)
    else Success(Children(fs, dir))
  }

  /** _validate_state_names */
  function ValidateStateNames(fs: FileSystem, r: Roots): Result<(set<Name>, set<Name>), Reason> {
    var source :- StateNames(fs, SourceDb(r));
    var target :- StateNames(fs, r.state);
    if !NoOrphans(source) || !NoOrphans(target) then Failure(OrphanSidecar)
    else if !NamesKnown(source, target) then Failure(UnknownState)
    else Success((source, target))
  }

  ghost predicate OrphanAt(names: set<Name>, o: string, i: nat, j: nat) {
    && i < |KNOWN_DB_FILENAMES| && j < |SQLITE_SIDECAR_SUFFIXES|
    && o == KNOWN_DB_FILENAMES[i] + SQLITE_SIDECAR_SUFFIXES[j]
    && Plain(o) in names && Plain(KNOWN_DB_FILENAMES[i]) !in names
  }

  ghost predicate IsOrphan(names: set<Name>, o: string) {
    exists i: nat, j: nat :: OrphanAt(names, o, i, j)
  }

  /** The loops of _validate_state_names over databases and suffixes: a side
      file is reported exactly when its database is missing beside it. */
  method FindOrphans(names: set<Name>) returns (orphans: seq<string>)
    ensures forall o :: o in orphans <==> IsOrphan(names, o)
    ensures orphans == [] <==> NoOrphans(names)
  {
    orphans := [];
    for a := 0 to |KNOWN_DB_FILENAMES|
      invariant forall o :: o in orphans <==> exists i: nat, j: nat :: i < a && OrphanAt(names, o, i, j)
    {
      for b := 0 to |SQLITE_SIDECAR_SUFFIXES|
        invariant forall o :: o in orphans <==>
          exists i: nat, j: nat :: (i < a || (i == a && j < b)) && OrphanAt(names, o, i, j)
      {
        var sidecar := KNOWN_DB_FILENAMES[a] + SQLITE_SIDECAR_SUFFIXES[b];
        if Plain(sidecar) in names && Plain(KNOWN_DB_FILENAMES[a]) !in names {
          orphans := orphans + [sidecar];
          assert OrphanAt(names, sidecar, a, b);
        }
      }
    }
    OrphansAgree(names);
    if orphans != [] {
      assert orphans[0] in orphans;
    }
  }

  lemma OrphansAgree(names: set<Name>)
    ensures NoOrphans(names) <==> forall o :: !IsOrphan(names, o)
  {
    if o, i: nat, j: nat :| OrphanAt(names, o, i, j) {
      assert (o, KNOWN_DB_FILENAMES[i]) in SidecarNames();
    }
    if !NoOrphans(names) {
      var x :| x in SidecarNames() && Plain(x.0) in names && Plain(x.1) !in names;
      var d, s :| d in KNOWN_DB_FILENAMES && s in SQLITE_SIDECAR_SUFFIXES && x == (d + s, d);
      var i: nat :| i < |KNOWN_DB_FILENAMES| && KNOWN_DB_FILENAMES[i] == d;
      var j: nat :| j < |SQLITE_SIDECAR_SUFFIXES| && SQLITE_SIDECAR_SUFFIXES[j] == s;
      assert OrphanAt(names, x.0, i, j);
      assert IsOrphan(names, x.0);
    }
  }

  // ----- Sidecars -----

  function SidecarPaths(dir: Path, database: string): seq<Path> {
    seq(3, i requires 0 <= i < 3 => dir + [Plain(database + SQLITE_SIDECAR_SUFFIXES[i])])
  }

  /** Existing files at paths, each a regular file with one link. */
  function SnapshotsAt(fs: FileSystem, paths: seq<Path>): (r: Result<seq<Snapshot>, Reason>)
    ensures r.Success? <==> forall i :: 0 <= i < |paths| && paths[i] in fs ==> fs[paths[i]].File? && fs[paths[i]].nlink == 1
  {
    if paths == [] then Success([])
    else
      var rest := SnapshotsAt(fs, paths[1..]);
      assert forall i :: 0 < i < |paths| ==> paths[i] == paths[1..][i - 1];
      assert rest.Failure? ==> exists i :: 0 < i < |paths| && paths[i] in fs && !(fs[paths[i]].File? && fs[paths[i]].nlink == 1) by {
        if rest.Failure? {
          var i :| 0 <= i < |paths[1..]| && paths[1..][i] in fs && !(fs[paths[1..][i]].File? && fs[paths[1..][i]].nlink == 1);
          assert paths[i + 1] == paths[1..][i];
        }
      }
      var first :- RegularSnapshot(fs, paths[0], false, UnsafeSource);
      var later :- rest;
      Success((if first.Some? then [first.value] else []) + later)
  }

  function SidecarSnapshots(fs: FileSystem, r: Roots, databases: seq<string>): (result: Result<seq<seq<Snapshot>>, Reason>)
    ensures result.Success? ==> |result.value| == |databases|
    ensures result.Success? ==> forall i :: 0 <= i < |databases| ==>
              SnapshotsAt(fs, SidecarPaths(SourceDb(r), databases[i])) == Success(result.value[i])
    ensures result.Success? <==> forall i :: 0 <= i < |databases| ==>
              SnapshotsAt(fs, SidecarPaths(SourceDb(r), databases[i])).Success?
  {
    if databases == [] then Success([])
    else
      var first := SnapshotsAt(fs, SidecarPaths(SourceDb(r), databases[0]));
      var rest := SidecarSnapshots(fs, r, databases[1..]);
      assert forall i :: 0 < i < |databases| ==> databases[i] == databases[1..][i - 1];
      if first.Failure? then Failure(first.error)
      else if rest.Failure? then
        var i :| 0 <= i < |databases[1..]| && SnapshotsAt(fs, SidecarPaths(SourceDb(r), databases[1..][i])).Failure?;
        assert databases[i + 1] == databases[1..][i];
        Failure(rest.error)
      else Success([first.value] + rest.value)
  }

  predicate TargetSidecarsValid(fs: FileSystem, r: Roots, own: Ownership) {
    forall x | x in SidecarNames() ::
      r.state + [Plain(x.0)] in fs ==> FileMetadata(fs[r.state + [Plain(x.0)]], own.serviceUid, own.serviceGid, RUNTIME_FILE_MODE)
  }

  // ----- The plan -----

  datatype Plan = Plan(roots: Roots, repairs: seq<(Path, int)>, environment: Artifact, configs: seq<Artifact>,
                       databases: seq<Artifact>, sidecars: seq<seq<Snapshot>>, deadLetter: Artifact)

  function Artifacts(p: Plan): seq<Artifact> {
    [p.environment] + p.configs + p.databases + [p.deadLetter]
  }

  predicate Ready(a: Artifact) {
    a.target.None? && a.source.Some?
  }

  /** _report_requires_migration, for the parts modelled here */
  predicate RequiresMigration(p: Plan) {
    p.repairs != [] || exists a | a in Artifacts(p) :: Ready(a)
  }

  predicate ConfigsPresent(configs: seq<Artifact>) {
    forall a | a in configs :: a.name in MANDATORY_CONFIG_FILENAMES ==> a.source.Some? || a.target.Some?
  }

  function PlanEnvironment(fs: FileSystem, r: Roots, setup: Setup): Result<Artifact, Reason> {
    var a :- PlanSlot(fs, EnvSlot(r, setup.own), setup.own.serviceGid);
    if a.source.None? && a.target.None? then Failure(EnvironmentMissing)
    else
      var effective := if a.target.Some? then a.target.value else a.source.value;
      if effective.digest.Some? && !setup.envAccepted(effective.digest.value) then Failure(EnvironmentRejected)
      else Success(a)
  }

  function PlanConfigs(fs: FileSystem, r: Roots, own: Ownership): Result<seq<Artifact>, Reason> {
    if ConfigDir(r) in fs && !DirectoryMetadata(fs, ConfigDir(r), own.serviceUid, own.serviceGid, RUNTIME_DIRECTORY_MODE) then
      Failure(UnsafeExistingTarget)
    else
      var configs :- PlanSlots(fs, ConfigSlots(r, own), own.serviceGid);
      if !ConfigsPresent(configs) then Failure(MandatoryConfigMissing) else Success(configs)
  }

  /** build_plan, in the order of its checks */
  function BuildPlan(fs: FileSystem, r: Roots, setup: Setup): Result<Plan, Reason> {
    var own := setup.own;
    if !RootsSafe(fs, r) then Failure(PathUnsafe)
    else if !RootsDisjoint(r) then Failure(PathOverlap)
    else
      var repairs :- PlanRepairs(fs, FhsRoots(r, own), own.serviceGid);
      var environment :- PlanEnvironment(fs, r, setup);
      var configs :- PlanConfigs(fs, r, own);
      var names :- ValidateStateNames(fs, r);
      var databases :- PlanSlots(fs, DatabaseSlots(r, own), own.serviceGid);
      var sidecars :- SidecarSnapshots(fs, r, KNOWN_DB_FILENAMES);
      if !TargetSidecarsValid(fs, r, own) then Failure(UnsafeExistingTarget)
      else
        var deadLetter :- PlanSlot(fs, DeadLetterSlot(r, own), own.serviceGid);
        Success(Plan(r, repairs, environment, configs, databases, sidecars, deadLetter))
  }
}
