/** How far a migration has come, as a relation between the file system that
    was planned on and a later one; what planning again says about it. */
module MigrationProgress {
  import opened Wrappers
  import opened MigrationModel
  import opened MigrationPlan
  import opened MigrationHost
  import opened MigrationSqlite

  /** An FHS root whose mode was repaired, and nothing else about it. */
  ghost predicate RootRepaired(before: Node, after: Node, p: Path, r: Roots, own: Ownership) {
    exists x :: x in FhsRoots(r, own) && p == x.0
      && before.Dir? && before.uid == x.1 && before.gid == own.serviceGid && before.mode & GROUP_OTHER_WRITE == 0
      && after == Dir(x.1, own.serviceGid, FHS_DIRECTORY_MODE)
  }

  /** The frame of a migration: every entry stays as it was, but for the mode
      of the three roots. */
  ghost predicate Framed(a: FileSystem, b: FileSystem, r: Roots, own: Ownership) {
    forall p :: p in a ==> p in b && (b[p] == a[p] || RootRepaired(a[p], b[p], p, r, own))
  }

  function SlotSidecars(fs: FileSystem, s: Slot, r: Roots): seq<Snapshot> {
    match SnapshotsAt(fs, SidecarPaths(SourceDb(r), s.name))
    case Success(snaps) => snaps
    case Failure(_) => []
  }

  function SlotJob(fs: FileSystem, s: Slot, r: Roots, setup: Setup, main: Snapshot): Job {
    Job(main, SlotSidecars(fs, s, r), s.target, s.uid, setup.own.serviceGid, setup.backup)
  }

  /** What the migration would put at a slot's target. */
  function SlotContent(fs: FileSystem, s: Slot, r: Roots, setup: Setup): Option<Content> {
    if s.source !in fs || !fs[s.source].File? then None
    else if s.database then JobContent(fs, SlotJob(fs, s, r, setup, SnapshotOf(s.source, fs[s.source], false)))
    else Some(fs[s.source].content)
  }

  /** What the migration may create where nothing was. */
  ghost predicate MayAdd(fs0: FileSystem, p: Path, node: Node, r: Roots, setup: Setup) {
    var own := setup.own;
    || (p == r.env && node == Dir(own.envUid, own.serviceGid, FHS_DIRECTORY_MODE))
    || (p == r.state && node == Dir(own.serviceUid, own.serviceGid, FHS_DIRECTORY_MODE))
    || (p == ConfigDir(r) && node == Dir(own.serviceUid, own.serviceGid, RUNTIME_DIRECTORY_MODE))
    || AddsSlot(fs0, p, node, r, setup)
  }

  ghost predicate AddsSlot(fs0: FileSystem, p: Path, node: Node, r: Roots, setup: Setup) {
    exists s :: s in Slots(r, setup.own) && p == s.target
      && FileMetadata(node, s.uid, setup.own.serviceGid, s.mode)
      && SlotContent(fs0, s, r, setup) == Some(node.content)
  }

  /** fs is fs0 after some part of the migration planned on fs0; every new entry
      lies in a directory. */
  ghost predicate Progress(fs0: FileSystem, fs: FileSystem, r: Roots, setup: Setup) {
    && Framed(fs0, fs, r, setup.own)
    && forall p :: p in fs && p !in fs0 ==> MayAdd(fs0, p, fs[p], r, setup) && InDirectory(fs, p)
  }

  /** A migration never leaves an entry without its directory. */
  lemma ProgressWellFormed(fs0: FileSystem, fs: FileSystem, r: Roots, setup: Setup)
    requires WellFormed(fs0) && Progress(fs0, fs, r, setup)
    ensures WellFormed(fs)
  {
    hide MayAdd, Slots;
    forall p | p in fs && p != [] ensures Parent(p) in fs && fs[Parent(p)].Dir? {
      if p in fs0 {
        assert fs0[Parent(p)].Dir?;
      }
    }
  }

  // ----- Names and places -----

  lemma PrefixesOverlap(a: Path, b: Path, p: Path)
    requires a <= p && b <= p
    ensures Overlap(a, b)
  {
    if |a| <= |b| {
      assert a == b[..|a|];
    } else {
      assert b == a[..|b|];
    }
  }

  lemma RootsApart(r: Roots)
    requires RootsDisjoint(r)
    ensures !Overlap(r.source, r.env) && !Overlap(r.source, r.state) && !Overlap(r.source, r.cache)
    ensures !Overlap(r.env, r.state) && !Overlap(r.env, r.cache) && !Overlap(r.state, r.cache)
  {
    var paths := [r.source, r.env, r.state, r.cache] + if r.sourceCache.Some? then [r.sourceCache.value] else [];
    assert paths[0] == r.source && paths[1] == r.env && paths[2] == r.state && paths[3] == r.cache;
    assert !Overlap(paths[0], paths[1]) && !Overlap(paths[0], paths[2]) && !Overlap(paths[0], paths[3]);
    assert !Overlap(paths[1], paths[2]) && !Overlap(paths[1], paths[3]) && !Overlap(paths[2], paths[3]);
  }

  lemma SourceCacheApart(r: Roots)
    requires RootsDisjoint(r) && r.sourceCache.Some?
    ensures !Overlap(r.sourceCache.value, r.source) && !Overlap(r.sourceCache.value, r.env)
    ensures !Overlap(r.sourceCache.value, r.state) && !Overlap(r.sourceCache.value, r.cache)
  {
    var paths := [r.source, r.env, r.state, r.cache] + [r.sourceCache.value];
    assert paths[0] == r.source && paths[1] == r.env && paths[2] == r.state && paths[3] == r.cache && paths[4] == r.sourceCache.value;
    assert !Overlap(paths[0], paths[4]) && !Overlap(paths[1], paths[4]) && !Overlap(paths[2], paths[4]) && !Overlap(paths[3], paths[4]);
  }

  predicate IsConfigSlot(s: Slot, r: Roots, own: Ownership) {
    s.name in CONFIG_FILENAMES && s == ConfigSlot(r, own, s.name)
  }

  predicate IsDatabaseSlot(s: Slot, r: Roots, own: Ownership) {
    s.name in KNOWN_DB_FILENAMES && s == StateSlot(r, own, s.name, true)
  }

  lemma SlotKinds(r: Roots, own: Ownership, s: Slot)
    ensures s in Slots(r, own) <==>
      s == EnvSlot(r, own) || IsConfigSlot(s, r, own) || IsDatabaseSlot(s, r, own) || s == DeadLetterSlot(r, own)
  {
    var configs, databases := ConfigSlots(r, own), DatabaseSlots(r, own);
    if IsConfigSlot(s, r, own) {
      var i :| 0 <= i < |CONFIG_FILENAMES| && CONFIG_FILENAMES[i] == s.name;
      assert configs[i] == s;
    }
    if IsDatabaseSlot(s, r, own) {
      var i :| 0 <= i < |KNOWN_DB_FILENAMES| && KNOWN_DB_FILENAMES[i] == s.name;
      assert databases[i] == s;
    }
  }

  lemma StateNamesDiffer()
    ensures "config" !in KNOWN_DB_FILENAMES && "config" != DEAD_LETTER_FILENAME && DEAD_LETTER_FILENAME !in KNOWN_DB_FILENAMES
  {
  }

  /** Where slots read and write, and that no two write to one place. */
  lemma SlotPlaces(r: Roots, own: Ownership, s: Slot)
    requires s in Slots(r, own) && RootsDisjoint(r)
    ensures r.source <= s.source && s.source != r.source
    ensures r.env <= s.target || r.state <= s.target
    ensures s.target != r.env && s.target != r.state && s.target != r.cache && s.target != ConfigDir(r)
    ensures s.target != []
  {
    SlotKinds(r, own, s);
    RootsApart(r);
    StateNamesDiffer();
    if IsDatabaseSlot(s, r, own) || s == DeadLetterSlot(r, own) {
      assert s.target[|r.state|] != Plain("config") == ConfigDir(r)[|r.state|];
    }
  }

  lemma SlotByTarget(r: Roots, own: Ownership, s: Slot, s': Slot)
    requires s in Slots(r, own) && s' in Slots(r, own) && RootsDisjoint(r) && s.target == s'.target
    ensures s == s'
  {
    SlotKinds(r, own, s);
    SlotKinds(r, own, s');
    RootsApart(r);
    StateNamesDiffer();
    var last := |s.target| - 1;
    if s == EnvSlot(r, own) || s' == EnvSlot(r, own) {
      if s != s' {
        PrefixesOverlap(r.env, r.state, s.target);
      }
    } else {
      assert s.target[last] == Plain(s.name) && s'.target[last] == Plain(s'.name);
      assert s.name == s'.name;
    }
  }

  /** Nothing the migration creates or repairs lies in the source. */
  lemma OutsideSource(fs0: FileSystem, p: Path, node: Node, r: Roots, setup: Setup)
    requires RootsDisjoint(r) && MayAdd(fs0, p, node, r, setup)
    ensures !(r.source <= p) && p != r.cache && (r.env <= p || r.state <= p)
  {
    RootsApart(r);
    if AddsSlot(fs0, p, node, r, setup) {
      var s :| s in Slots(r, setup.own) && p == s.target;
      SlotPlaces(r, setup.own, s);
    }
    if r.source <= p {
      if r.env <= p { PrefixesOverlap(r.source, r.env, p); } else { PrefixesOverlap(r.source, r.state, p); }
    }
  }

  /** Nor in the cache to copy, nor in the cache that is there. */
  lemma OutsideCaches(fs0: FileSystem, p: Path, node: Node, r: Roots, setup: Setup)
    requires RootsDisjoint(r) && MayAdd(fs0, p, node, r, setup)
    ensures !(r.cache <= p) && (r.sourceCache.Some? ==> !(r.sourceCache.value <= p))
  {
    RootsApart(r);
    OutsideSource(fs0, p, node, r, setup);
    var into := if r.env <= p then r.env else r.state;
    if r.cache <= p {
      PrefixesOverlap(r.cache, into, p);
    }
    if r.sourceCache.Some? && r.sourceCache.value <= p {
      SourceCacheApart(r);
      PrefixesOverlap(r.sourceCache.value, into, p);
    }
  }

  // ----- The source does not change -----

  lemma SourceSame(fs0: FileSystem, fs: FileSystem, r: Roots, setup: Setup, p: Path)
    requires RootsDisjoint(r) && Progress(fs0, fs, r, setup) && r.source <= p
    ensures Get(fs, p) == Get(fs0, p)
  {
    RootsApart(r);
    if p in fs && p !in fs0 {
      OutsideSource(fs0, p, fs[p], r, setup);
    }
    assert forall x :: x in FhsRoots(r, setup.own) ==> !(r.source <= x.0);
  }

  lemma {:induction false} SnapshotsSame(a: FileSystem, b: FileSystem, paths: seq<Path>)
    requires forall i :: 0 <= i < |paths| ==> Get(a, paths[i]) == Get(b, paths[i])
    ensures SnapshotsAt(a, paths) == SnapshotsAt(b, paths)
  {
    if paths != [] {
      assert Get(a, paths[0]) == Get(b, paths[0]);
      forall i | 0 <= i < |paths[1..]| ensures Get(a, paths[1..][i]) == Get(b, paths[1..][i]) {
        assert paths[1..][i] == paths[i + 1];
      }
      SnapshotsSame(a, b, paths[1..]);
    }
  }

  lemma {:induction false} SnapshotsFacts(fs: FileSystem, paths: seq<Path>)
    requires SnapshotsAt(fs, paths).Success?
    ensures forall i :: 0 <= i < |SnapshotsAt(fs, paths).value| ==>
      SnapshotsAt(fs, paths).value[i].path in paths && Current(fs, SnapshotsAt(fs, paths).value[i])
  {
    if paths != [] {
      var rest := SnapshotsAt(fs, paths[1..]);
      SnapshotsFacts(fs, paths[1..]);
      var all := SnapshotsAt(fs, paths).value;
      forall i | 0 <= i < |all| ensures all[i].path in paths && Current(fs, all[i]) {
        if paths[0] in fs && i == 0 {
          assert all[0] == SnapshotOf(paths[0], fs[paths[0]], false);
        } else {
          var k := if paths[0] in fs then i - 1 else i;
          assert all[i] == rest.value[k];
          assert rest.value[k].path in paths[1..];
        }
      }
    }
  }

  lemma SidecarPathsInSource(r: Roots, name: string)
    ensures forall i :: 0 <= i < |SidecarPaths(SourceDb(r), name)| ==> r.source <= SidecarPaths(SourceDb(r), name)[i]
    ensures forall p :: p in SidecarPaths(SourceDb(r), name) ==> r.source <= p
  {
    forall i | 0 <= i < 3 ensures r.source <= SidecarPaths(SourceDb(r), name)[i] {
      assert SidecarPaths(SourceDb(r), name)[i][..|r.source|] == r.source;
    }
  }

  lemma ReadsSame(a: FileSystem, b: FileSystem, paths: seq<Path>)
    requires forall i :: 0 <= i < |paths| ==> Get(a, paths[i]) == Get(b, paths[i])
    ensures ReadAt(a, paths) == ReadAt(b, paths)
  {
    forall i | 0 <= i < |paths| ensures ReadAt(a, paths)[i] == ReadAt(b, paths)[i] {
      assert Get(a, paths[i]) == Get(b, paths[i]);
    }
  }

  ghost predicate SameSource(a: FileSystem, b: FileSystem, r: Roots) {
    forall p :: r.source <= p ==> Get(a, p) == Get(b, p)
  }

  /** What a slot would publish is decided by the source alone. */
  lemma SlotContentFromSource(a: FileSystem, b: FileSystem, r: Roots, setup: Setup, s: Slot)
    requires SameSource(a, b, r) && r.source <= s.source
    ensures SnapshotsAt(a, SidecarPaths(SourceDb(r), s.name)) == SnapshotsAt(b, SidecarPaths(SourceDb(r), s.name))
    ensures SlotContent(a, s, r, setup) == SlotContent(b, s, r, setup)
  {
    var paths := SidecarPaths(SourceDb(r), s.name);
    SidecarPathsInSource(r, s.name);
    SnapshotsSame(a, b, paths);
    assert Get(a, s.source) == Get(b, s.source);
    if s.source in b && b[s.source].File? && s.database {
      var side := WithoutShm(SlotSidecars(b, s, r));
      if SnapshotsAt(b, paths).Success? {
        SnapshotsFacts(b, paths);
      }
      WithoutShmMembers(SlotSidecars(b, s, r));
      forall i | 0 <= i < |side| ensures Get(a, PathsOf(side)[i]) == Get(b, PathsOf(side)[i]) {
        assert side[i] in SlotSidecars(b, s, r);
      }
      ReadsSame(a, b, PathsOf(side));
      BackupUnfolds(a, SlotJob(a, s, r, setup, SnapshotOf(s.source, a[s.source], false)));
      BackupUnfolds(b, SlotJob(b, s, r, setup, SnapshotOf(s.source, b[s.source], false)));
    }
  }

  /** What a slot would publish does not change while the migration runs. */
  lemma SlotContentSame(fs0: FileSystem, fs: FileSystem, r: Roots, setup: Setup, s: Slot)
    requires RootsDisjoint(r) && Progress(fs0, fs, r, setup) && s in Slots(r, setup.own)
    ensures RegularSnapshot(fs, s.source, !s.database, UnsafeSource) == RegularSnapshot(fs0, s.source, !s.database, UnsafeSource)
    ensures SnapshotsAt(fs, SidecarPaths(SourceDb(r), s.name)) == SnapshotsAt(fs0, SidecarPaths(SourceDb(r), s.name))
    ensures SlotContent(fs, s, r, setup) == SlotContent(fs0, s, r, setup)
  {
    hide Progress, SlotContent, SnapshotsAt;
    SlotPlaces(r, setup.own, s);
    forall p | r.source <= p ensures Get(fs, p) == Get(fs0, p) {
      SourceSame(fs0, fs, r, setup, p);
    }
    SlotContentFromSource(fs, fs0, r, setup, s);
    assert Get(fs, s.source) == Get(fs0, s.source);
  }
}
