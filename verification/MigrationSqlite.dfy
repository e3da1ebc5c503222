/** sqlite_backup of docker/_systemd_migration_fs.py: a database is staged with
    its write-ahead files in a private directory, backed up from there to a
    made-up name, and linked to its target. */
module MigrationSqlite {
  import opened Wrappers
  import opened MigrationModel
  import opened MigrationHost

  function Last(p: Path): Name {
    if p == [] then Plain("") else p[|p| - 1]
  }

  /** shutil.rmtree */
  function Removed(fs: FileSystem, root: Path): FileSystem {
    map p | p in fs && !(root <= p) :: fs[p]
  }

  predicate IsShm(s: Snapshot) {
    Last(s.path).Plain? && EndsWith(Last(s.path).text, "-shm")
  }

  /** What is staged: the main file and every side file but shared memory. */
  function Staged(main: Snapshot, sidecars: seq<Snapshot>): seq<Snapshot> {
    [main] + WithoutShm(sidecars)
  }

  function WithoutShm(sidecars: seq<Snapshot>): seq<Snapshot> {
    if sidecars == [] then []
    else if IsShm(sidecars[0]) then WithoutShm(sidecars[1..])
    else [sidecars[0]] + WithoutShm(sidecars[1..])
  }

  function ContentAt(fs: FileSystem, p: Path): Content {
    if p in fs && fs[p].File? then fs[p].content else []
  }

  /** The named contents an SQLite backup reads at the given places. */
  function ReadAt(fs: FileSystem, paths: seq<Path>): (r: seq<(Name, Content)>)
    ensures |r| == |paths|
    ensures forall i :: 0 <= i < |r| ==> r[i] == (Last(paths[i]), ContentAt(fs, paths[i]))
  {
    seq(|paths|, i requires 0 <= i < |paths| => (Last(paths[i]), ContentAt(fs, paths[i])))
  }

  function PathsOf(snaps: seq<Snapshot>): (r: seq<Path>)
    ensures |r| == |snaps| && forall i :: 0 <= i < |r| ==> r[i] == snaps[i].path
  {
    seq(|snaps|, i requires 0 <= i < |snaps| => snaps[i].path)
  }

  function StagedPaths(staging: Path, snaps: seq<Snapshot>): (r: seq<Path>)
    ensures |r| == |snaps| && forall i :: 0 <= i < |r| ==> r[i] == staging + [Last(snaps[i].path)]
  {
    seq(|snaps|, i requires 0 <= i < |snaps| => staging + [Last(snaps[i].path)])
  }

  function BackupOf(fs: FileSystem, backup: (Content, seq<(Name, Content)>) -> Option<Content>,
                    main: Snapshot, sidecars: seq<Snapshot>): Option<Content> {
    backup(ContentAt(fs, main.path), ReadAt(fs, PathsOf(WithoutShm(sidecars))))
  }

  predicate AllCurrent(fs: FileSystem, snaps: seq<Snapshot>) {
    forall i :: 0 <= i < |snaps| ==> Current(fs, snaps[i])
  }

  /** Names that do not collide inside the staging directory. */
  predicate DistinctNames(snaps: seq<Snapshot>) {
    forall i, j :: 0 <= i < j < |snaps| ==> Last(snaps[i].path) != Last(snaps[j].path)
  }

  lemma NotBeneathNew(p: Path, root: Path, uuid: nat)
    requires NamesBelow(p, uuid) && !NamesBelow(root, uuid)
    ensures !(root <= p)
  {
    assert root <= p ==> forall n :: n in root ==> n in p;
  }

  /** The entries of b that a lacks are beneath root, and the rest is as in a. */
  ghost predicate GrownBeneath(a: FileSystem, b: FileSystem, root: Path) {
    && Kept(a, b)
    && forall p :: p in b && p !in a ==> root <= p
  }

  ghost predicate StagedUpTo(a: FileSystem, b: FileSystem, snaps: seq<Snapshot>, staging: Path, i: nat) {
    && i <= |snaps|
    && (forall k :: 0 <= k < i ==> Current(a, snaps[k]) && StagedAs(a, b, snaps[k].path, staging))
    && (forall p :: p in b && p !in a ==> exists k :: 0 <= k < i && p == staging + [Last(snaps[k].path)])
  }

  ghost predicate StagedAs(a: FileSystem, b: FileSystem, path: Path, staging: Path) {
    var dest := staging + [Last(path)];
    dest in b && b[dest].File? && b[dest].content == ContentAt(a, path)
  }

  lemma StagedOneMore(a: FileSystem, b: FileSystem, c: FileSystem, snaps: seq<Snapshot>, staging: Path, i: nat)
    requires StagedUpTo(a, b, snaps, staging, i) && i < |snaps| && Kept(a, b)
    requires var dest := staging + [Last(snaps[i].path)];
      dest !in b && dest in c && c == b[dest := c[dest]] && c[dest].File? && c[dest].content == ContentAt(a, snaps[i].path)
    requires Current(a, snaps[i])
    ensures StagedUpTo(a, c, snaps, staging, i + 1)
  {
    var dest := staging + [Last(snaps[i].path)];
    forall k | 0 <= k < i + 1 ensures StagedAs(a, c, snaps[k].path, staging) {
      if k < i {
        assert StagedAs(a, b, snaps[k].path, staging);
      }
    }
  }

  /** _stage_database */
  method StageDatabase(h: Host, snaps: seq<Snapshot>, staging: Path, ghost uuid: nat) returns (r: Outcome)
    requires h.Valid() && staging in h.fs && h.fs[staging].Dir? && NamesBelow(staging, h.nextUuid) && !NamesBelow(staging, uuid)
    requires uuid <= h.nextUuid
    requires forall i :: 0 <= i < |snaps| ==> NamesBelow(snaps[i].path, uuid)
    requires forall p :: p in h.fs && staging <= p ==> p == staging
    modifies h`fs, h`nextIno, h`faults
    ensures h.Valid() && (old(h.faults) == [] ==> h.faults == []) && GrownBeneath(old(h.fs), h.fs, staging)
    ensures old(h.nextIno) <= h.nextIno
    ensures r.Success? ==> StagedUpTo(old(h.fs), h.fs, snaps, staging, |snaps|)
    ensures old(h.faults) == [] && AllCurrent(old(h.fs), snaps) && DistinctNames(snaps) ==> r.Success?
  {
    hide Current, FileMetadata, NamesBelow, Numbered, Last, ContentAt;
    var i := 0;
    while i < |snaps|
      invariant i <= |snaps| && h.Valid() && h.nextUuid == old(h.nextUuid) && old(h.nextIno) <= h.nextIno
      invariant old(h.faults) == [] ==> h.faults == []
      invariant GrownBeneath(old(h.fs), h.fs, staging)
      invariant StagedUpTo(old(h.fs), h.fs, snaps, staging, i)
    {
      var dest := staging + [Last(snaps[i].path)];
      ghost var before := h.fs;
      assert Parent(dest) == staging;
      NotBeneathNew(snaps[i].path, staging, uuid);
      CurrentEarlier(old(h.fs), before, snaps[i], staging);
      NamesBelowLater(snaps[i].path, uuid, h.nextUuid);
      ChildName(staging, snaps[i].path, h.nextUuid);
      if old(h.faults) == [] && AllCurrent(old(h.fs), snaps) && DistinctNames(snaps) {
        DestinationFree(old(h.fs), before, snaps, staging, i);
      }
      r := h.CopyToNew(snaps[i], dest, h.uid, h.gid, PRIVATE_FILE_MODE, true);
      if r.Failure? {
        return;
      }
      ContentOfCurrent(old(h.fs), before, snaps[i]);
      StagedOneMore(old(h.fs), before, h.fs, snaps, staging, i);
      var bad := h.Fault();
      if bad {
        return Failure(SystemError);
      }
      i := i + 1;
    }
    return Success(());
  }

  lemma NamesBelowLater(p: Path, uuid: nat, uuid': nat)
    requires NamesBelow(p, uuid) && uuid <= uuid'
    ensures NamesBelow(p, uuid')
  {
  }

  lemma ChildName(dir: Path, p: Path, uuid: nat)
    requires NamesBelow(dir, uuid) && NamesBelow(p, uuid)
    ensures NamesBelow(dir + [Last(p)], uuid)
  {
    assert p != [] ==> Last(p) in p;
  }

  lemma CurrentEarlier(a: FileSystem, b: FileSystem, s: Snapshot, root: Path)
    requires GrownBeneath(a, b, root) && !(root <= s.path)
    ensures Current(a, s) <==> Current(b, s)
  {
  }

  lemma ContentOfCurrent(a: FileSystem, b: FileSystem, s: Snapshot)
    requires Kept(a, b) && Current(a, s)
    ensures s.path in a && s.path in b && a[s.path] == b[s.path] && a[s.path].File? && ContentAt(a, s.path) == b[s.path].content
  {
  }

  lemma DestinationFree(a: FileSystem, b: FileSystem, snaps: seq<Snapshot>, staging: Path, i: nat)
    requires StagedUpTo(a, b, snaps, staging, i) && i < |snaps| && DistinctNames(snaps)
    requires forall p :: p in a && staging <= p ==> p == staging
    ensures staging + [Last(snaps[i].path)] !in b
  {
    var dest := staging + [Last(snaps[i].path)];
    assert staging <= dest && dest != staging;
    forall k | 0 <= k < i ensures dest != staging + [Last(snaps[k].path)] {
      assert (staging + [Last(snaps[k].path)])[|staging|] == Last(snaps[k].path);
      assert dest[|staging|] == Last(snaps[i].path);
    }
  }

  lemma StagedReads(a: FileSystem, b: FileSystem, main: Snapshot, sidecars: seq<Snapshot>, staging: Path)
    requires StagedUpTo(a, b, Staged(main, sidecars), staging, |Staged(main, sidecars)|)
    ensures ContentAt(b, staging + [Last(main.path)]) == ContentAt(a, main.path)
    ensures ReadAt(b, StagedPaths(staging, WithoutShm(sidecars))) == ReadAt(a, PathsOf(WithoutShm(sidecars)))
    ensures Current(a, main)
  {
    hide Current;
    var snaps, side := Staged(main, sidecars), WithoutShm(sidecars);
    assert snaps[0] == main && StagedAs(a, b, snaps[0].path, staging);
    forall k | 0 <= k < |side|
      ensures ReadAt(b, StagedPaths(staging, side))[k] == ReadAt(a, PathsOf(side))[k]
    {
      assert snaps[k + 1] == side[k];
      assert StagedAs(a, b, snaps[k + 1].path, staging);
    }
  }

  /** _backup_staged_database and _set_file_metadata: the backup of the staged
      files appears at t, first with the process's own metadata. */
  method WriteBackup(h: Host, content: Content, t: Path, owner: int, group: int) returns (r: Outcome)
    requires h.Valid() && t !in h.fs && NamesBelow(t, h.nextUuid)
    modifies h`fs, h`nextIno, h`faults
    ensures h.Valid() && (old(h.faults) == [] ==> h.faults == []) && old(h.nextIno) <= h.nextIno
    ensures h.fs == old(h.fs) || Begun(old(h.fs), h.fs, t, old(h.nextIno))
    ensures r.Success? ==> t in h.fs && h.fs == old(h.fs)[t := File(old(h.nextIno), content, owner, group, RUNTIME_FILE_MODE, 1, h.clock)]
    ensures old(h.faults) == [] ==> r.Success?
  {
    hide Numbered, NamesBelow;
    var base, ino := h.fs, h.nextIno;
    var bad := h.Fault();
    h.Renumber(h.nextIno + 1, h.nextUuid);
    h.nextIno := ino + 1;
    var made := File(ino, if bad then [] else content, h.uid, h.gid, PRIVATE_FILE_MODE, 1, h.clock);
    NumberedUpdate(base, t, made, h.nextIno, h.nextUuid);
    h.fs := base[t := made];
    if bad {
      return Failure(SqliteBackupFailed);
    }
    bad := h.Fault();
    if bad {
      return Failure(TargetMetadataFailed);
    }
    NumberedUpdate(base, t, made.(uid := owner, gid := group, mode := RUNTIME_FILE_MODE), h.nextIno, h.nextUuid);
    h.fs := base[t := made.(uid := owner, gid := group, mode := RUNTIME_FILE_MODE)];
    return Success(());
  }

  datatype Job = Job(main: Snapshot, sidecars: seq<Snapshot>, dest: Path, owner: int, group: int,
                     backup: (Content, seq<(Name, Content)>) -> Option<Content>)

  lemma {:induction false} WithoutShmMembers(sidecars: seq<Snapshot>)
    ensures forall i :: 0 <= i < |WithoutShm(sidecars)| ==> WithoutShm(sidecars)[i] in sidecars
  {
    if sidecars != [] {
      WithoutShmMembers(sidecars[1..]);
      forall i | 0 <= i < |WithoutShm(sidecars)| ensures WithoutShm(sidecars)[i] in sidecars {
        assert WithoutShm(sidecars)[i] in sidecars[1..] || WithoutShm(sidecars)[i] == sidecars[0];
      }
    }
  }

  lemma StagedNamed(j: Job, uuid: nat)
    requires JobNamed(j, uuid)
    ensures forall i :: 0 <= i < |Staged(j.main, j.sidecars)| ==> NamesBelow(Staged(j.main, j.sidecars)[i].path, uuid)
  {
    WithoutShmMembers(j.sidecars);
  }

  /** What a job would publish from the given file system. */
  function JobContent(fs: FileSystem, j: Job): Option<Content> {
    BackupOf(fs, j.backup, j.main, j.sidecars)
  }

  /** The one change a job may leave: its target, with the backup as content. */
  ghost predicate JobDone(a: FileSystem, b: FileSystem, j: Job) {
    && JobContent(a, j).Some?
    && PublishedAs(a, b, JobContent(a, j).value, j.dest, j.owner, j.group, RUNTIME_FILE_MODE)
  }

  ghost predicate JobNamed(j: Job, uuid: nat) {
    && j.dest != [] && NamesBelow(j.dest, uuid) && NamesBelow(j.main.path, uuid)
    && forall i :: 0 <= i < |j.sidecars| ==> NamesBelow(j.sidecars[i].path, uuid)
  }

  predicate JobCanRun(fs: FileSystem, j: Job) {
    && InDirectory(fs, j.dest) && FileCanBe(fs, j.dest, j.owner, j.group, RUNTIME_FILE_MODE)
    && AllCurrent(fs, Staged(j.main, j.sidecars)) && AllCurrent(fs, j.sidecars) && DistinctNames(Staged(j.main, j.sidecars))
    && JobContent(fs, j).Some?
  }

  /** b is a with the target published or not, plus what the staging directory holds. */
  ghost predicate DoneBesides(a: FileSystem, b: FileSystem, j: Job, staging: Path) {
    || GrownBeneath(a, b, staging)
    || (j.dest !in a && InDirectory(a, j.dest) && j.dest in b && GrownBeneath(a, b - {j.dest}, staging)
        && JobContent(a, j).Some? && FileMetadata(b[j.dest], j.owner, j.group, RUNTIME_FILE_MODE)
        && b[j.dest].content == JobContent(a, j).value)
  }

  /** The first half of the try block of sqlite_backup: stage, back up to t,
      check that the sources did not change. `staged` lacks t. */
  method StageAndBackUp(h: Host, j: Job, staging: Path, t: Path, ghost uuid: nat)
    returns (r: Outcome, ghost staged: FileSystem)
    requires h.Valid() && uuid <= h.nextUuid && JobNamed(j, uuid)
    requires staging in h.fs && h.fs[staging].Dir? && NamesBelow(staging, h.nextUuid) && !NamesBelow(staging, uuid)
    requires forall p :: p in h.fs && staging <= p ==> p == staging
    requires t !in h.fs && NamesBelow(t, h.nextUuid) && !(staging <= t)
    modifies h`fs, h`nextIno, h`faults
    ensures h.Valid() && (old(h.faults) == [] ==> h.faults == []) && old(h.nextIno) <= h.nextIno
    ensures GrownBeneath(old(h.fs), staged, staging) && t !in staged
    ensures if t in h.fs then h.fs == staged[t := h.fs[t]] && h.fs[t].File? && h.fs[t].nlink == 1 else h.fs == staged
    ensures t in h.fs ==> old(h.nextIno) <= h.fs[t].ino
    ensures t in h.fs ==> forall p :: p in staged && staged[p].File? ==> staged[p].ino < h.fs[t].ino
    ensures r.Success? ==> JobContent(old(h.fs), j).Some? && t in h.fs
    ensures r.Success? ==> FileMetadata(h.fs[t], j.owner, j.group, RUNTIME_FILE_MODE) && h.fs[t].content == JobContent(old(h.fs), j).value
    ensures old(h.faults) == [] && JobCanRun(old(h.fs), j) ==> r.Success?
  {
    StagedNamed(j, uuid);
    hide Unlinked, Numbered, NamesBelow, Current, ReadAt, Staged, BackupOf;
    r := StageDatabase(h, Staged(j.main, j.sidecars), staging, uuid);
    staged := h.fs;
    if r.Failure? {
      return;
    }
    StagedReads(old(h.fs), staged, j.main, j.sidecars, staging);
    var content := j.backup(ContentAt(h.fs, staging + [Last(j.main.path)]),
                            ReadAt(h.fs, StagedPaths(staging, WithoutShm(j.sidecars))));
    assert content == JobContent(old(h.fs), j) by { BackupUnfolds(old(h.fs), j); }
    if content.None? {
      return Failure(SqliteBackupFailed), staged;
    }
    InosBelow(staged, h.nextIno, h.nextUuid);
    r := WriteBackup(h, content.value, t, j.owner, j.group);
    if r.Success? && !AllCurrent(h.fs, [j.main] + j.sidecars) {
      if JobCanRun(old(h.fs), j) {
        SidecarsStayCurrent(old(h.fs), h.fs, j);
      }
      return Failure(SourceChanged), staged;
    }
  }

  lemma BackupUnfolds(fs: FileSystem, j: Job)
    ensures JobContent(fs, j) == j.backup(ContentAt(fs, j.main.path), ReadAt(fs, PathsOf(WithoutShm(j.sidecars))))
  {
  }

  /** The try block of sqlite_backup, with the staging directory in place.
      `clean` is the file system once t is unlinked. */
  method BackUpAndLink(h: Host, j: Job, staging: Path, t: Path, ghost ino: int, ghost uuid: nat)
    returns (r: Outcome, ghost clean: FileSystem)
    requires h.Valid() && h.nextIno == ino && uuid <= h.nextUuid && h.OthersNumbered(ino, uuid) && JobNamed(j, uuid)
    requires staging in h.fs && h.fs[staging].Dir? && NamesBelow(staging, h.nextUuid) && !NamesBelow(staging, uuid)
    requires forall p :: p in h.fs && staging <= p ==> p == staging
    requires t !in h.fs && NamesBelow(t, h.nextUuid) && t != j.dest && !(staging <= t) && t != [] && Parent(t) == Parent(j.dest)
    requires !(staging <= Parent(t))
    modifies h`fs, h`nextIno, h`faults, h`others
    ensures h.Valid() && Kept(old(h.fs), clean) && Kept(old(h.fs), h.fs)
    ensures (old(h.faults) == [] ==> h.faults == []) && (old(h.others) == [] ==> h.others == [])
    ensures if t in h.fs then h.fs[t].File? && Unlinked(h.fs, t) == clean else h.fs == clean
    ensures old(h.others) == [] ==> DoneBesides(old(h.fs), clean, j, staging)
    ensures r.Success? ==> j.dest in clean && FileMetadata(clean[j.dest], j.owner, j.group, RUNTIME_FILE_MODE)
    ensures r.Success? ==> JobContent(old(h.fs), j).Some? && Settles(old(h.fs), clean, old(h.others), 1, j.dest, JobContent(old(h.fs), j).value)
    ensures old(h.Quiet() && JobCanRun(h.fs, j)) ==> r.Success?
  {
    hide Unlinked, Numbered, NamesBelow, AllCurrent, DistinctNames, JobContent, Settles;
    ghost var start, acts := h.fs, h.others;
    ghost var staged: FileSystem;
    r, staged := StageAndBackUp(h, j, staging, t, uuid);
    clean := staged;
    if r.Failure? {
      if t in h.fs {
        UnlinkAlone(staged, t, h.fs[t]);
      }
      return;
    }
    NamesBelowLater(j.dest, uuid, h.nextUuid);
    NotBeneathNew(j.dest, staging, uuid);
    var linked: bool;
    ghost var content := h.fs[t].content;
    r, linked, clean := h.LinkAmidOthers(t, j.dest, j.owner, j.group, RUNTIME_FILE_MODE, staged, ino, uuid);
    if r.Success? {
      SettledBeneath(start, staged, clean, acts, staging, j.dest, content);
    }
    KeptTransitive(start, staged, clean);
    KeptTransitive(start, staged, h.fs);
    if !linked && r.Success? {
      var bad := h.Fault();
      if bad {
        r := Failure(SystemError);
      }
    }
    if linked && old(h.others) == [] {
      assert clean - {j.dest} == staged;
      assert !(staging <= Parent(j.dest)) && InDirectory(start, j.dest);
    }
  }

  lemma SettledBeneath(a: FileSystem, staged: FileSystem, b: FileSystem, others: seq<FileSystem>, staging: Path, dest: Path, content: Content)
    requires GrownBeneath(a, staged, staging) && !(staging <= dest)
    requires Settles(staged, b, others, 1, dest, content)
    ensures Settles(a, b, others, 1, dest, content)
  {
  }

  lemma KeptSame(a: FileSystem)
    ensures Kept(a, a)
  {
  }

  lemma SidecarsStayCurrent(a: FileSystem, b: FileSystem, j: Job)
    requires Kept(a, b) && JobCanRun(a, j)
    ensures AllCurrent(b, [j.main] + j.sidecars)
  {
    assert Staged(j.main, j.sidecars)[0] == j.main;
  }

  // ----- The whole backup -----

  /** shutil.rmtree with its directory sync */
  method RemoveTree(h: Host, root: Path) returns (r: Outcome)
    requires h.Valid()
    modifies h`fs, h`faults
    ensures h.Valid() && (old(h.faults) == [] ==> h.faults == [] && r.Success?)
    ensures h.fs == old(h.fs) || h.fs == Removed(old(h.fs), root)
    ensures r.Success? ==> h.fs == Removed(old(h.fs), root)
  {
    var bad := h.Fault();
    if bad {
      return Failure(TemporaryCleanupFailed);
    }
    h.fs := Removed(h.fs, root);
    bad := h.Fault();
    return if bad then Failure(TemporaryCleanupFailed) else Success(());
  }

  lemma KeptRemoved(a: FileSystem, b: FileSystem, root: Path)
    requires Kept(a, b) && forall p :: p in a ==> !(root <= p)
    ensures Kept(a, Removed(b, root))
  {
  }

  /** What is left once the staging directory is gone again. */
  lemma DoneAfterRemoval(a: FileSystem, dir: Node, clean: FileSystem, j: Job, staging: Path)
    requires forall p :: p in a ==> !(staging <= p)
    requires staging != [] && j.dest != [] && Parent(staging) == Parent(j.dest) && !(staging <= j.dest)
    requires DoneBesides(a[staging := dir], clean, j, staging) && JobContent(a[staging := dir], j) == JobContent(a, j)
    ensures Removed(clean, staging) == a || JobDone(a, Removed(clean, staging), j)
  {
    hide JobContent, FileMetadata;
    var final, withDir := Removed(clean, staging), a[staging := dir];
    if GrownBeneath(withDir, clean, staging) {
      RemovedGrown(a, dir, clean, staging);
    } else {
      var rest := clean - {j.dest};
      RemovedGrown(a, dir, rest, staging);
      assert clean == rest[j.dest := clean[j.dest]];
      assert final == Removed(rest, staging)[j.dest := clean[j.dest]];
    }
  }

  lemma RemovedGrown(a: FileSystem, dir: Node, b: FileSystem, staging: Path)
    requires forall p :: p in a ==> !(staging <= p)
    requires GrownBeneath(a[staging := dir], b, staging)
    ensures Removed(b, staging) == a
  {
    var withDir := a[staging := dir];
    forall p | p in a ensures p in b && b[p] == a[p] {
      assert p in withDir && withDir[p] == a[p];
    }
    forall p | p in Removed(b, staging) ensures p in a {
      assert p in withDir;
    }
  }

  lemma StagingChangesNothing(a: FileSystem, dir: Node, j: Job, uuid: nat, staging: Path)
    requires JobNamed(j, uuid) && !NamesBelow(staging, uuid) && dir.Dir?
    ensures JobContent(a[staging := dir], j) == JobContent(a, j)
    ensures JobCanRun(a, j) ==> JobCanRun(a[staging := dir], j)
  {
    var b, side := a[staging := dir], WithoutShm(j.sidecars);
    WithoutShmMembers(j.sidecars);
    StagedNamed(j, uuid);
    forall i | 0 <= i < |side| ensures side[i].path != staging {
      assert Staged(j.main, j.sidecars)[i + 1] == side[i];
    }
    assert ReadAt(b, PathsOf(side)) == ReadAt(a, PathsOf(side));
  }

  /** _cleanup_sqlite_temporary: the made-up file, then the staging tree; a
      failure of one does not stop the other. */
  method CleanupTemporary(h: Host, t: Path, staging: Path, ghost start: FileSystem, ghost clean: FileSystem) returns (ok: bool)
    requires h.Valid() && Kept(start, h.fs) && Kept(start, clean) && forall p :: p in start ==> !(staging <= p)
    requires if t in h.fs then h.fs[t].File? && Unlinked(h.fs, t) == clean else h.fs == clean
    modifies h`fs, h`faults, h`residue
    ensures h.Valid() && Kept(start, h.fs) && (old(h.residue) ==> h.residue)
    ensures ok ==> h.fs == Removed(clean, staging)
    ensures !ok ==> h.residue
    ensures old(h.faults) == [] ==> h.faults == [] && ok
    ensures ok ==> h.residue == old(h.residue)
  {
    hide Unlinked, Removed, Kept;
    var unlinked := h.UnlinkAndSync(t);
    KeptRemoved(start, h.fs, staging);
    var removed := RemoveTree(h, staging);
    ok := unlinked.Success? && removed.Success?;
    if !ok {
      h.residue := true;
    }
  }

  /** sqlite_backup once its staging directory exists. `start` is the file
      system before that. */
  method BackUpAndCleanUp(h: Host, j: Job, staging: Path, t: Path, ghost start: FileSystem, ghost alone: bool,
                          ghost ino: int, ghost uuid: nat)
    returns (r: Outcome)
    requires h.Valid() && h.nextIno == ino && uuid <= h.nextUuid && h.OthersNumbered(ino, uuid) && JobNamed(j, uuid)
    requires staging in h.fs && h.fs[staging].Dir? && NamesBelow(staging, h.nextUuid) && !NamesBelow(staging, uuid)
    requires forall p :: p in h.fs && staging <= p ==> p == staging
    requires t !in h.fs && NamesBelow(t, h.nextUuid) && t != j.dest && !(staging <= t) && t != [] && Parent(t) == Parent(j.dest)
    requires staging != [] && j.dest != [] && Parent(staging) == Parent(j.dest)
    requires Kept(start, h.fs) && !(staging <= j.dest) && forall p :: p in start ==> !(staging <= p)
    requires alone ==> h.others == [] && h.fs == start[staging := h.fs[staging]]
    modifies h`fs, h`nextIno, h`faults, h`others, h`residue
    ensures h.Valid() && Kept(start, h.fs) && (old(h.residue) ==> h.residue)
    ensures (old(h.faults) == [] ==> h.faults == []) && (old(h.others) == [] ==> h.others == [])
    ensures r.Success? ==> j.dest in h.fs && FileMetadata(h.fs[j.dest], j.owner, j.group, RUNTIME_FILE_MODE)
    ensures r.Success? ==> JobContent(old(h.fs), j).Some? && Settles(old(h.fs), h.fs, old(h.others), 1, j.dest, JobContent(old(h.fs), j).value)
    ensures alone && !h.residue ==> h.fs == start || JobDone(start, h.fs, j)
    ensures old(h.faults) == [] ==> h.residue == old(h.residue)
    ensures alone && old(h.faults) == [] && JobCanRun(start, j) ==> r.Success?
  {
    hide NamesBelow, Numbered, JobCanRun, JobContent, Unlinked, Removed, DoneBesides, JobDone, Kept, FileMetadata, Settles;
    ghost var withDir := h.fs;
    StagingChangesNothing(start, withDir[staging], j, uuid, staging);
    ghost var clean: FileSystem;
    r, clean := BackUpAndLink(h, j, staging, t, ino, uuid);
    KeptTransitive(start, withDir, clean);
    KeptTransitive(start, withDir, h.fs);
    if alone {
      DoneAfterRemoval(start, withDir[staging], clean, j, staging);
    }
    RemovedElsewhere(clean, staging, j.dest);
    var cleaned := CleanupTemporary(h, t, staging, start, clean);
    if !cleaned && r.Success? {
      r := Failure(TemporaryCleanupFailed);
    }
    if r.Success? {
      SettlesSame(withDir, clean, h.fs, old(h.others), j.dest, JobContent(withDir, j).value);
    }
  }

  lemma SettlesSame(a: FileSystem, b: FileSystem, c: FileSystem, others: seq<FileSystem>, dest: Path, content: Content)
    requires Settles(a, b, others, 1, dest, content) && dest in c && dest in b && c[dest] == b[dest]
    ensures Settles(a, c, others, 1, dest, content)
  {
  }

  /** With a point where others may act before that. */
  lemma SettlesTwice(a: FileSystem, b: FileSystem, others: seq<FileSystem>, dir: Node, staging: Path, dest: Path, content: Content)
    requires staging != dest
    requires Settles(Joined(a, others)[staging := dir], b, Rest(others), 1, dest, content)
    ensures Settles(a, b, others, 2, dest, content)
  {
    JoinedAt(a, others, dest);
  }

  /** sqlite_backup: it publishes the backup of the database as it stands, or
      nothing; no entry that was there is touched, and unless a cleanup step
      fails no made-up name is left. */
  method SqliteBackup(h: Host, name: string, j: Job) returns (r: Outcome)
    requires h.Valid() && JobNamed(j, h.nextUuid)
    modifies h`fs, h`nextIno, h`nextUuid, h`faults, h`others, h`residue
    ensures h.Valid() && Kept(old(h.fs), h.fs) && (old(h.residue) ==> h.residue) && old(h.nextUuid) <= h.nextUuid
    ensures (old(h.faults) == [] ==> h.faults == []) && (old(h.others) == [] ==> h.others == [])
    ensures r.Success? ==> j.dest in h.fs && FileMetadata(h.fs[j.dest], j.owner, j.group, RUNTIME_FILE_MODE)
    ensures r.Success? ==> var seen := Joined(old(h.fs), old(h.others));
      JobContent(seen, j).Some? && Settles(old(h.fs), h.fs, old(h.others), 2, j.dest, JobContent(seen, j).value)
    ensures old(h.others) == [] && !h.residue ==> h.fs == old(h.fs) || JobDone(old(h.fs), h.fs, j)
    ensures old(h.Quiet()) ==> h.residue == old(h.residue)
    ensures old(h.Quiet() && JobCanRun(h.fs, j)) ==> r.Success?
  {
    ghost var uuid, ino, start := h.nextUuid, h.nextIno, h.fs;
    var staging := Parent(j.dest) + [Staging(name, h.nextUuid)];
    var t := Parent(j.dest) + [Temporary(name, h.nextUuid)];
    StagingIsNew(start, h.nextIno, h.nextUuid, j.dest, name);
    TemporaryIsNew(start, h.nextIno, h.nextUuid, j.dest, name);
    h.Renumber(h.nextIno, h.nextUuid + 1);
    h.nextUuid := h.nextUuid + 1;
    ghost var seen := Joined(start, h.others);
    StagingUnseen(start, h.others, ino, uuid, staging);
    hide NamesBelow, Numbered, JobNamed, JobDone, Kept, AddedNumbered, FileMetadata, Settles, Joined, Rest;
    CanMakeStaging(start, j, staging);
    hide JobCanRun;
    r := h.EnsureDirectory(staging, h.uid, h.gid, PRIVATE_DIRECTORY_MODE, ino, uuid);
    if r.Failure? {
      return;
    }
    OnlyNewBeneath(start, h.fs, staging, t, ino, uuid);
    ghost var dir := h.fs[staging];
    StagingChangesNothing(seen, dir, j, uuid, staging);
    r := BackUpAndCleanUp(h, j, staging, t, start, old(h.others) == [], ino, uuid);
    if r.Success? {
      SettlesTwice(start, h.fs, old(h.others), dir, staging, j.dest, JobContent(seen, j).value);
    }
  }

  /** No other process uses the made-up name. */
  lemma StagingUnseen(fs: FileSystem, others: seq<FileSystem>, ino: int, uuid: nat, staging: Path)
    requires Numbered(fs, ino, uuid) && !NamesBelow(staging, uuid)
    requires forall k :: 0 <= k < |others| ==> Numbered(others[k], ino, uuid)
    ensures staging !in Joined(fs, others)
  {
  }

  lemma CanMakeStaging(fs: FileSystem, j: Job, staging: Path)
    requires staging != [] && j.dest != [] && Parent(staging) == Parent(j.dest) && staging !in fs
    ensures forall node :: JobCanRun(fs, j) ==> DirectoryCanBe(fs, staging, node)
  {
  }

  lemma RemovedElsewhere(fs: FileSystem, root: Path, p: Path)
    requires !(root <= p)
    ensures p in fs ==> p in Removed(fs, root) && Removed(fs, root)[p] == fs[p]
  {
  }

  /** Other processes' names are not under a made-up name of this one. */
  lemma OnlyNewBeneath(a: FileSystem, b: FileSystem, staging: Path, t: Path, ino: int, uuid: nat)
    requires AddedNumbered(a, b - {staging}, ino, uuid) && !NamesBelow(staging, uuid) && !NamesBelow(t, uuid) && t != staging
    requires t !in a && forall p :: p in a ==> !(staging <= p)
    ensures forall p :: p in b && staging <= p ==> p == staging
    ensures t !in b
  {
    forall p | p in b && staging <= p ensures p == staging {
      if p != staging {
        assert p in b - {staging};
        NotBeneathNew(p, staging, uuid);
      }
    }
    assert t in b ==> t in b - {staging};
  }

  lemma StagingIsNew(fs: FileSystem, ino: int, uuid: nat, dest: Path, name: string)
    requires Numbered(fs, ino, uuid) && dest != [] && NamesBelow(dest, uuid)
    ensures var s := Parent(dest) + [Staging(name, uuid)];
      && s != [] && Parent(s) == Parent(dest) && NamesBelow(s, uuid + 1) && !NamesBelow(s, uuid)
      && (forall p :: p in fs ==> !(s <= p)) && !(s <= dest)
      && var t := Parent(dest) + [Temporary(name, uuid)];
         !(s <= t) && t != s && !NamesBelow(t, uuid)
  {
    var s := Parent(dest) + [Staging(name, uuid)];
    assert s[|s| - 1] in s;
    assert forall n :: n in Parent(dest) ==> n in dest;
    forall p | p in fs ensures !(s <= p) {
      NotBeneathNew(p, s, uuid);
    }
    NotBeneathNew(dest, s, uuid);
    var t := Parent(dest) + [Temporary(name, uuid)];
    assert t[|t| - 1] != s[|s| - 1] && t[|t| - 1] in t;
  }
}
