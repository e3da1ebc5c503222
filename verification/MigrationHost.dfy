/** The mutating primitives of docker/_systemd_migration_fs.py on a host where
    any system call may fail and other processes may create files meanwhile. */
module MigrationHost {
  import opened Wrappers
  import opened MigrationModel

  type Outcome = Result<(), Reason>

  const READ_CHUNK_SIZE := 0x10_0000

  datatype LinkOutcome = NewLink | NameTaken | LinkError

  /** No entry of a is changed or removed in b. */
  ghost predicate Kept(a: FileSystem, b: FileSystem) {
    forall p :: p in a ==> p in b && b[p] == a[p]
  }

  lemma KeptTransitive(a: FileSystem, b: FileSystem, c: FileSystem)
    requires Kept(a, b) && Kept(b, c)
    ensures Kept(a, c)
  {
  }

  lemma KeptAt(a: FileSystem, b: FileSystem, p: Path)
    requires Kept(a, b) && p in a
    ensures p in b && b[p] == a[p]
  {
  }

  lemma KeptIntro(a: FileSystem, p: Path, node: Node)
    requires p !in a
    ensures Kept(a, a[p := node])
  {
  }

  lemma KeptAbsent(a: FileSystem, b: FileSystem, p: Path)
    requires Kept(a, b) && p !in b
    ensures p !in a
  {
  }

  lemma KeptAround(a: FileSystem, b: FileSystem, p: Path, node: Node)
    requires Kept(a, b) && p !in a
    ensures Kept(a, b[p := node]) && Kept(a, b - {p})
  {
  }

  /** The file a snapshot was taken of is still there. */
  predicate Current(fs: FileSystem, s: Snapshot) {
    && s.path in fs && fs[s.path].File?
    && var node := fs[s.path];
       && node.ino == s.ino && |node.content| == s.size && node.mtime == s.mtime && node.nlink == 1
       && (s.digest.Some? ==> s.digest.value == node.content)
  }

  /** Every made-up name in p comes from a uuid before the given one. */
  predicate NamesBelow(p: Path, uuid: nat) {
    forall n | n in p :: n.Plain? || n.uuid < uuid
  }

  ghost predicate Numbered(fs: FileSystem, ino: int, uuid: nat) {
    forall p :: p in fs ==> NamesBelow(p, uuid) && (fs[p].File? ==> fs[p].ino < ino)
  }

  ghost predicate AddedNumbered(a: FileSystem, b: FileSystem, ino: int, uuid: nat) {
    forall p :: p in b && p !in a ==> NamesBelow(p, uuid) && (b[p].File? ==> b[p].ino < ino)
  }

  lemma AddedWithout(a: FileSystem, b: FileSystem, p: Path, ino: int, uuid: nat)
    requires AddedNumbered(a, b, ino, uuid)
    ensures AddedNumbered(a, b - {p}, ino, uuid)
  {
  }

  lemma InosBelow(fs: FileSystem, ino: int, uuid: nat)
    requires Numbered(fs, ino, uuid)
    ensures forall p :: p in fs && fs[p].File? ==> fs[p].ino < ino
  {
  }

  lemma NumberedWithOthers(a: FileSystem, b: FileSystem, ino: int, uuid: nat, ino0: int, uuid0: nat)
    requires Numbered(a, ino, uuid) && Kept(a, b) && AddedNumbered(a, b, ino0, uuid0) && ino0 <= ino && uuid0 <= uuid
    ensures Numbered(b, ino, uuid)
    ensures forall p :: p in b && p !in a && b[p].File? ==> b[p].ino < ino0
  {
  }

  lemma InosOfBase(a: FileSystem, b: FileSystem, t: Path, ino: int, uuid: nat)
    requires Kept(a, b) && AddedNumbered(a, b, ino, uuid) && t in a && a[t].File? && ino <= a[t].ino
    requires forall p :: p in a && p != t && a[p].File? ==> a[p].ino < a[t].ino
    ensures forall p :: p in b && p != t && b[p].File? ==> b[p].ino < a[t].ino
  {
  }

  lemma NumberedUpdate(fs: FileSystem, p: Path, node: Node, ino: int, uuid: nat)
    requires Numbered(fs, ino, uuid) && NamesBelow(p, uuid) && (node.File? ==> node.ino < ino)
    ensures Numbered(fs[p := node], ino, uuid)
    ensures Numbered(fs - {p}, ino, uuid)
  {
  }

  /** The made-up name beside dest is used nowhere yet. */
  lemma TemporaryIsNew(fs: FileSystem, ino: int, uuid: nat, dest: Path, name: string)
    requires Numbered(fs, ino, uuid) && dest != [] && NamesBelow(dest, uuid)
    ensures var t := Parent(dest) + [Temporary(name, uuid)];
      t !in fs && t != dest && Parent(t) == Parent(dest) && NamesBelow(t, uuid + 1)
  {
    var t := Parent(dest) + [Temporary(name, uuid)];
    assert t[|t| - 1] in t;
    assert !NamesBelow(t, uuid);
    assert forall n :: n in Parent(dest) ==> n in dest;
  }

  /** unlink: the name goes, and the other names of the inode count one link less. */
  function Unlinked(fs: FileSystem, path: Path): FileSystem
    requires path in fs && fs[path].File?
  {
    var ino := fs[path].ino;
    map p | p in fs && p != path ::
      if fs[p].File? && fs[p].ino == ino && fs[p].nlink > 0 then fs[p].(nlink := fs[p].nlink - 1) else fs[p]
  }

  /** b has one more file than a, with the given new inode. */
  ghost predicate Begun(a: FileSystem, b: FileSystem, p: Path, ino: int) {
    && p !in a && p in b && b == a[p := b[p]]
    && b[p].File? && b[p].nlink == 1 && b[p].ino == ino
  }

  lemma StillBegun(a: FileSystem, b: FileSystem, p: Path, ino: int, node: Node)
    requires Begun(a, b, p, ino) && node.File? && node.nlink == 1 && node.ino == ino
    ensures Begun(a, b[p := node], p, ino)
  {
    assert b[p := node] == a[p := node];
  }

  /** link: one more name for the inode */
  function Linked(fs: FileSystem, path: Path, dest: Path): FileSystem
    requires path in fs && fs[path].File?
  {
    var node := fs[path].(nlink := fs[path].nlink + 1);
    fs[path := node][dest := node]
  }

  ghost predicate DirectoryMade(a: FileSystem, b: FileSystem, path: Path, node: Node) {
    path !in a && InDirectory(a, path) && b == a[path := node]
  }

  predicate DirectoryCanBe(fs: FileSystem, path: Path, node: Node) {
    if path in fs then fs[path] == node else InDirectory(fs, path)
  }

  lemma UnlinkAlone(fs: FileSystem, t: Path, node: Node)
    requires node.File? && t !in fs && forall p :: p in fs && fs[p].File? ==> fs[p].ino < node.ino
    ensures Unlinked(fs[t := node], t) == fs
  {
  }

  /** Linking a new file to dest and unlinking its made-up name leaves dest
      with one link and everything else as it was. */
  lemma UnlinkAfterLink(fs: FileSystem, t: Path, dest: Path, node: Node)
    requires node.File? && node.nlink == 1 && t !in fs && dest !in fs && t != dest
    requires forall p :: p in fs && fs[p].File? ==> fs[p].ino < node.ino
    ensures var linked := node.(nlink := 2);
      Unlinked(fs[t := linked][dest := linked], t) == fs[dest := node]
  {
  }

  predicate FileCanBe(fs: FileSystem, p: Path, owner: int, group: int, mode: bv16) {
    p in fs ==> FileMetadata(fs[p], owner, group, mode)
  }

  predicate CanPublish(fs: FileSystem, s: Snapshot, dest: Path, owner: int, group: int, mode: bv16) {
    InDirectory(fs, dest) && Current(fs, s) && FileCanBe(fs, dest, owner, group, mode)
  }

  /** dest is new in b with the given content, and nothing else differs. */
  ghost predicate PublishedAs(a: FileSystem, b: FileSystem, content: Content, dest: Path, owner: int, group: int, mode: bv16) {
    && dest !in a && InDirectory(a, dest) && dest in b && b == a[dest := b[dest]]
    && FileMetadata(b[dest], owner, group, mode) && b[dest].content == content
  }

  /** dest is new in b and holds what a has at source. */
  ghost predicate Published(a: FileSystem, b: FileSystem, source: Path, dest: Path, owner: int, group: int, mode: bv16) {
    source in a && a[source].File? && PublishedAs(a, b, a[source].content, dest, owner, group, mode)
  }

  /** What other processes create, at names that are free, at the next point where
      they may act. */
  function Joined(fs: FileSystem, others: seq<FileSystem>): FileSystem {
    if others == [] then fs
    else map p | p in fs.Keys + others[0].Keys :: if p in fs then fs[p] else others[0][p]
  }

  function Rest(others: seq<FileSystem>): seq<FileSystem> {
    if others == [] then [] else others[1..]
  }

  /** What the first other process to do so puts at p, at one of the next n points. */
  function RacedBy(others: seq<FileSystem>, n: nat, p: Path): Option<Node> {
    if n == 0 || others == [] then None
    else if p in others[0] then Some(others[0][p])
    else RacedBy(others[1..], n - 1, p)
  }

  /** What is at dest in the end: what was there in a; or else what another process
      was first to put there; or else a file with the given content. */
  ghost predicate Settles(a: FileSystem, b: FileSystem, others: seq<FileSystem>, n: nat, dest: Path, content: Content) {
    && dest in b && b[dest].File?
    && if dest in a then b[dest] == a[dest]
       else if RacedBy(others, n, dest).Some? then b[dest] == RacedBy(others, n, dest).value
       else b[dest].content == content
  }

  lemma JoinedAt(fs: FileSystem, others: seq<FileSystem>, p: Path)
    ensures p in Joined(fs, others) <==> p in fs || RacedBy(others, 1, p).Some?
    ensures p in Joined(fs, others) ==> Joined(fs, others)[p] == if p in fs then fs[p] else RacedBy(others, 1, p).value
  {
    assert others != [] ==> RacedBy(others[1..], 0, p) == None;
  }

  lemma SettlesEither(before: FileSystem, t: Path, node: Node, others: seq<FileSystem>, clean: FileSystem, dest: Path, linked: bool)
    requires t != dest && dest in clean && clean[dest].File? && node.File?
    requires linked ==> clean[dest] == node && dest !in Joined(before[t := node], others)
    requires !linked ==> dest in Joined(before[t := node], others) && clean[dest] == Joined(before[t := node], others)[dest]
    ensures Settles(before, clean, others, 1, dest, node.content)
  {
    JoinedAt(before[t := node], others, dest);
  }

  lemma MetadataIsFile(node: Node, owner: int, group: int, mode: bv16)
    requires FileMetadata(node, owner, group, mode)
    ensures node.File?
  {
  }

  class Host {
    var fs: FileSystem
    /** The next inode number and uuid the system hands out. */
    var nextIno: int
    var nextUuid: nat
    var clock: int
    const uid: int
    const gid: int
    /** How much, beyond one byte, a read or a write takes at a position of the
        copy with the given inode number. */
    const readSizes: (int, nat) -> nat
    const writeSizes: (int, nat) -> nat
    /** Whether each coming system call fails; an exhausted schedule fails nothing. */
    var faults: seq<bool>
    /** What other processes create at each coming point of interference. */
    var others: seq<FileSystem>
    /** Set when a cleanup step itself fails and leaves something behind. */
    ghost var residue: bool

    constructor (fs: FileSystem, nextIno: int, nextUuid: nat, clock: int, uid: int, gid: int,
                 readSize: (int, nat) -> nat, writeSize: (int, nat) -> nat, faults: seq<bool>, others: seq<FileSystem>)
      ensures this.fs == fs && this.nextIno == nextIno && this.nextUuid == nextUuid && this.clock == clock
      ensures this.uid == uid && this.gid == gid && readSizes == readSize && writeSizes == writeSize
      ensures this.faults == faults && this.others == others && !residue
    {
      readSizes, writeSizes := readSize, writeSize;
      this.fs, this.nextIno, this.nextUuid, this.clock := fs, nextIno, nextUuid, clock;
      this.uid, this.gid, this.faults, this.others := uid, gid, faults, others;
      residue := false;
    }

    /** Inode numbers and uuids not handed out yet are in use nowhere. */
    ghost predicate Valid()
      reads this
    {
      Numbered(fs, nextIno, nextUuid) && OthersNumbered(nextIno, nextUuid)
    }

    ghost predicate OthersNumbered(ino: int, uuid: nat)
      reads `others
    {
      forall k :: 0 <= k < |others| ==> Numbered(others[k], ino, uuid)
    }

    lemma OthersLater(ino: int, uuid: nat, ino': int, uuid': nat)
      requires OthersNumbered(ino, uuid) && ino <= ino' && uuid <= uuid'
      ensures OthersNumbered(ino', uuid')
    {
    }

    lemma Renumber(ino: int, uuid: nat)
      requires Valid() && nextIno <= ino && nextUuid <= uuid
      ensures Numbered(fs, ino, uuid) && OthersNumbered(ino, uuid)
    {
    }

    /** Nothing fails and nobody interferes. */
    predicate Quiet()
      reads this
    {
      faults == [] && others == []
    }

    method Fault() returns (bad: bool)
      modifies `faults
      ensures old(faults) == [] ==> !bad && faults == []
      ensures old(faults) != [] ==> bad == old(faults)[0] && faults == old(faults)[1..]
    {
      bad := false;
      if faults != [] {
        bad, faults := faults[0], faults[1..];
      }
    }

    /** Another process creates files at names that are free. */
    method Interfere(ghost ino: int, ghost uuid: nat)
      requires OthersNumbered(ino, uuid)
      modifies `fs, `others
      ensures OthersNumbered(ino, uuid) && Kept(old(fs), fs) && AddedNumbered(old(fs), fs, ino, uuid)
      ensures fs == Joined(old(fs), old(others)) && others == Rest(old(others))
      ensures old(others) == [] ==> fs == old(fs) && others == []
    {
      fs, others := Joined(fs, others), Rest(others);
    }

    /** copy_snapshot_to_new, with its exclusive create. A failed copy may
        leave a partial file for the caller to remove. */
    method CopyToNew(s: Snapshot, dest: Path, owner: int, group: int, mode: bv16, preserveMtime: bool) returns (r: Outcome)
      requires Valid() && NamesBelow(dest, nextUuid)
      modifies `fs, `nextIno, `faults
      ensures Valid() && old(nextIno) <= nextIno && (old(faults) == [] ==> faults == [])
      ensures fs == old(fs) || Begun(old(fs), fs, dest, old(nextIno))
      ensures r.Success? ==> dest !in old(fs) && dest in fs && InDirectory(fs, dest) && Current(old(fs), s)
      ensures r.Success? ==> fs[dest] == File(old(nextIno), old(fs)[s.path].content, owner, group, mode, 1,
                                              if preserveMtime then s.mtime else clock)
      ensures old(faults) == [] && dest !in old(fs) && InDirectory(old(fs), dest) && Current(old(fs), s) ==> r.Success?
    {
      hide Numbered, NamesBelow;
      var bad := Fault();
      if bad || dest in fs || !InDirectory(fs, dest) {
        return Failure(TargetWriteFailed);
      }
      Renumber(nextIno + 1, nextUuid);
      var ino := nextIno;
      nextIno := nextIno + 1;
      NumberedUpdate(fs, dest, File(ino, [], uid, gid, mode, 1, clock), nextIno, nextUuid);
      ghost var base := fs;
      fs := fs[dest := File(ino, [], uid, gid, mode, 1, clock)];
      assert Begun(base, fs, dest, ino);
      bad := Fault();
      hide Begun;
      if bad || !(s.path in fs && fs[s.path].File? && s.path != dest) {
        return Failure(SourceChanged);
      }
      var source := fs[s.path];
      if source.ino != s.ino || |source.content| != s.size || source.mtime != s.mtime || source.nlink != 1 {
        return Failure(SourceChanged);
      }
      label copying:
      r := CopyDescriptor(source.content, dest);
      StillBegun(base, old@copying(fs), dest, ino, fs[dest]);
      if r.Failure? {
        return;
      }
      if s.digest.Some? && s.digest.value != source.content {
        return Failure(SourceChanged);
      }
      r := OwnCopy(dest, owner, group, mode, if preserveMtime then Some(s.mtime) else None, base, ino);
    }

    /** The metadata of the new copy, and its last fsync. */
    method OwnCopy(dest: Path, owner: int, group: int, mode: bv16, mtime: Option<int>, ghost base: FileSystem, ghost ino: int) returns (r: Outcome)
      requires Valid() && NamesBelow(dest, nextUuid) && Begun(base, fs, dest, ino) && ino < nextIno
      modifies `fs, `faults
      ensures Valid() && (old(faults) == [] ==> faults == [] && r.Success?)
      ensures Begun(base, fs, dest, ino)
      ensures r.Success? ==> fs[dest] == old(fs)[dest].(uid := owner, gid := group, mode := mode,
                                                        mtime := if mtime.Some? then mtime.value else old(fs)[dest].mtime)
    {
      hide Numbered, NamesBelow;
      var bad := Fault();
      if bad {
        return Failure(TargetWriteFailed);
      }
      var owned := fs[dest].(uid := owner, gid := group, mode := mode);
      NumberedUpdate(fs, dest, owned, nextIno, nextUuid);
      StillBegun(base, fs, dest, ino, owned);
      fs := fs[dest := owned];
      if mtime.Some? {
        bad := Fault();
        if bad {
          return Failure(TargetWriteFailed);
        }
        NumberedUpdate(fs, dest, owned.(mtime := mtime.value), nextIno, nextUuid);
        StillBegun(base, fs, dest, ino, owned.(mtime := mtime.value));
        fs := fs[dest := owned.(mtime := mtime.value)];
      }
      bad := Fault();
      if bad {
        return Failure(TargetWriteFailed);
      }
      return Success(());
    }

    /** The inner loop of _copy_descriptor: one chunk, by writes that may be
        short or fail. */
    method WriteChunk(content: Content, start: nat, end: nat, dest: Path) returns (r: Outcome)
      requires Valid() && start <= end <= |content|
      requires dest in fs && fs[dest].File? && fs[dest].content == content[..start]
      modifies `fs, `faults
      ensures Valid() && (old(faults) == [] ==> faults == [] && r.Success?)
      ensures dest in fs && fs[dest].File? && fs == old(fs)[dest := old(fs)[dest].(content := fs[dest].content)]
      ensures fs[dest].content <= content
      ensures r.Success? ==> fs[dest].content == content[..end]
    {
      var at := start;
      while at < end
        invariant start <= at <= end && Valid()
        invariant old(faults) == [] ==> faults == []
        invariant dest in fs && fs == old(fs)[dest := old(fs)[dest].(content := content[..at])]
      {
        var bad := Fault();
        if bad {
          return Failure(TargetWriteFailed);
        }
        var size := 1 + writeSizes(fs[dest].ino, at);
        at := if size < end - at then at + size else end;
        fs := fs[dest := fs[dest].(content := content[..at])];
      }
      return Success(());
    }

    /** _copy_descriptor: chunks as the reads deliver them, each written by
        the inner loop */
    method CopyDescriptor(content: Content, dest: Path) returns (r: Outcome)
      requires Valid() && dest in fs && fs[dest].File? && fs[dest].content == []
      modifies `fs, `faults
      ensures Valid() && (old(faults) == [] ==> faults == [] && r.Success?)
      ensures dest in fs && fs[dest].File? && fs == old(fs)[dest := old(fs)[dest].(content := fs[dest].content)]
      ensures fs[dest].content <= content
      ensures r.Success? ==> fs[dest].content == content
    {
      var total := 0;
      while total < |content|
        invariant total <= |content| && Valid()
        invariant old(faults) == [] ==> faults == []
        invariant dest in fs && fs == old(fs)[dest := old(fs)[dest].(content := content[..total])]
      {
        var bad := Fault();
        if bad {
          return Failure(TargetWriteFailed);
        }
        var size := 1 + readSizes(fs[dest].ino, total);
        var chunk := if size < READ_CHUNK_SIZE then size else READ_CHUNK_SIZE;
        var end := if chunk < |content| - total then total + chunk else |content|;
        r := WriteChunk(content, total, end, dest);
        if r.Failure? {
          return;
        }
        total := end;
      }
      assert content[..total] == content;
      return Success(());
    }

    /** unlink_and_sync(missing_ok=True) of a file */
    method UnlinkAndSync(path: Path) returns (r: Outcome)
      requires Valid() && (path in fs ==> fs[path].File?)
      modifies `fs, `faults
      ensures Valid() && (old(faults) == [] ==> faults == [] && r.Success?)
      ensures path !in old(fs) ==> fs == old(fs) && r.Success?
      ensures path in old(fs) ==> fs == old(fs) || fs == Unlinked(old(fs), path)
      ensures r.Success? && path in old(fs) ==> fs == Unlinked(old(fs), path)
    {
      if path !in fs {
        return Success(());
      }
      var bad := Fault();
      if bad {
        return Failure(SystemError);
      }
      fs := Unlinked(fs, path);
      bad := Fault();
      if bad {
        return Failure(SystemError);
      }
      return Success(());
    }

    /** ensure_directory: an existing one must match, a new one is created with
        its metadata or, failing that, removed again. */
    method EnsureDirectory(path: Path, owner: int, group: int, mode: bv16, ghost ino: int, ghost uuid: nat) returns (r: Outcome)
      requires Valid() && OthersNumbered(ino, uuid) && ino <= nextIno && uuid <= nextUuid
      requires NamesBelow(path, nextUuid)
      modifies `fs, `faults, `others, `residue
      ensures OthersNumbered(ino, uuid) && AddedNumbered(old(fs), fs - {path}, ino, uuid)
      ensures Valid() && Kept(old(fs), fs) && (old(residue) ==> residue)
      ensures (old(faults) == [] ==> faults == []) && (old(others) == [] ==> others == [])
      ensures r.Success? ==> path in fs && fs[path] == Dir(owner, group, mode)
      ensures old(others) == [] && !residue ==> fs == old(fs) || DirectoryMade(old(fs), fs, path, Dir(owner, group, mode))
      ensures path !in old(fs) && old(others) == [] && !residue && r.Failure? ==> fs == old(fs)
      ensures path !in old(fs) && old(others) == [] && r.Success? ==> fs == old(fs)[path := Dir(owner, group, mode)]
      ensures r.Success? && path !in Joined(old(fs), old(others)) ==> fs == Joined(old(fs), old(others))[path := Dir(owner, group, mode)]
      ensures others == Rest(old(others))
      ensures old(Quiet()) ==> residue == old(residue)
      ensures old(Quiet()) && DirectoryCanBe(old(fs), path, Dir(owner, group, mode)) ==> r.Success?
    {
      ghost var before := fs;
      Interfere(ino, uuid);
      OthersLater(ino, uuid, nextIno, nextUuid);
      NumberedWithOthers(before, fs, nextIno, nextUuid, ino, uuid);
      hide Numbered, NamesBelow, Joined, Rest;
      if path in fs {
        AddedWithout(before, fs, path, ino, uuid);
        return if fs[path] == Dir(owner, group, mode) then Success(()) else Failure(UnsafeExistingTarget);
      }
      AddedWithout(before, fs, path, ino, uuid);
      assert fs - {path} == fs;
      r := MakeDirectory(path, owner, group, mode);
    }

    method MakeDirectory(path: Path, owner: int, group: int, mode: bv16) returns (r: Outcome)
      requires Valid() && NamesBelow(path, nextUuid) && path !in fs
      modifies `fs, `faults, `residue
      ensures Valid() && (old(residue) ==> residue) && (old(faults) == [] ==> faults == [] && residue == old(residue))
      ensures r.Success? ==> DirectoryMade(old(fs), fs, path, Dir(owner, group, mode))
      ensures r.Failure? && !residue ==> fs == old(fs)
      ensures Kept(old(fs), fs) && fs - {path} == old(fs)
      ensures old(faults) == [] && InDirectory(old(fs), path) ==> r.Success?
    {
      hide Numbered, NamesBelow;
      var base := fs;
      var bad := Fault();
      if bad || !InDirectory(fs, path) {
        return Failure(TargetCreateFailed);
      }
      NumberedUpdate(base, path, Dir(uid, gid, mode), nextIno, nextUuid);
      fs := base[path := Dir(uid, gid, mode)];
      bad := Fault();
      if !bad {
        NumberedUpdate(base, path, Dir(owner, group, mode), nextIno, nextUuid);
        fs := fs[path := Dir(owner, group, mode)];
        assert fs == base[path := Dir(owner, group, mode)];
        bad := Fault();
        if !bad {
          return Success(());
        }
      }
      bad := Fault();
      if bad {
        residue := true;
      } else {
        fs := fs - {path};
        assert fs == base;
      }
      return Failure(TargetMetadataFailed);
    }

    /** normalize_directory_metadata of an FHS root */
    method NormalizeDirectory(path: Path, owner: int, group: int, mode: bv16) returns (r: Outcome)
      requires Valid()
      modifies `fs, `faults
      ensures Valid() && (old(faults) == [] ==> faults == [])
      ensures fs == old(fs) || (path in old(fs) && old(fs)[path].Dir? && old(fs)[path].uid == owner && old(fs)[path].gid == group
                                && old(fs)[path].mode & GROUP_OTHER_WRITE == 0
                                && fs == old(fs)[path := Dir(owner, group, mode)])
      ensures r.Success? ==> path in fs && fs[path] == Dir(owner, group, mode)
      ensures old(faults) == [] && path in old(fs) && NeedsNormalization(old(fs), path, owner, group, mode).Success? ==> r.Success?
    {
      if path !in fs {
        return Failure(UnsafeExistingTarget);
      }
      var needs := NeedsNormalization(fs, path, owner, group, mode);
      if needs.Failure? {
        return Failure(needs.error);
      }
      if !needs.value {
        return Success(());
      }
      var bad := Fault();
      if bad {
        return Failure(TargetMetadataFailed);
      }
      fs := fs[path := Dir(owner, group, mode)];
      bad := Fault();
      if bad {
        return Failure(TargetMetadataFailed);
      }
      return Success(());
    }

    /** The link that publishes: it fails rather than replace a name. */
    method LinkNew(temporary: Path, dest: Path) returns (r: LinkOutcome)
      requires Valid() && temporary in fs && fs[temporary].File? && temporary != dest
      requires NamesBelow(dest, nextUuid)
      modifies `fs, `faults
      ensures Valid() && (old(faults) == [] ==> faults == [])
      ensures !r.NewLink? ==> fs == old(fs)
      ensures r.NewLink? ==> dest !in old(fs) && InDirectory(old(fs), dest) && fs == Linked(old(fs), temporary, dest)
      ensures r.NameTaken? ==> dest in old(fs)
      ensures old(faults) == [] ==> if dest in old(fs) then r.NameTaken? else r.NewLink? == InDirectory(old(fs), dest)
    {
      var bad := Fault();
      if bad {
        return LinkError;
      }
      if dest in fs {
        return NameTaken;
      }
      if !InDirectory(fs, dest) {
        return LinkError;
      }
      fs := Linked(fs, temporary, dest);
      return NewLink;
    }

    /** Link the copied file t to dest if dest is free; `clean` is the file
        system once t is unlinked again. */
    method LinkCopied(t: Path, dest: Path, owner: int, group: int, mode: bv16, ghost base: FileSystem)
      returns (r: Outcome, linked: bool, ghost clean: FileSystem)
      requires Valid() && t !in base && t in fs && fs == base[t := fs[t]] && t != dest && t != [] && NamesBelow(dest, nextUuid)
      requires fs[t].File? && fs[t].nlink == 1 && forall p :: p in base && base[p].File? ==> base[p].ino < fs[t].ino
      requires dest != [] && Parent(t) == Parent(dest)
      modifies `fs, `faults
      ensures Valid() && (old(faults) == [] ==> faults == []) && Kept(base, fs)
      ensures t in fs && fs[t].File? && Unlinked(fs, t) == clean
      ensures linked ==> dest !in base && InDirectory(base, dest) && clean == base[dest := old(fs)[t]]
      ensures !linked ==> clean == base
      ensures r.Success? && !linked ==> dest in base && FileMetadata(base[dest], owner, group, mode)
      ensures old(faults) == [] && InDirectory(base, dest) && FileCanBe(base, dest, owner, group, mode) ==> r.Success?
    {
      hide Unlinked, Numbered, NamesBelow, FileMetadata;
      var node := fs[t];
      var outcome := LinkNew(t, dest);
      linked, clean := outcome.NewLink?, base;
      if linked {
        UnlinkAfterLink(base, t, dest, node);
        assert fs == base[t := node.(nlink := 2)][dest := node.(nlink := 2)];
        clean := base[dest := node];
        var bad := Fault();
        r := if bad then Failure(SystemError) else Success(());
      } else {
        UnlinkAlone(base, t, node);
        r := if outcome.NameTaken? && FileMetadata(fs[dest], owner, group, mode) then Success(())
             else if outcome.NameTaken? then Failure(UnsafeExistingTarget)
             else Failure(SystemError);
      }
    }

    /** Other processes may act first; then t is linked to dest. `before` is the
        file system without t, `clean` what it is once t is unlinked again. */
    method LinkAmidOthers(t: Path, dest: Path, owner: int, group: int, mode: bv16,
                          ghost before: FileSystem, ghost ino: int, ghost uuid: nat)
      returns (r: Outcome, linked: bool, ghost clean: FileSystem)
      requires Valid() && ino <= nextIno && uuid <= nextUuid && OthersNumbered(ino, uuid)
      requires t !in before && t in fs && fs == before[t := fs[t]] && t != dest && t != [] && NamesBelow(dest, nextUuid)
      requires fs[t].File? && fs[t].nlink == 1 && ino <= fs[t].ino
      requires forall p :: p in before && before[p].File? ==> before[p].ino < fs[t].ino
      requires dest != [] && Parent(t) == Parent(dest)
      modifies `fs, `faults, `others
      ensures Valid() && (old(faults) == [] ==> faults == []) && (old(others) == [] ==> others == [])
      ensures Kept(before, fs) && Kept(before, clean)
      ensures t in fs && fs[t].File? && Unlinked(fs, t) == clean
      ensures old(others) == [] ==>
                if linked then dest !in before && InDirectory(before, dest) && clean == before[dest := old(fs)[t]] else clean == before
      ensures linked ==> dest !in before && dest in clean && clean[dest] == old(fs)[t]
      ensures r.Success? && !linked ==> dest in clean && FileMetadata(clean[dest], owner, group, mode)
      ensures r.Success? ==> Settles(before, clean, old(others), 1, dest, old(fs)[t].content)
      ensures old(Quiet()) && InDirectory(before, dest) && FileCanBe(before, dest, owner, group, mode) ==> r.Success?
    {
      hide Unlinked, Numbered, NamesBelow, Kept, FileMetadata, Settles, Joined, Rest;
      ghost var node, written := fs[t], fs;
      KeptIntro(before, t, node);
      Interfere(ino, uuid);
      OthersLater(ino, uuid, nextIno, nextUuid);
      NumberedWithOthers(written, fs, nextIno, nextUuid, ino, uuid);
      KeptAt(written, fs, t);
      KeptTransitive(before, written, fs);
      KeptAround(before, fs, t, node);
      ghost var base := fs - {t};
      assert fs == base[t := node];
      assert old(others) == [] ==> base == before;
      InosOfBase(written, fs, t, ino, uuid);
      r, linked, clean := LinkCopied(t, dest, owner, group, mode, base);
      KeptTransitive(before, base, fs);
      if linked {
        KeptAbsent(before, base, dest);
        KeptAround(before, base, dest, node);
      }
      if r.Success? {
        if !linked {
          MetadataIsFile(clean[dest], owner, group, mode);
        }
        SettlesEither(before, t, node, old(others), clean, dest, linked);
      }
    }

    /** The body of atomic_copy: copy to the made-up name t, then link it. */
    method CopyAndLink(s: Snapshot, t: Path, dest: Path, owner: int, group: int, mode: bv16, ghost ino: int, ghost uuid: nat)
      returns (r: Outcome, linked: bool, ghost clean: FileSystem)
      requires Valid() && nextIno == ino && uuid <= nextUuid && OthersNumbered(ino, uuid)
      requires t !in fs && t != dest && t != [] && dest != [] && Parent(t) == Parent(dest)
      requires NamesBelow(t, nextUuid) && NamesBelow(dest, nextUuid)
      modifies `fs, `nextIno, `faults, `others
      ensures Valid() && Kept(old(fs), clean) && Kept(old(fs), fs)
      ensures (old(faults) == [] ==> faults == []) && (old(others) == [] ==> others == [])
      ensures if t in fs then fs[t].File? && Unlinked(fs, t) == clean else fs == clean
      ensures old(others) == [] ==>
                clean == old(fs) || (Current(old(fs), s) && Published(old(fs), clean, s.path, dest, owner, group, mode))
      ensures linked ==> old(others) == [] ==> Published(old(fs), clean, s.path, dest, owner, group, mode)
      ensures r.Success? && !linked ==> dest in clean && FileMetadata(clean[dest], owner, group, mode)
      ensures r.Success? ==> Current(old(fs), s) && Settles(old(fs), clean, old(others), 1, dest, old(fs)[s.path].content)
      ensures old(Quiet() && CanPublish(fs, s, dest, owner, group, mode)) ==> r.Success?
    {
      hide Unlinked, Numbered, NamesBelow, Settles;
      InosBelow(fs, nextIno, nextUuid);
      linked := false;
      clean := fs;
      r := CopyToNew(s, t, owner, group, mode, false);
      if r.Failure? {
        if t in fs {
          UnlinkAlone(clean, t, fs[t]);
        }
        return;
      }
      r, linked, clean := LinkAmidOthers(t, dest, owner, group, mode, old(fs), ino, uuid);
    }

    /** atomic_copy: copy to a made-up name, link it to dest if dest is free,
        and remove the made-up name whatever happens. A dest that another
        process made meanwhile is accepted with its content. */
    method AtomicCopy(s: Snapshot, name: string, dest: Path, owner: int, group: int, mode: bv16) returns (r: Outcome)
      requires Valid() && dest != [] && NamesBelow(dest, nextUuid)
      modifies `fs, `nextIno, `nextUuid, `faults, `others, `residue
      ensures Valid() && Kept(old(fs), fs) && (old(residue) ==> residue) && old(nextUuid) <= nextUuid
      ensures (old(faults) == [] ==> faults == []) && (old(others) == [] ==> others == [])
      ensures r.Success? ==> dest in fs && FileMetadata(fs[dest], owner, group, mode)
      ensures r.Success? ==> Current(old(fs), s) && Settles(old(fs), fs, old(others), 1, dest, old(fs)[s.path].content)
      ensures old(others) == [] && !residue ==>
                fs == old(fs) || (Current(old(fs), s) && Published(old(fs), fs, s.path, dest, owner, group, mode))
      ensures old(Quiet()) ==> residue == old(residue)
      ensures old(Quiet() && CanPublish(fs, s, dest, owner, group, mode)) ==> r.Success?
    {
      var t := Parent(dest) + [Temporary(name, nextUuid)];
      TemporaryIsNew(fs, nextIno, nextUuid, dest, name);
      ghost var uuid := nextUuid;
      Renumber(nextIno, nextUuid + 1);
      nextUuid := nextUuid + 1;
      var linked: bool;
      ghost var clean: FileSystem;
      r, linked, clean := CopyAndLink(s, t, dest, owner, group, mode, nextIno, uuid);
      hide Unlinked, Settles;
      var cleaned := UnlinkAndSync(t);
      if cleaned.Failure? {
        residue := true;
        return Failure(TemporaryCleanupFailed);
      }
      assert fs == clean;
      if r.Success? && linked {
        if dest !in fs || !FileMetadata(fs[dest], owner, group, mode) {
          return Failure(UnsafeExistingTarget);
        }
        if s.digest.Some? && s.digest.value != fs[dest].content {
          return Failure(TargetVerifyFailed);
        }
      }
    }
  }
}
