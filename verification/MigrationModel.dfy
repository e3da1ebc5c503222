/** The file system of the offline systemd migration and its read-only
    lookups (docker/_systemd_migration_model.py, _systemd_migration_fs.py).

    A path is its list of components. The uuid4 names the code makes up are
    their own constructors, so that they never meet another name. A SHA-256
    digest is represented by the content it was taken from.
 */
module MigrationModel {
  import opened Wrappers

  datatype Name = Plain(text: string) | Temporary(of: string, uuid: nat) | Staging(of: string, uuid: nat)

  type Path = seq<Name>
  type Content = seq<int>

  datatype Node =
    | Dir(uid: int, gid: int, mode: bv16)
    | File(ino: int, content: Content, uid: int, gid: int, mode: bv16, nlink: nat, mtime: int)
    | Link
    | Other

  type FileSystem = map<Path, Node>

  datatype Ownership = Ownership(envUid: int, serviceUid: int, serviceGid: int)

  datatype Snapshot = Snapshot(path: Path, ino: int, size: nat, mtime: int, digest: Option<Content>)

  datatype Artifact = Artifact(name: string, source: Option<Snapshot>, target: Option<Snapshot>)

  datatype Reason =
    | PathUnsafe | PathOverlap | UnsafeSource | UnsafeExistingTarget | SourceChanged
    | EnvironmentMissing | EnvironmentRejected | MandatoryConfigMissing
    | StateUnavailable | OrphanSidecar | UnknownState
    | TargetCreateFailed | TargetWriteFailed | TargetMetadataFailed | TargetVerifyFailed
    | TemporaryCleanupFailed | SqliteBackupFailed | SystemError
    | CachePlanInvalid | CacheVerifyFailed | UntrustedCacheParent | PathUnavailable
    | CachePublishFailed | CachePublishSyncFailed | TargetSyncFailed

  const ENV_FILE_MODE: bv16 := 0x1A0
  const FHS_DIRECTORY_MODE: bv16 := 0x1E8
  const RUNTIME_DIRECTORY_MODE: bv16 := 0x1F8
  const RUNTIME_FILE_MODE: bv16 := 0x1B0
  const PRIVATE_DIRECTORY_MODE: bv16 := 0x1C0
  const PRIVATE_FILE_MODE: bv16 := 0x180
  const GROUP_OTHER_WRITE: bv16 := 0x12

  const CONFIG_FILENAMES: seq<string> := [
    "providers.json", "models_fallback_rules.json", "models_operation_rules.json",
    "models_fusion_rules.json", "models_model_rules.json", "models_router_rules.json"
  ]
  const MANDATORY_CONFIG_FILENAMES: seq<string> := ["providers.json", "models_fallback_rules.json"]
  const KNOWN_DB_FILENAMES: seq<string> := ["tokens_usage.db", "api_keys.db", "llmgateway_rotation.db"]
  const DEAD_LETTER_FILENAME := "tokens_usage.db.dead-letter.jsonl"
  const LOCK_FILENAME := ".llmgateway-single-process.lock"
  const SQLITE_SIDECAR_SUFFIXES: seq<string> := ["-wal", "-shm", "-journal"]

  function Parent(p: Path): Path
    requires p != []
  {
    p[..|p| - 1]
  }

  /** Every entry but the root sits in a directory. */
  ghost predicate WellFormed(fs: FileSystem) {
    forall p :: p in fs && p != [] ==> Parent(p) in fs && fs[Parent(p)].Dir?
  }

  predicate InDirectory(fs: FileSystem, p: Path) {
    p != [] && Parent(p) in fs && fs[Parent(p)].Dir?
  }

  function SnapshotOf(p: Path, node: Node, hash: bool): Snapshot
    requires node.File?
  {
    Snapshot(p, node.ino, |node.content|, node.mtime, if hash then Some(node.content) else None)
  }

  /** regular_snapshot: absent, or a regular file with one link. */
  function RegularSnapshot(fs: FileSystem, p: Path, hash: bool, otherwise: Reason): Result<Option<Snapshot>, Reason> {
    if p !in fs then Success(None)
    else if fs[p].File? && fs[p].nlink == 1 then Success(Some(SnapshotOf(p, fs[p], hash)))
    else Failure(otherwise)
  }

  predicate FileMetadata(node: Node, uid: int, gid: int, mode: bv16) {
    node.File? && node.nlink == 1 && node.uid == uid && node.gid == gid && node.mode == mode
  }

  /** validate_target_file */
  function ValidateTargetFile(fs: FileSystem, p: Path, uid: int, gid: int, mode: bv16, hash: bool): Result<Option<Snapshot>, Reason> {
    if p !in fs then Success(None)
    else if FileMetadata(fs[p], uid, gid, mode) then Success(Some(SnapshotOf(p, fs[p], hash)))
    else Failure(UnsafeExistingTarget)
  }

  predicate DirectoryMetadata(fs: FileSystem, p: Path, uid: int, gid: int, mode: bv16) {
    p in fs && fs[p] == Dir(uid, gid, mode)
  }

  /** directory_metadata_needs_normalization of an existing path: the mode may
      differ, but not by being open to group or others. */
  function NeedsNormalization(fs: FileSystem, p: Path, uid: int, gid: int, mode: bv16): Result<bool, Reason>
    requires p in fs
  {
    var node := fs[p];
    if !node.Dir? || node.uid != uid || node.gid != gid || node.mode & GROUP_OTHER_WRITE != 0 then
      Failure(UnsafeExistingTarget)
    else Success(node.mode != mode)
  }

  /** safe_absolute_directory: directories all the way, none of them a link. */
  predicate SafeDirectory(fs: FileSystem, p: Path, allowMissingLeaf: bool) {
    && p != []
    && (forall k :: 0 <= k < |p| ==> p[..k] in fs && fs[p[..k]].Dir?)
    && (if p in fs then fs[p].Dir? else allowMissingLeaf)
  }

  predicate Overlap(a: Path, b: Path) {
    a <= b || b <= a
  }

  /** require_disjoint */
  predicate Disjoint(paths: seq<Path>) {
    forall i, j :: 0 <= i < j < |paths| ==> !Overlap(paths[i], paths[j])
  }

  function Children(fs: FileSystem, dir: Path): set<Name> {
    set p | p in fs && |p| == |dir| + 1 && p[..|dir|] == dir :: p[|dir|]
  }

  lemma ChildrenMembers(fs: FileSystem, dir: Path)
    ensures forall n :: n in Children(fs, dir) <==> dir + [n] in fs
  {
    forall n | dir + [n] in fs ensures n in Children(fs, dir) {
      var p := dir + [n];
      assert p[..|dir|] == dir && p[|dir|] == n;
    }
    forall n | n in Children(fs, dir) ensures dir + [n] in fs {
      var p :| p in fs && |p| == |dir| + 1 && p[..|dir|] == dir && p[|dir|] == n;
      assert p == dir + [n];
    }
  }

  predicate Contains(s: string, piece: string) {
    if |s| < |piece| then false else piece <= s || (s != "" && Contains(s[1..], piece))
  }

  /** is_temporary. The made-up names of this migration do not match it. */
  predicate IsTemporary(n: Name) {
    n.Plain? && (EndsWith(n.text, ".tmp") || Contains(n.text, ".tmp-") || EndsWith(n.text, ".temp"))
  }
}
