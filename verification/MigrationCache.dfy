/** Copying the browser cache: inventory, staging, verification, publication
    (docker/_systemd_migration_apply.py, with the cache half of the planner). */
module MigrationCache {
  import opened Wrappers
  import opened MigrationModel
  import opened MigrationInventory
  import opened NameOrder

  type Outcome = Result<(), Reason>

  const CACHE_MANIFEST_FILENAME := ".migration-manifest.json"
  const MAX_CACHE_MANIFEST_BYTES := 16 * 1024 * 1024

  // ----- inventory_tree -----

  predicate NodeFine(node: Node, target: bool, own: Ownership) {
    match node
    case Dir(uid, gid, mode) => target ==> uid == own.serviceUid && gid == own.serviceGid && mode == RUNTIME_DIRECTORY_MODE
    case File(_, _, uid, gid, mode, nlink, _) =>
      nlink == 1 && (target ==> uid == own.serviceUid && gid == own.serviceGid && mode == NormalMode(mode))
    case Link => false
    case Other => false
  }

  ghost predicate Visited(t: Tree, d: Rel, p: Rel, skip: Option<string>) {
    p in t && d < p && !(d == [] && Skipped(p, skip))
  }

  ghost predicate FineBelow(t: Tree, d: Rel, target: bool, own: Ownership, skip: Option<string>) {
    forall p :: Visited(t, d, p, skip) ==> NodeFine(t[p], target, own)
  }

  /** What the visit of the first names of a directory has to find fine. */
  ghost predicate FineNames(t: Tree, d: Rel, names: seq<string>, target: bool, own: Ownership) {
    forall p :: p in t && d < p && p[|d|] in names ==> NodeFine(t[p], target, own)
  }

  lemma FineNamesAll(t: Tree, d: Rel, target: bool, own: Ownership, skip: Option<string>)
    requires Rooted(t)
    ensures FineNames(t, d, Sorted(Kids(t, d, skip)), target, own) <==> FineBelow(t, d, target, own, skip)
  {
    KidsMembers(t, d, skip);
    SortedMembers(Kids(t, d, skip));
    forall p | Visited(t, d, p, skip) ensures p[|d|] in Sorted(Kids(t, d, skip)) {
      KidListed(t, d, p, skip);
    }
    forall p | p in t && d < p && p[|d|] in Sorted(Kids(t, d, skip)) ensures Visited(t, d, p, skip) {
    }
  }

  lemma FineNamesSnoc(t: Tree, d: Rel, names: seq<string>, n: string, target: bool, own: Ownership, skip: Option<string>)
    requires FineNames(t, d, names, target, own) && d + [n] in t
    requires NodeFine(t[d + [n]], target, own) && FineBelow(t, d + [n], target, own, skip)
    ensures FineNames(t, d, names + [n], target, own)
  {
    forall p | p in t && d < p && p[|d|] in names + [n] ensures NodeFine(t[p], target, own) {
      if p[|d|] !in names {
        assert p[..|d| + 1] == d + [n];
        assert p == d + [n] || Visited(t, d + [n], p, skip);
      }
    }
  }

  lemma FileHasNothingBelow(t: Tree, d: Rel, target: bool, own: Ownership, skip: Option<string>)
    requires Rooted(t) && d in t && t[d].File?
    ensures FineBelow(t, d, target, own, skip)
  {
    forall p | p in t ensures !(d < p) {
      if |d| < |p| {
        AncestorsThere(t, p, |d|);
        var q := p[..|d|];
        assert (d < p) == (q == d);
      }
    }
  }

  lemma NotFineName(t: Tree, d: Rel, n: string, p: Rel, target: bool, own: Ownership, skip: Option<string>)
    requires Rooted(t) && d + [n] in t && !(d == [] && skip == Some(n)) && (p == d + [n] || Visited(t, d + [n], p, skip))
    requires p in t && !NodeFine(t[p], target, own)
    ensures !FineBelow(t, d, target, own, skip)
  {
    assert p[|d|] == n;
    assert Visited(t, d, p, skip);
  }

  lemma ListNamesSnoc(t: Tree, d: Rel, names: seq<string>, i: nat, skip: Option<string>)
    requires i < |names|
    ensures ListNames(t, d, names[..i + 1], skip) == ListNames(t, d, names[..i], skip) + Share(t, d + [names[i]], skip)
    decreases i
  {
    ListNamesStep(t, d, names[..i + 1], skip);
    if i > 0 {
      assert names[..i + 1][1..] == names[1..][..i];
      assert names[..i][1..] == names[1..][..i - 1];
      ListNamesSnoc(t, d, names[1..], i - 1, skip);
      ListNamesStep(t, d, names[..i], skip);
    } else {
      assert names[..1][1..] == [];
    }
  }

  /** The list that inventory_tree appends to while it visits. */
  class Inventory {
    var entries: seq<Entry>

    constructor ()
      ensures entries == []
    {
      entries := [];
    }

    /** The recursive visit: it appends the listing of d, or stops at an entry
        that is not fine. */
    method Visit(t: Tree, d: Rel, target: bool, own: Ownership, skip: Option<string>) returns (r: Outcome)
      requires Rooted(t)
      modifies this
      ensures r.Success? <==> FineBelow(t, d, target, own, skip)
      ensures r.Success? ==> entries == old(entries) + Listing(t, d, skip)
      decreases |Below(t, d)|
    {
      hide Rooted, NodeFine, FineBelow, FineNames, Listing, ListNames, Share, Sorted, Kids;
      var names := SortNames(Kids(t, d, skip));
      KidsMembers(t, d, skip);
      SortedMembers(Kids(t, d, skip));
      var i := 0;
      NoNames(t, d, target, own, skip);
      while i < |names|
        invariant i <= |names|
        invariant entries == old(entries) + ListNames(t, d, names[..i], skip)
        invariant FineNames(t, d, names[..i], target, own)
      {
        var p := d + [names[i]];
        assert names[i] in names && p in t;
        ghost var before := entries;
        if !NodeFine(t[p], target, own) {
          NotFineName(t, d, names[i], p, target, own, skip);
          return Failure(if target then UnsafeExistingTarget else UnsafeSource);
        }
        if t[p].Dir? {
          BelowShrinks(t, d, p);
          r := Visit(t, p, target, own, skip);
          if r.Failure? {
            NotFineBelow(t, d, names[i], target, own, skip);
            return;
          }
        } else {
          FineIsFile(t[p], target, own);
          FileHasNothingBelow(t, p, target, own, skip);
          entries := entries + [EntryOf(p, t[p])];
        }
        ShareIs(t, p, skip);
        assert entries == before + Share(t, p, skip);
        ListNamesSnoc(t, d, names, i, skip);
        FineNamesSnoc(t, d, names[..i], names[i], target, own, skip);
        assert names[..i] + [names[i]] == names[..i + 1];
        i := i + 1;
      }
      assert names[..i] == names;
      FineNamesAll(t, d, target, own, skip);
      ListingIs(t, d, skip);
      return Success(());
    }
  }

  lemma NoNames(t: Tree, d: Rel, target: bool, own: Ownership, skip: Option<string>)
    ensures ListNames(t, d, [], skip) == [] && FineNames(t, d, [], target, own)
  {
  }

  lemma ListingIs(t: Tree, d: Rel, skip: Option<string>)
    ensures Listing(t, d, skip) == ListNames(t, d, Sorted(Kids(t, d, skip)), skip)
  {
  }

  lemma ShareIs(t: Tree, p: Rel, skip: Option<string>)
    requires p in t && (t[p].Dir? || t[p].File?)
    ensures Share(t, p, skip) == if t[p].Dir? then Listing(t, p, skip) else [EntryOf(p, t[p])]
  {
  }

  lemma FineIsFile(node: Node, target: bool, own: Ownership)
    requires NodeFine(node, target, own) && !node.Dir?
    ensures node.File?
  {
  }

  lemma NotFineBelow(t: Tree, d: Rel, n: string, target: bool, own: Ownership, skip: Option<string>)
    requires Rooted(t) && d + [n] in t && !(d == [] && skip == Some(n)) && !FineBelow(t, d + [n], target, own, skip)
    ensures !FineBelow(t, d, target, own, skip)
  {
    var p :| Visited(t, d + [n], p, skip) && !NodeFine(t[p], target, own);
    NotFineName(t, d, n, p, target, own, skip);
  }

  /** inventory_tree: the listing of the whole tree, or an error exactly when
      some visited entry is not fine. */
  method InventoryTree(t: Tree, target: bool, own: Ownership, skip: Option<string>) returns (r: Result<seq<Entry>, Reason>)
    requires Rooted(t)
    ensures r.Success? <==> FineBelow(t, [], target, own, skip)
    ensures r.Success? ==> r.value == Listing(t, [], skip)
  {
    var inventory := new Inventory();
    var visited := inventory.Visit(t, [], target, own, skip);
    if visited.Failure? {
      return Failure(visited.error);
    }
    assert [] + Listing(t, [], skip) == Listing(t, [], skip);
    return Success(inventory.entries);
  }

  // ----- What staging builds -----

  predicate SafeRelative(p: Rel) {
    p != [] && forall c | c in p :: c != "" && c != "." && c != ".." && '\\' !in c && '\0' !in c
  }

  predicate FileFor(node: Node, e: Entry, own: Ownership) {
    && node.File? && node.content == e.content && node.mtime == e.mtime && node.nlink == 1
    && node.uid == own.serviceUid && node.gid == own.serviceGid && node.mode == e.mode
  }

  function StageRoot(own: Ownership): Node {
    Dir(own.serviceUid, own.serviceGid, FHS_DIRECTORY_MODE)
  }

  function StageDirectory(own: Ownership): Node {
    Dir(own.serviceUid, own.serviceGid, RUNTIME_DIRECTORY_MODE)
  }

  /** The staged tree of the first k manifest entries: their files, the
      directories above them, and nothing else. */
  ghost predicate Staged(t: Tree, entries: seq<Entry>, k: nat, own: Ownership) {
    && k <= |entries|
    && [] in t && t[[]] == StageRoot(own)
    && FilesStaged(t, entries, k, own)
    && (forall p :: p in t && p != [] ==> FromEntries(t, p, entries, k, own))
    && Parented(t)
  }

  ghost predicate FromEntries(t: Tree, p: Rel, entries: seq<Entry>, k: nat, own: Ownership)
    requires p in t && k <= |entries|
  {
    || (exists i :: 0 <= i < k && p == entries[i].path)
    || (t[p] == StageDirectory(own) && exists i :: 0 <= i < k && p < entries[i].path)
  }

  /** No entry's path is another's, or lies above it. */
  ghost predicate Independent(entries: seq<Entry>) {
    forall i, j :: 0 <= i < |entries| && 0 <= j < |entries| && i != j ==> !(entries[i].path <= entries[j].path)
  }

  // ----- The listing of a tree is independent -----

  lemma {:induction false} SortedDistinct(names: set<string>)
    ensures forall i, j :: 0 <= i < j < |Sorted(names)| ==> Sorted(names)[i] != Sorted(names)[j]
    decreases |names|
  {
    if names != {} {
      SortedDistinct(names - {Min(names)});
      SortedMembers(names - {Min(names)});
    }
  }

  ghost predicate DistinctPaths(entries: seq<Entry>) {
    forall i, j :: 0 <= i < j < |entries| ==> entries[i].path != entries[j].path
  }

  lemma {:induction false} ListNamesDistinct(t: Tree, d: Rel, names: seq<string>, skip: Option<string>)
    requires forall i, j :: 0 <= i < j < |names| ==> names[i] != names[j]
    ensures DistinctPaths(ListNames(t, d, names, skip))
    decreases |Below(t, d)|, |names|
  {
    if names != [] {
      var p := d + [names[0]];
      var share, rest := Share(t, p, skip), ListNames(t, d, names[1..], skip);
      ListNamesStep(t, d, names, skip);
      ListNamesDistinct(t, d, names[1..], skip);
      ListNamesFacts(t, d, names[1..], skip);
      if p in t && t[p].Dir? {
        BelowShrinks(t, d, p);
        SortedDistinct(Kids(t, p, skip));
        ListNamesDistinct(t, p, Sorted(Kids(t, p, skip)), skip);
        ListNamesFacts(t, p, Sorted(Kids(t, p, skip)), skip);
      }
      forall e | e in share ensures d < e.path && e.path[|d|] == names[0] {
        assert p[|d|] == names[0];
        if t[p].Dir? {
          assert Listed(t, p, Sorted(Kids(t, p, skip)), e);
          assert e.path[|d|] == p[|d|];
        }
      }
      forall e | e in rest ensures d < e.path && e.path[|d|] != names[0] {
        assert Listed(t, d, names[1..], e);
        var k :| 0 <= k < |names[1..]| && names[1..][k] == e.path[|d|];
        assert names[k + 1] == e.path[|d|];
      }
      forall i, j | 0 <= i < j < |share + rest| ensures (share + rest)[i].path != (share + rest)[j].path {
        if i < |share| && j >= |share| {
          assert share[i] in share && rest[j - |share|] in rest;
        }
      }
    }
  }

  lemma ListingIndependent(t: Tree, skip: Option<string>)
    requires Rooted(t)
    ensures Independent(Listing(t, [], skip))
  {
    var entries := Listing(t, [], skip);
    SortedDistinct(Kids(t, [], skip));
    ListNamesDistinct(t, [], Sorted(Kids(t, [], skip)), skip);
    forall i, j | 0 <= i < |entries| && 0 <= j < |entries| && i != j
      ensures !(entries[i].path <= entries[j].path)
    {
      var a, b := entries[i].path, entries[j].path;
      assert a != b;
      ListingIsFiles(t, [], skip, entries[i]);
      ListingIsFiles(t, [], skip, entries[j]);
      assert entries[i] in entries && entries[j] in entries;
      assert a <= b ==> a == b[..|a|];
      if |a| < |b| {
        AncestorsThere(t, b, |a|);
      }
    }
  }

  // ----- _copy_cache -----

  datatype Codec = Codec(encode: seq<Entry> -> Content, decode: Content -> Option<seq<Entry>>) {
    /** json.loads undoes json.dumps on manifests. */
    ghost predicate Valid() {
      forall m :: decode(encode(m)) == Some(m)
    }
  }

  datatype Status = NotRequested | Copied | Existing

  predicate TrustedParent(parent: Node, envUid: int) {
    parent.Dir? && parent.uid == envUid && parent.mode & GROUP_OTHER_WRITE == 0
  }

  const ManifestPath: Rel := [CACHE_MANIFEST_FILENAME]
  const ManifestSkip: Option<string> := Some(CACHE_MANIFEST_FILENAME)

  predicate ManifestFileFine(t: Tree, own: Ownership) {
    ManifestPath in t && FileMetadata(t[ManifestPath], own.serviceUid, own.serviceGid, RUNTIME_FILE_MODE)
  }

  /** What validate_existing_cache accepts. */
  ghost predicate CacheValid(t: Tree, own: Ownership, codec: Codec) {
    && Rooted(t) && t[[]] == StageRoot(own)
    && ManifestFileFine(t, own)
    && FineBelow(t, [], true, own, ManifestSkip)
    && |t[ManifestPath].content| <= MAX_CACHE_MANIFEST_BYTES
    && codec.decode(t[ManifestPath].content) == Some(Listing(t, [], ManifestSkip))
  }

  method ValidateExistingCache(t: Tree, own: Ownership, codec: Codec) returns (ok: bool)
    requires [] in t && Parented(t)
    ensures ok <==> CacheValid(t, own, codec)
  {
    if t[[]] != StageRoot(own) || !ManifestFileFine(t, own) {
      return false;
    }
    var actual := InventoryTree(t, true, own, ManifestSkip);
    if actual.Failure? || |t[ManifestPath].content| > MAX_CACHE_MANIFEST_BYTES {
      return false;
    }
    return codec.decode(t[ManifestPath].content) == Some(actual.value);
  }

  /** Every entry but the root sits in a directory. */
  ghost predicate Parented(t: Tree) {
    forall p :: p in t && p != [] ==> p[..|p| - 1] in t && t[p[..|p| - 1]].Dir?
  }

  ghost predicate FilesStaged(t: Tree, entries: seq<Entry>, k: nat, own: Ownership) {
    k <= |entries| && forall i :: 0 <= i < k ==> entries[i].path in t && FileFor(t[entries[i].path], entries[i], own)
  }

  ghost predicate FromOrAbove(t: Tree, p: Rel, entries: seq<Entry>, k: nat, own: Ownership)
    requires p in t && k < |entries|
  {
    FromEntries(t, p, entries, k, own) || (t[p] == StageDirectory(own) && p < entries[k].path)
  }

  ghost predicate ParentsStaged(t: Tree, path: Rel, own: Ownership, n: nat) {
    n <= |path| && forall m :: 0 < m < n ==> path[..m] in t && t[path[..m]] == StageDirectory(own)
  }

  /** The next entry's parents, and then its file, extend what is staged. */
  ghost predicate StagedWithParents(t: Tree, entries: seq<Entry>, k: nat, own: Ownership, n: nat) {
    && k < |entries| && entries[k].path != []
    && [] in t && t[[]] == StageRoot(own)
    && FilesStaged(t, entries, k, own)
    && (forall p :: p in t && p != [] ==> FromOrAbove(t, p, entries, k, own))
    && Parented(t)
    && ParentsStaged(t, entries[k].path, own, n)
  }

  lemma ParentFree(t: Tree, entries: seq<Entry>, k: nat, own: Ownership, n: nat)
    requires StagedWithParents(t, entries, k, own, n) && Independent(entries) && 0 < n < |entries[k].path|
    ensures n == 1 || entries[k].path[..n - 1] != []
    ensures entries[k].path[..n] in t ==> t[entries[k].path[..n]] == StageDirectory(own)
    ensures entries[k].path[..n - 1] in t && t[entries[k].path[..n - 1]].Dir?
  {
    var p := entries[k].path[..n];
    assert p < entries[k].path;
    forall i | 0 <= i < k ensures p != entries[i].path {
      assert !(entries[i].path <= entries[k].path);
    }
  }

  lemma FileFree(t: Tree, entries: seq<Entry>, k: nat, own: Ownership)
    requires k < |entries| && StagedWithParents(t, entries, k, own, |entries[k].path|) && Independent(entries)
    ensures entries[k].path !in t
    ensures entries[k].path[..|entries[k].path| - 1] in t && t[entries[k].path[..|entries[k].path| - 1]].Dir?
  {
    var p := entries[k].path;
    forall i | 0 <= i < k ensures p != entries[i].path && !(p < entries[i].path) {
      assert !(entries[i].path <= entries[k].path);
      assert !(entries[k].path <= entries[i].path);
    }
  }

  lemma ParentsStart(t: Tree, entries: seq<Entry>, k: nat, own: Ownership)
    requires k < |entries| && entries[k].path != [] && Staged(t, entries, k, own)
    ensures StagedWithParents(t, entries, k, own, 1)
  {
  }

  lemma ParentedAdd(t: Tree, p: Rel, node: Node)
    requires Parented(t) && p != [] && p !in t && p[..|p| - 1] in t && t[p[..|p| - 1]].Dir?
    ensures Parented(t[p := node])
  {
    forall q | q in t[p := node] && q != []
      ensures q[..|q| - 1] in t[p := node] && t[p := node][q[..|q| - 1]].Dir?
    {
      assert q != p ==> q[..|q| - 1] in t;
    }
  }

  lemma FromOrAboveAdd(t: Tree, p: Rel, node: Node, q: Rel, entries: seq<Entry>, k: nat, own: Ownership)
    requires k < |entries| && q in t && q != p && FromOrAbove(t, q, entries, k, own)
    ensures FromOrAbove(t[p := node], q, entries, k, own)
  {
  }

  lemma ParentsStagedAdd(t: Tree, path: Rel, own: Ownership, n: nat)
    requires ParentsStaged(t, path, own, n) && 0 < n < |path|
    requires path[..n] in t ==> t[path[..n]] == StageDirectory(own)
    ensures ParentsStaged(t[path[..n] := StageDirectory(own)], path, own, n + 1)
  {
  }

  lemma ParentStaged(t: Tree, entries: seq<Entry>, k: nat, own: Ownership, n: nat)
    requires StagedWithParents(t, entries, k, own, n) && 0 < n < |entries[k].path|
    requires entries[k].path[..n] in t ==> t[entries[k].path[..n]] == StageDirectory(own)
    ensures StagedWithParents(if entries[k].path[..n] in t then t else t[entries[k].path[..n] := StageDirectory(own)],
                              entries, k, own, n + 1)
  {
    var path := entries[k].path;
    var p := path[..n];
    assert p < path && p[..|p| - 1] == path[..n - 1];
    assert n == 1 ==> p[..|p| - 1] == [];
    var b := t[p := StageDirectory(own)];
    ParentsStagedAdd(t, path, own, n);
    if p in t {
      assert b == t;
    } else {
      ParentedAdd(t, p, StageDirectory(own));
      hide Parented, FromEntries, ParentsStaged;
      forall q | q in b && q != [] ensures FromOrAbove(b, q, entries, k, own) {
        if q != p {
          FromOrAboveAdd(t, p, StageDirectory(own), q, entries, k, own);
        }
      }
    }
  }

  /** A tree as a walk from its root sees it. */
  ghost predicate IsTree(t: Tree) {
    [] in t && Parented(t)
  }

  ghost predicate InosUnder(t: Tree, ino: int) {
    forall p :: p in t && t[p].File? ==> t[p].ino < ino
  }

  lemma StagingIsTree(t: Tree, entries: seq<Entry>, k: nat, own: Ownership, n: nat)
    requires Staged(t, entries, k, own) || StagedWithParents(t, entries, k, own, n)
    ensures IsTree(t)
  {
  }

  lemma InosUnderAdd(t: Tree, p: Rel, node: Node, ino: int, ino': int)
    requires InosUnder(t, ino) && ino <= ino' && (node.File? ==> node.ino < ino')
    ensures InosUnder(t[p := node], ino')
  {
  }

  function CopiedFile(e: Entry, ino: int, own: Ownership): Node {
    File(ino, e.content, own.serviceUid, own.serviceGid, e.mode, 1, e.mtime)
  }

  /** What the cache stage works on: the published cache, the staging tree it
      builds, and a cache that another process may publish first. */
  class CacheHost {
    var target: Option<Tree>
    var staging: Option<Tree>
    var raced: Option<Tree>
    /** Whether each coming system call fails; an exhausted schedule fails nothing. */
    var faults: seq<bool>
    var nextIno: int
    const parent: Node

    constructor (target: Option<Tree>, raced: Option<Tree>, parent: Node, faults: seq<bool>, nextIno: int)
      ensures this.target == target && this.raced == raced && this.parent == parent && staging == None
      ensures this.faults == faults && this.nextIno == nextIno
    {
      this.target, this.raced, this.parent, staging := target, raced, parent, None;
      this.faults, this.nextIno := faults, nextIno;
    }

    ghost predicate StagingFine()
      reads this
    {
      staging.Some? && IsTree(staging.value) && InosUnder(staging.value, nextIno)
    }

    method Fault() returns (bad: bool)
      modifies `faults
      ensures old(faults) == [] ==> !bad && faults == []
    {
      bad := false;
      if faults != [] {
        bad, faults := faults[0], faults[1..];
      }
    }

    /** ensure_runtime_directory below the staging directory: a new directory
        that does not get its metadata is removed again. */
    method EnsureStaged(p: Rel, own: Ownership) returns (r: Outcome)
      requires staging.Some? && p !in staging.value
      modifies `staging, `faults
      ensures staging == if r.Success? then Some(old(staging.value)[p := StageDirectory(own)]) else old(staging)
      ensures old(faults) == [] ==> faults == [] && r.Success?
    {
      var bad := Fault();
      if bad {
        return Failure(TargetCreateFailed);
      }
      bad := Fault();
      if bad {
        return Failure(TargetMetadataFailed);
      }
      staging := Some(staging.value[p := StageDirectory(own)]);
      return Success(());
    }

    /** _ensure_cache_parents for the entry in turn. */
    method EnsureCacheParents(entries: seq<Entry>, k: nat, own: Ownership) returns (r: Outcome)
      requires StagingFine() && k < |entries| && entries[k].path != [] && Staged(staging.value, entries, k, own)
      modifies `staging, `faults
      ensures StagingFine()
      ensures r.Success? ==> StagedWithParents(staging.value, entries, k, own, |entries[k].path|)
      ensures old(faults) == [] ==> faults == [] && (Independent(entries) ==> r.Success?)
    {
      hide StagedWithParents, Staged, Independent, IsTree, InosUnder;
      var path := entries[k].path;
      ParentsStart(staging.value, entries, k, own);
      var n := 1;
      while n < |path|
        invariant 1 <= n <= |path| && StagingFine()
        invariant StagedWithParents(staging.value, entries, k, own, n)
        invariant old(faults) == [] ==> faults == []
      {
        var current := path[..n];
        if Independent(entries) {
          ParentFree(staging.value, entries, k, own, n);
        }
        if current in staging.value && staging.value[current] != StageDirectory(own) {
          return Failure(UnsafeExistingTarget);
        }
        ParentStaged(staging.value, entries, k, own, n);
        InosUnderAdd(staging.value, current, StageDirectory(own), nextIno, nextIno);
        if current !in staging.value {
          r := EnsureStaged(current, own);
          if r.Failure? {
            return;
          }
        }
        StagingIsTree(staging.value, entries, k, own, n + 1);
        n := n + 1;
      }
      return Success(());
    }

    /** regular_snapshot and copy_snapshot_to_new for the entry in turn. A copy
        that fails under way leaves what it has written so far. */
    method CopyEntry(source: Tree, entries: seq<Entry>, k: nat, own: Ownership) returns (r: Outcome)
      requires k < |entries| && entries[k].path != []
      requires StagingFine() && StagedWithParents(staging.value, entries, k, own, |entries[k].path|)
      modifies `staging, `faults, `nextIno
      ensures StagingFine() && old(nextIno) <= nextIno
      ensures r.Success? ==> Staged(staging.value, entries, k + 1, own) && SourceMatches(source, entries[k])
      ensures old(faults) == [] ==> faults == [] && (Independent(entries) && SourceMatches(source, entries[k]) ==> r.Success?)
    {
      hide Staged, StagedWithParents, Independent, SourceMatches, InosUnder;
      var e := entries[k];
      if Independent(entries) {
        FileFree(staging.value, entries, k, own);
      }
      if !SourceMatches(source, e) {
        return Failure(SourceChanged);
      }
      var bad := Fault();
      if bad || e.path in staging.value || e.path[..|e.path| - 1] !in staging.value || !staging.value[e.path[..|e.path| - 1]].Dir? {
        return Failure(TargetWriteFailed);
      }
      var before := staging.value;
      bad := Fault();
      var copied := CopiedFile(if bad then e.(content := []) else e, nextIno, own);
      nextIno := nextIno + 1;
      ParentedAdd(before, e.path, copied);
      InosUnderAdd(before, e.path, copied, nextIno - 1, nextIno);
      staging := Some(before[e.path := copied]);
      if bad {
        return Failure(TargetWriteFailed);
      }
      StagedFile(before, staging.value, entries, k, own, copied.ino);
      return Success(());
    }

    /** _populate_cache without its manifest: every entry copied from the
        source as it is now, which must still match. */
    method PopulateCache(source: Tree, entries: seq<Entry>, own: Ownership) returns (r: Outcome)
      requires staging == Some(map[[] := StageRoot(own)])
      modifies `staging, `faults, `nextIno
      ensures StagingFine() && old(nextIno) <= nextIno
      ensures r.Success? ==> Staged(staging.value, entries, |entries|, own)
      ensures r.Success? ==> forall e :: e in entries ==> Copyable(source, e)
      ensures old(faults) == [] ==> faults == []
      ensures old(faults) == [] && Independent(entries) && (forall e :: e in entries ==> Copyable(source, e)) ==> r.Success?
    {
      hide Staged, StagedWithParents, Independent, Copyable, SafeRelative, SourceMatches;
      StagedNothing(entries, own);
      StagingIsTree(staging.value, entries, 0, own, 0);
      var k := 0;
      while k < |entries|
        invariant k <= |entries| && StagingFine() && Staged(staging.value, entries, k, own) && old(nextIno) <= nextIno
        invariant forall e :: e in entries[..k] ==> Copyable(source, e)
        invariant old(faults) == [] ==> faults == []
      {
        var e := entries[k];
        assert entries[..k + 1] == entries[..k] + [e] && e in entries;
        CopyableIs(source, e);
        if !SafeRelative(e.path) {
          return Failure(CachePlanInvalid);
        }
        r := EnsureCacheParents(entries, k, own);
        if r.Failure? {
          return;
        }
        r := CopyEntry(source, entries, k, own);
        if r.Failure? {
          return;
        }
        k := k + 1;
      }
      assert entries[..k] == entries;
      return Success(());
    }
  }

  lemma StagedNothing(entries: seq<Entry>, own: Ownership)
    ensures Staged(map[[] := StageRoot(own)], entries, 0, own)
  {
  }

  lemma CopyableIs(source: Tree, e: Entry)
    ensures Copyable(source, e) <==> SafeRelative(e.path) && SourceMatches(source, e)
    ensures SafeRelative(e.path) ==> e.path != []
  {
  }

  ghost predicate Copyable(source: Tree, e: Entry) {
    SafeRelative(e.path) && SourceMatches(source, e)
  }

  /** The source file is still the one the manifest recorded. */
  predicate SourceMatches(source: Tree, e: Entry) {
    && e.path in source && source[e.path].File? && source[e.path].nlink == 1
    && source[e.path].content == e.content && source[e.path].mtime == e.mtime
  }

  lemma StagedFile(a: Tree, b: Tree, entries: seq<Entry>, k: nat, own: Ownership, ino: int)
    requires k < |entries| && StagedWithParents(a, entries, k, own, |entries[k].path|)
    requires var e := entries[k];
      && e.path !in a && e.path[..|e.path| - 1] in a && a[e.path[..|e.path| - 1]].Dir?
      && b == a[e.path := CopiedFile(e, ino, own)]
    ensures Staged(b, entries, k + 1, own)
  {
    var path := entries[k].path;
    ParentedAdd(a, path, b[path]);
    hide Parented, ParentsStaged, FromEntries, FilesStaged;
    FilesStagedAdd(a, b, entries, k, own, ino);
    assert b[[]] == a[[]];
    forall p | p in b && p != [] ensures FromEntries(b, p, entries, k + 1, own) {
      FromOneMore(a, b, p, entries, k, own);
    }
  }

  lemma FilesStagedAdd(a: Tree, b: Tree, entries: seq<Entry>, k: nat, own: Ownership, ino: int)
    requires k < |entries| && FilesStaged(a, entries, k, own) && entries[k].path !in a
    requires b == a[entries[k].path := CopiedFile(entries[k], ino, own)]
    ensures FilesStaged(b, entries, k + 1, own)
  {
  }

  lemma FromOneMore(a: Tree, b: Tree, p: Rel, entries: seq<Entry>, k: nat, own: Ownership)
    requires k < |entries| && p in b && (p in a || p == entries[k].path)
    requires p != entries[k].path ==> b[p] == a[p] && FromOrAbove(a, p, entries, k, own)
    ensures FromEntries(b, p, entries, k + 1, own)
  {
  }

  // ----- Round trip: tree to manifest to tree -----

  lemma NormalModeIdempotent(mode: bv16)
    ensures NormalMode(NormalMode(mode)) == NormalMode(mode)
  {
  }

  /** Skipping matters at the root only, and only if the name is there. */
  lemma {:induction false} SkipIrrelevant(t: Tree, d: Rel, names: seq<string>, skip: Option<string>)
    ensures ListNames(t, d, names, skip) == ListNames(t, d, names, None)
    decreases |Below(t, d)|, |names|
  {
    if names != [] {
      var p := d + [names[0]];
      ListNamesStep(t, d, names, skip);
      ListNamesStep(t, d, names, None);
      SkipIrrelevant(t, d, names[1..], skip);
      if p in t && t[p].Dir? {
        BelowShrinks(t, d, p);
        assert Kids(t, p, skip) == Kids(t, p, None);
        SkipIrrelevant(t, p, Sorted(Kids(t, p, skip)), skip);
      }
    }
  }

  lemma SkipAbsent(t: Tree)
    requires ManifestPath !in t
    ensures Listing(t, [], ManifestSkip) == Listing(t, [], None)
  {
    KidsMembers(t, [], ManifestSkip);
    KidsMembers(t, [], None);
    var root: Rel := [];
    assert forall n: string :: root + [n] == [n];
    assert Kids(t, [], ManifestSkip) == Kids(t, [], None);
    SkipIrrelevant(t, [], Sorted(Kids(t, [], None)), ManifestSkip);
  }

  function ManifestFile(content: Content, own: Ownership, ino: int): Node {
    File(ino, content, own.serviceUid, own.serviceGid, RUNTIME_FILE_MODE, 1, 0)
  }

  lemma NothingUnderManifest(t: Tree, p: Rel)
    requires Rooted(t) && p in t && p != [] && (ManifestPath !in t || !t[ManifestPath].Dir?)
    ensures Skipped(p, ManifestSkip) ==> p == ManifestPath && ManifestPath in t
  {
    if |p| > 1 {
      AncestorsThere(t, p, 1);
      assert p[..1] == [p[0]];
    }
  }

  lemma EntriesOf(t: Tree, entries: seq<Entry>, p: Rel)
    requires Rooted(t) && entries == Listing(t, [], None) && p in t && t[p].File?
    ensures exists i :: 0 <= i < |entries| && entries[i] == EntryOf(p, t[p])
  {
    ListingIsFiles(t, [], None, EntryOf(p, t[p]));
    assert p != [];
    assert EntryOf(p, t[p]) in entries;
  }

  lemma EntriesFrom(t: Tree, entries: seq<Entry>, i: nat)
    requires Rooted(t) && entries == Listing(t, [], None) && i < |entries|
    ensures entries[i].path in t && t[entries[i].path].File? && entries[i] == EntryOf(entries[i].path, t[entries[i].path])
    ensures entries[i].path != []
  {
    assert entries[i] in entries;
    ListingIsFiles(t, [], None, entries[i]);
  }

  lemma StagedIsRooted(s: Tree, content: Content, entries: seq<Entry>, own: Ownership, ino: int)
    requires Staged(s, entries, |entries|, own) && ManifestPath !in s
    ensures Rooted(s[ManifestPath := ManifestFile(content, own, ino)])
  {
    assert ManifestPath[..0] == [];
    ParentedAdd(s, ManifestPath, ManifestFile(content, own, ino));
  }

  lemma StagedHasNoManifest(t: Tree, s: Tree, entries: seq<Entry>, own: Ownership)
    requires Rooted(t) && ManifestPath !in t && entries == Listing(t, [], None) && Staged(s, entries, |entries|, own)
    ensures ManifestPath !in s
  {
    if ManifestPath in s {
      assert FromEntries(s, ManifestPath, entries, |entries|, own);
      var i :| 0 <= i < |entries| && ManifestPath <= entries[i].path;
      EntriesFrom(t, entries, i);
      NothingUnderManifest(t, entries[i].path);
    }
  }

  /** Inventory, staging, inventory: the same manifest, for every source tree
      that does not use the manifest's own name at its root. */
  lemma StagedRoundTrip(t: Tree, s: Tree, content: Content, entries: seq<Entry>, own: Ownership, ino: int)
    requires Rooted(t) && ManifestPath !in t && entries == Listing(t, [], None) && Staged(s, entries, |entries|, own)
    ensures ManifestPath !in s
    ensures var u := s[ManifestPath := ManifestFile(content, own, ino)];
      Rooted(u) && Listing(u, [], ManifestSkip) == entries && FineBelow(u, [], true, own, ManifestSkip)
  {
    hide Listing, Rooted, Parented;
    StagedHasNoManifest(t, s, entries, own);
    StagedIsRooted(s, content, entries, own, ino);
    var u := s[ManifestPath := ManifestFile(content, own, ino)];
    forall p ensures FileBelow(t, [], p, ManifestSkip) <==> FileBelow(u, [], p, ManifestSkip)
      ensures FileBelow(t, [], p, ManifestSkip) ==> EntryOf(p, t[p]) == EntryOf(p, u[p])
    {
      if FileBelow(t, [], p, ManifestSkip) {
        EntriesOf(t, entries, p);
        var i :| 0 <= i < |entries| && entries[i] == EntryOf(p, t[p]);
        NormalModeIdempotent(t[p].mode);
      } else if FileBelow(u, [], p, ManifestSkip) {
        assert p != ManifestPath && p in s && FromEntries(s, p, entries, |entries|, own);
        var i :| 0 <= i < |entries| && p == entries[i].path;
        EntriesFrom(t, entries, i);
      }
    }
    SameFilesSameListing(t, u, [], ManifestSkip);
    SkipAbsent(t);
    forall p | Visited(u, [], p, ManifestSkip) ensures NodeFine(u[p], true, own) {
      assert p in s && FromEntries(s, p, entries, |entries|, own);
      if i :| 0 <= i < |entries| && p == entries[i].path {
        EntriesFrom(t, entries, i);
        NormalModeIdempotent(t[p].mode);
      }
    }
  }
}
