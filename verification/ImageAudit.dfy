/** Scanning layers and accepting an image, from scripts/check_container_image.py. */
module ImageAudit {
  import opened Wrappers
  import opened ImagePaths
  import opened ImageSearch
  import opened ImageOverlay
  import opened ImageLinks
  import opened ImageContract
  import opened ImageAllowlist

  datatype Body =
    | FileBody(chunks: seq<seq<byte>>)
    | UnreadableBody
    | DirectoryBody
    | SymlinkBody
    | HardlinkBody
    | SpecialBody

  /** A tar member; metadata holds its name, link, owner and PAX strings as bytes. */
  datatype Member = Member(name: string, metadata: seq<seq<byte>>, mode: bv32, uid: int, gid: int,
                           linkname: string, body: Body)

  datatype AuditError =
    | SentinelFound | BadPath(path: PathError) | UnreadableFile | ForbiddenAppPath
    | SourceMismatch | PermissionContract | RequiredContract | PayloadTooLarge

  /** What a layer contributes for one member: nothing, a marker or an entry. */
  datatype Item = Nothing | Marker(whiteout: Whiteout) | Ordinary(write: Write)

  /** What every image is audited against. */
  datatype Policy = Policy(sentinels: seq<seq<byte>>, allow: Allowlist, sha256: seq<byte> -> string) {
    ghost predicate Valid() {
      forall k :: 0 <= k < |sentinels| ==> sentinels[k] != []
    }
  }

  ghost predicate MetadataHit(member: Member, sentinels: seq<seq<byte>>) {
    exists i :: 0 <= i < |member.metadata| && AnyOccurs(sentinels, member.metadata[i])
  }

  ghost predicate ContentHit(member: Member, sentinels: seq<seq<byte>>) {
    member.body.FileBody? && AnyOccurs(sentinels, Flatten(member.body.chunks))
  }

  /** _entry_from_member, once the content is known to be clean */
  function EntryOf(member: Member, sha256: seq<byte> -> string): FileEntry
    requires !member.body.UnreadableBody?
  {
    var mode := member.mode & 0xFFF;
    match member.body
    case FileBody(chunks) =>
      var content := Flatten(chunks);
      FileEntry(RegularFile, mode, member.uid, member.gid, |content|, sha256(content), "")
    case DirectoryBody => FileEntry(Directory, mode, member.uid, member.gid, 0, "", "")
    case SymlinkBody => FileEntry(Symlink, mode, member.uid, member.gid, 0, "", member.linkname)
    case HardlinkBody => FileEntry(Hardlink, mode, member.uid, member.gid, 0, "", member.linkname)
    case SpecialBody => FileEntry(Special, mode, member.uid, member.gid, 0, "", "")
  }

  /** What a member with a clean body and a normalized path becomes. */
  function Classify(path: string, entry: FileEntry, allow: Allowlist): Result<Item, AuditError> {
    if path == "" then Success(Nothing)
    else
      match WhiteoutTarget(path)
      case Failure(e) => Failure(BadPath(e))
      case Success(Some(w)) => Success(Marker(w))
      case Success(None) =>
        if IsBeneath(path, APP_ROOT) && !IsAllowedAppPath(path, allow) then Failure(ForbiddenAppPath)
        else if entry.kind == Symlink || entry.kind == Hardlink then
          match NormalizedLinkTarget(path, entry.linkTarget, entry.kind == Hardlink)
          case Failure(e) => Failure(BadPath(e))
          case Success(target) => Success(Ordinary(Write(path, entry.(linkTarget := target))))
        else Success(Ordinary(Write(path, entry)))
  }

  /** One round of the loop of _scan_layer over the members. */
  ghost function Verdict(member: Member, policy: Policy): Result<Item, AuditError> {
    if MetadataHit(member, policy.sentinels) then Failure(SentinelFound)
    else
      match NormalizedTarPath(member.name)
      case Failure(e) => Failure(BadPath(e))
      case Success(path) =>
        if member.body.UnreadableBody? then Failure(UnreadableFile)
        else if ContentHit(member, policy.sentinels) then Failure(SentinelFound)
        else Classify(path, EntryOf(member, policy.sha256), policy.allow)
  }

  ghost predicate AllClean(members: seq<Member>, policy: Policy) {
    forall i :: 0 <= i < |members| ==> Verdict(members[i], policy).Success?
  }

  /** The error is that of the first member that is not clean. */
  ghost predicate FirstProblem(members: seq<Member>, policy: Policy, e: AuditError) {
    exists i :: 0 <= i < |members| && AllClean(members[..i], policy) && Verdict(members[i], policy) == Failure(e)
  }

  /** The layer that clean members describe. */
  ghost function LayerOf(members: seq<Member>, policy: Policy): Layer
    requires AllClean(members, policy)
  {
    if members == [] then Layer([], [])
    else
      var last := |members| - 1;
      var before := LayerOf(members[..last], policy);
      match Verdict(members[last], policy).value
      case Nothing => before
      case Marker(w) => before.(whiteouts := before.whiteouts + [w])
      case Ordinary(w) => before.(writes := before.writes + [w])
  }

  ghost function LayersOf(layers: seq<seq<Member>>, policy: Policy): (r: seq<Layer>)
    requires forall l :: 0 <= l < |layers| ==> AllClean(layers[l], policy)
    ensures |r| == |layers|
    ensures forall l :: 0 <= l < |layers| ==> r[l] == LayerOf(layers[l], policy)
  {
    seq(|layers|, l requires 0 <= l < |layers| => LayerOf(layers[l], policy))
  }

  method ScanMember(member: Member, policy: Policy) returns (r: Result<Item, AuditError>)
    requires policy.Valid()
    ensures r == Verdict(member, policy)
  {
    for i := 0 to |member.metadata|
      invariant forall j :: 0 <= j < i ==> !AnyOccurs(policy.sentinels, member.metadata[j])
    {
      var hit := FindAny(policy.sentinels, member.metadata[i]);
      if hit {
        return Failure(SentinelFound);
      }
    }
    var normalized := NormalizedTarPath(member.name);
    if normalized.Failure? {
      return Failure(BadPath(normalized.error));
    }
    if member.body.UnreadableBody? {
      return Failure(UnreadableFile);
    }
    var entry := EntryOf(member, policy.sha256);
    if member.body.FileBody? {
      var size, digest, found := ContainsSentinel(member.body.chunks, policy.sentinels, policy.sha256);
      if found {
        return Failure(SentinelFound);
      }
      entry := FileEntry(RegularFile, member.mode & 0xFFF, member.uid, member.gid, size, digest, "");
    }
    return Classify(normalized.value, entry, policy.allow);
  }

  /** The mutable path table that every layer updates in place. */
  class PathTable {
    var entries: Entries

    constructor ()
      ensures entries == map[]
    {
      entries := map[];
    }

    /** _delete_path */
    method DeletePath(path: string)
      modifies this
      ensures entries == Without(old(entries), path)
    {
      var left := entries.Keys;
      while left != {}
        invariant left <= entries.Keys <= old(entries.Keys)
        invariant forall p :: p in entries ==> entries[p] == old(entries)[p]
        invariant forall p :: p in old(entries) ==> (p in entries <==> p in left || !IsBeneath(p, path))
        decreases left
      {
        var existing :| existing in left;
        left := left - {existing};
        if IsBeneath(existing, path) {
          entries := entries - {existing};
        }
      }
    }

    method Hide(w: Whiteout)
      modifies this
      ensures entries == ApplyWhiteout(old(entries), w)
    {
      if w.isOpaque {
        var prefix := if w.target != "" then w.target + "/" else "";
        var left := entries.Keys;
        while left != {}
          invariant left <= entries.Keys <= old(entries.Keys)
          invariant forall p :: p in entries ==> entries[p] == old(entries)[p]
          invariant forall p :: p in old(entries) ==> (p in entries <==> p in left || !(prefix <= p && p != w.target))
          decreases left
        {
          var existing :| existing in left;
          left := left - {existing};
          if prefix <= existing && existing != w.target {
            entries := entries - {existing};
          }
        }
      } else {
        DeletePath(w.target);
      }
    }

    /** _scan_layer: a layer that raises leaves the table as it was; any other
        layer updates it as one overlay layer, markers first. */
    method ScanLayer(members: seq<Member>, policy: Policy) returns (r: Result<(), AuditError>)
      requires policy.Valid()
      modifies this
      ensures r.Success? <==> AllClean(members, policy)
      ensures r.Success? ==> entries == ApplyLayer(old(entries), LayerOf(members, policy))
      ensures r.Failure? ==> entries == old(entries) && FirstProblem(members, policy, r.error)
    {
      hide Verdict, Covers, IsBeneath;
      var whiteouts: seq<Whiteout> := [];
      var ordinary: seq<Write> := [];
      var i := 0;
      while i < |members|
        invariant i <= |members| && entries == old(entries)
        invariant AllClean(members[..i], policy) && LayerOf(members[..i], policy) == Layer(whiteouts, ordinary)
      {
        var item := ScanMember(members[i], policy);
        if item.Failure? {
          assert FirstProblem(members, policy, item.error);
          return Failure(item.error);
        }
        CleanSnoc(members, i, policy);
        match item.value {
          case Nothing =>
          case Marker(w) => whiteouts := whiteouts + [w];
          case Ordinary(w) => ordinary := ordinary + [w];
        }
        i := i + 1;
      }
      assert members[..i] == members;
      var k := 0;
      while k < |whiteouts|
        invariant k <= |whiteouts|
        invariant entries == ApplyWhiteouts(old(entries), whiteouts[..k])
      {
        Hide(whiteouts[k]);
        assert whiteouts[..k + 1][..k] == whiteouts[..k];
        k := k + 1;
      }
      assert whiteouts[..k] == whiteouts;
      ghost var hidden := entries;
      k := 0;
      while k < |ordinary|
        invariant k <= |ordinary|
        invariant entries == ApplyWrites(hidden, ordinary[..k])
      {
        var w := ordinary[k];
        if w.entry.kind != Directory {
          DeletePath(w.path);
        }
        entries := entries[w.path := w.entry];
        assert ordinary[..k + 1][..k] == ordinary[..k];
        k := k + 1;
      }
      assert ordinary[..k] == ordinary;
      return Success(());
    }
  }

  lemma CleanSnoc(members: seq<Member>, i: nat, policy: Policy)
    requires i < |members| && AllClean(members[..i], policy) && Verdict(members[i], policy).Success?
    ensures AllClean(members[..i + 1], policy)
    ensures var before := LayerOf(members[..i], policy);
      LayerOf(members[..i + 1], policy) ==
        match Verdict(members[i], policy).value
        case Nothing => before
        case Marker(w) => before.(whiteouts := before.whiteouts + [w])
        case Ordinary(w) => before.(writes := before.writes + [w])
  {
    hide Verdict;
    var before, after := members[..i], members[..i + 1];
    assert after[..i] == before && after[i] == members[i];
    forall k | 0 <= k < |after| ensures Verdict(after[k], policy).Success? {
      if k < i {
        assert after[k] == before[k];
      }
    }
  }

  // ----- Acceptance -----

  ghost predicate LayersClean(layers: seq<seq<Member>>, policy: Policy) {
    forall l :: 0 <= l < |layers| ==> AllClean(layers[l], policy)
  }

  ghost predicate ContractHolds(m: Entries, allow: Allowlist) {
    SourcesHold(m, allow) && PermissionsHold(m) && RequiredHold(m) && Payload(m) <= MAX_APP_PAYLOAD_BYTES
  }

  /** inspect_image_archive from its layers on: an image is accepted exactly
      when every member of every layer is clean and the overlay of the layers
      meets the contract, and the result is that overlay. */
  method InspectLayers(layers: seq<seq<Member>>, policy: Policy) returns (r: Result<Entries, AuditError>)
    requires policy.Valid()
    ensures r.Success? <==> LayersClean(layers, policy) && ContractHolds(Replay(LayersOf(layers, policy)), policy.allow)
    ensures r.Success? ==> r.value == Replay(LayersOf(layers, policy))
  {
    hide ContractHolds, RequiredHold, PermissionsHold, ApplyLayer;
    var table := new PathTable();
    var l := 0;
    while l < |layers|
      invariant l <= |layers| && fresh(table)
      invariant LayersClean(layers[..l], policy)
      invariant table.entries == Replay(LayersOf(layers[..l], policy))
    {
      var scanned := table.ScanLayer(layers[l], policy);
      if scanned.Failure? {
        assert !AllClean(layers[l], policy);
        return Failure(scanned.error);
      }
      LayersSnoc(layers, l, policy);
      l := l + 1;
    }
    assert layers[..l] == layers;
    var m := table.entries;
    r := ValidateTable(m, policy.allow);
  }

  lemma LayersSnoc(layers: seq<seq<Member>>, l: nat, policy: Policy)
    requires l < |layers| && LayersClean(layers[..l], policy) && AllClean(layers[l], policy)
    ensures LayersClean(layers[..l + 1], policy)
    ensures Replay(LayersOf(layers[..l + 1], policy)) ==
            ApplyLayer(Replay(LayersOf(layers[..l], policy)), LayerOf(layers[l], policy))
  {
    hide ApplyLayer, AllClean;
    var below, upTo := layers[..l], layers[..l + 1];
    forall k | 0 <= k < |upTo| ensures AllClean(upTo[k], policy) {
      if k < l {
        assert upTo[k] == below[k];
      }
    }
    var all, before := LayersOf(upTo, policy), LayersOf(below, policy);
    assert all[..l] == before;
    assert all[l] == LayerOf(layers[l], policy);
  }

  method ValidateTable(m: Entries, allow: Allowlist) returns (r: Result<Entries, AuditError>)
    ensures r.Success? <==> ContractHolds(m, allow)
    ensures r.Success? ==> r.value == m
  {
    hide PermissionsHold, RequiredHold, Payload;
    var left := allow.Keys;
    while left != {}
      invariant left <= allow.Keys
      invariant forall p | p in allow && p !in left :: p in m && m[p].kind == allow[p]
      decreases left
    {
      var p :| p in left;
      if p !in m || m[p].kind != allow[p] {
        return Failure(SourceMismatch);
      }
      left := left - {p};
    }
    var permitted := ValidatePermissions(m);
    if !permitted {
      return Failure(PermissionContract);
    }
    var required := ValidateRequiredEntries(m);
    if !required {
      return Failure(RequiredContract);
    }
    var payload := AppPayload(m);
    if payload > MAX_APP_PAYLOAD_BYTES {
      return Failure(PayloadTooLarge);
    }
    return Success(m);
  }
}
