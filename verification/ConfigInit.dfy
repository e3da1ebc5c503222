/** initialize_config_directory of scripts/init_docker_config.py: no bytes that
    are there already change, and exactly the missing configs are copied. */
module ConfigInit {
  import opened Wrappers
  import opened ConfigKernel
  import opened ConfigPublication

  const CONFIG_FILENAMES: seq<string> := [
    "providers.json", "models_fallback_rules.json", "models_operation_rules.json",
    "models_fusion_rules.json", "models_model_rules.json", "models_router_rules.json"
  ]

  const TEMP_PREFIX := ".llmgateway-config-init-"

  /** A source file; steady if it stays the same while it is read. */
  datatype SourceFile = SourceFile(regular: bool, content: Content, mode: bv16, steady: bool)

  /** What a directory path leads to; same if the opened directory is the one
      that was looked at. */
  datatype Directory = Absent | Link | Plainfile | Present(same: bool)

  function Temp(token: string): string {
    TEMP_PREFIX + token
  }

  lemma TempIsNoConfig(token: string)
    ensures Temp(token) !in CONFIG_FILENAMES
  {
    assert Temp(token)[0] == '.';
    assert forall n :: n in CONFIG_FILENAMES ==> n[0] != '.';
  }

  // ----- _normalize_existing -----

  /** The same file; the owner may differ. */
  predicate Like(a: Node, b: Node) {
    if a.File? then b.File? && b == a.(uid := b.uid, gid := b.gid) else a == b
  }

  /** Of the names other than temp only this one differs, and if it was there
      it still shows the same file. */
  ghost predicate OnlyName(a: map<string, Node>, b: map<string, Node>, name: string, temp: string) {
    && (forall n :: n != temp && n != name ==> Get(a, n) == Get(b, n))
    && (name in a && name != temp ==> name in b && Like(a[name], b[name]))
  }

  /** The part of _normalize_existing between opening and closing. */
  method OwnExisting(k: Kernel, fd: nat, name: string, looked: Node, uid: int, gid: int) returns (primary: Option<Raised>)
    requires Ledger(k.s) && fd in k.s.open && k.s.private.None?
    modifies k
    ensures Later(old(k.s), k.s) && SameDescriptors(old(k.s), k.s) && k.s.private.None?
    ensures k.s.renames == old(k.s).renames && k.s.unlinks == old(k.s).unlinks
    ensures Alone(old(k.s)) ==> k.s.names in {old(k.s).names, Chowned(old(k.s), fd, uid, gid)}
    ensures Alone(old(k.s)) && primary.None? ==> k.s.names == Chowned(old(k.s), fd, uid, gid)
    ensures primary.None? ==> k.s.failures == old(k.s).failures
    ensures primary.Some? ==> PlainError(primary.value)
    ensures primary == Some(Interrupt) ==> Interrupted(old(k.s), k.s)
    ensures k.s.failures == old(k.s).failures && Alone(old(k.s)) && SameInode(old(k.s), fd, name, looked) ==> primary.None?
  {
    hide Ledger, Interrupted, Alone;
    ghost var s0 := k.s;
    var stat := k.StatFd(fd);
    if stat.Failure? {
      return Some(PhaseError(TargetMetadataFailed, stat.error));
    }
    if stat.value.ino != looked.ino {
      return Some(Known(TargetChanged, false));
    }
    ghost var s1 := k.s;
    var raised := k.ChownFd(fd, uid, gid);
    LaterTransitive(s0, s1, k.s);
    if raised.Some? {
      return Some(PhaseError(TargetMetadataFailed, raised.value));
    }
    ghost var s2 := k.s;
    raised := k.Plain(Sync);
    LaterTransitive(s0, s2, k.s);
    if raised.Some? {
      return Some(PhaseError(TargetMetadataFailed, raised.value));
    }
    ghost var s3 := k.s;
    var current := k.StatName(name);
    LaterTransitive(s0, s3, k.s);
    if current.Failure? {
      return Some(PhaseError(TargetMetadataFailed, current.error));
    }
    return if current.value.ino != stat.value.ino then Some(Known(TargetChanged, false)) else None;
  }

  ghost predicate SameInode(s: State, fd: nat, name: string, looked: Node) {
    fd in s.open && name in s.names && s.open[fd] == Handle(name, s.names[name]) && looked == s.names[name]
  }

  lemma ChownedIsLike(s: State, fd: nat, name: string, uid: int, gid: int, temp: string)
    requires fd in s.open && s.open[fd].name == name
    ensures OnlyName(s.names, Chowned(s, fd, uid, gid), name, temp)
    ensures OnlyName(s.names, s.names, name, temp)
    ensures name in s.names && s.open[fd].node == s.names[name] && s.names[name].File? ==>
      Chowned(s, fd, uid, gid) == s.names[name := s.names[name].(uid := uid, gid := gid)]
  {
  }

  /** The part of _normalize_existing from opening to closing. */
  method OwnNamed(k: Kernel, name: string, looked: Node, uid: int, gid: int, ghost temp: string, ghost alone: bool)
    returns (r: Option<Raised>)
    requires Ledger(k.s) && k.s.private.None? && looked.File?
    requires alone ==> Alone(k.s) && name in k.s.names && k.s.names[name] == looked
    modifies k
    ensures Later(old(k.s), k.s) && Held(k.s) == Held(old(k.s)) && k.s.private.None?
    ensures k.s.renames == old(k.s).renames && k.s.unlinks == old(k.s).unlinks
    ensures alone ==> OnlyName(old(k.s).names, k.s.names, name, temp)
    ensures alone && r.None? ==> k.s.names == old(k.s).names[name := looked.(uid := uid, gid := gid)]
    ensures r.None? ==> k.s.failures == old(k.s).failures
    ensures r.Some? ==> PlainError(r.value)
    ensures r == Some(Interrupt) ==> Interrupted(old(k.s), k.s)
    ensures k.s.failures == old(k.s).failures && alone ==> r.None?
  {
    hide Ledger, Interrupted, Alone, OnlyName;
    ghost var s1 := k.s;
    assert OnlyName(s1.names, s1.names, name, temp) by { AroundSelf(s1, name, temp); }
    var owner := new OwnedFd(None);
    var handle := k.OpenName(name);
    if handle.Failure? {
      return Some(PhaseError(TargetOpenFailed, handle.error));
    }
    var populated := owner.Assign(handle.value);
    ghost var s2 := k.s;
    ChownedIsLike(s2, handle.value, name, uid, gid, temp);
    var primary := OwnExisting(k, handle.value, name, looked, uid, gid);
    LaterTransitive(s1, s2, k.s);
    ghost var s3 := k.s;
    var escape;
    primary, escape := FinishClose(k, owner, primary, TargetCloseFailed);
    LaterTransitive(s1, s3, k.s);
    return if escape.Some? then escape else primary;
  }

  /** _normalize_existing: the owner of the file of that name, nothing else. */
  method NormalizeExisting(k: Kernel, name: string, uid: int, gid: int, ghost temp: string) returns (r: Result<bool, Raised>)
    requires Ledger(k.s) && k.s.private.None?
    modifies k
    ensures Later(old(k.s), k.s) && Held(k.s) == Held(old(k.s)) && k.s.private.None?
    ensures k.s.renames == old(k.s).renames && k.s.unlinks == old(k.s).unlinks
    ensures Alone(old(k.s)) ==> OnlyName(old(k.s).names, k.s.names, name, temp)
    ensures Alone(old(k.s)) && r == Success(true) ==> name in old(k.s).names && old(k.s).names[name].File?
    ensures Alone(old(k.s)) && r == Success(true) ==>
      k.s.names == old(k.s).names[name := old(k.s).names[name].(uid := uid, gid := gid)]
    ensures Alone(old(k.s)) && r == Success(false) ==> name !in old(k.s).names && k.s.names == old(k.s).names
    ensures r.Success? ==> k.s.failures == old(k.s).failures
    ensures r.Failure? ==> PlainError(r.error)
    ensures r == Failure(Interrupt) ==> Interrupted(old(k.s), k.s)
    ensures k.s.failures == old(k.s).failures && Alone(old(k.s)) && (name in old(k.s).names ==> old(k.s).names[name].File?) ==>
      r.Success?
    ensures Fate(old(k.s)).OsFault? ==> r.Failure? && k.s.steps == Rest(old(k.s).steps)
  {
    hide Ledger, Interrupted, Alone;
    ghost var s0 := k.s;
    var looked := k.Lookup(name);
    if looked.Failure? {
      return Failure(PhaseError(TargetStatFailed, looked.error));
    }
    if looked.value.None? {
      return Success(false);
    }
    if looked.value.value.NotRegular? {
      return Failure(Known(TargetNotRegular, false));
    }
    ghost var s1 := k.s;
    var owned := OwnNamed(k, name, looked.value.value, uid, gid, temp, Alone(s0));
    LaterTransitive(s0, s1, k.s);
    return if owned.Some? then Failure(owned.value) else Success(true);
  }

  // ----- _read_source -----

  method ReadSource(k: Kernel, file: SourceFile) returns (r: Result<(Content, bv16), Raised>)
    requires Ledger(k.s) && k.s.private.None?
    modifies k
    ensures Later(old(k.s), k.s) && Held(k.s) == Held(old(k.s)) && SameFiles(old(k.s), k.s)
    ensures r.Success? ==> r.value == (file.content, file.mode) && file.regular && file.steady
    ensures r.Success? ==> k.s.failures == old(k.s).failures
    ensures r.Failure? ==> PlainError(r.error)
    ensures r == Failure(Interrupt) ==> Interrupted(old(k.s), k.s)
    ensures k.s.failures == old(k.s).failures && file.regular && file.steady ==> r.Success?
  {
    hide Ledger, Interrupted, Alone;
    ghost var s0 := k.s;
    var owner := new OwnedFd(None);
    var handle := k.OpenOther("");
    if handle.Failure? {
      return Failure(PhaseError(SourceOpenFailed, handle.error));
    }
    var populated := owner.Assign(handle.value);
    ghost var s1 := k.s;
    var primary := LookAtSource(k, file);
    LaterTransitive(s0, s1, k.s);
    ghost var s2 := k.s;
    var escape;
    primary, escape := FinishClose(k, owner, primary, SourceCloseFailed);
    LaterTransitive(s0, s2, k.s);
    if escape.Some? {
      return Failure(escape.value);
    }
    return if primary.Some? then Failure(primary.value) else Success((file.content, file.mode));
  }

  /** fstat, read and fstat again, on the opened source. */
  method LookAtSource(k: Kernel, file: SourceFile) returns (primary: Option<Raised>)
    modifies k
    ensures Later(old(k.s), k.s) && SameDescriptors(old(k.s), k.s) && SameFiles(old(k.s), k.s)
    ensures primary.None? ==> file.regular && file.steady && k.s.failures == old(k.s).failures
    ensures primary.Some? ==> PlainError(primary.value)
    ensures primary == Some(Interrupt) ==> Interrupted(old(k.s), k.s)
    ensures k.s.failures == old(k.s).failures && file.regular && file.steady ==> primary.None?
  {
    hide Ledger, Interrupted, Alone;
    ghost var s0 := k.s;
    var raised := k.Plain(SourceCall);
    if raised.Some? {
      return Some(PhaseError(SourceReadFailed, raised.value));
    }
    if !file.regular {
      return Some(Known(SourceNotRegular, false));
    }
    ghost var s1 := k.s;
    raised := k.Plain(SourceCall);
    LaterTransitive(s0, s1, k.s);
    if raised.Some? {
      return Some(PhaseError(SourceReadFailed, raised.value));
    }
    ghost var s2 := k.s;
    raised := k.Plain(SourceCall);
    LaterTransitive(s0, s2, k.s);
    if raised.Some? {
      return Some(PhaseError(SourceReadFailed, raised.value));
    }
    return if file.steady then None else Some(Known(SourceChanged, false));
  }

  // ----- One config -----

  ghost predicate SourceFine(source: map<string, SourceFile>, name: string) {
    name in source ==> source[name].regular && source[name].steady
  }

  ghost predicate TargetFine(names: map<string, Node>, name: string) {
    name in names ==> names[name].File?
  }

  ghost predicate GotSource(a: State, b: State, name: string, source: map<string, SourceFile>, uid: int, gid: int) {
    name in source && OneRename(a, b, name, source[name].content, source[name].mode, uid, gid)
  }

  /** What one turn of the loop makes of the names: it owns the file there, or
      copies the one missing, or there is nothing to do. */
  ghost predicate Turned(a: map<string, Node>, b: map<string, Node>, name: string, copied: bool,
                         source: map<string, SourceFile>, uid: int, gid: int)
  {
    if name in a then !copied && a[name].File? && b == a[name := a[name].(uid := uid, gid := gid)]
    else if name in source then
      copied && name in b && Complete(b[name], source[name].content, source[name].mode, uid, gid) && b == a[name := b[name]]
    else !copied && b == a
  }

  lemma GainedTurns(a: State, b: State, c: State, name: string, temp: string, source: map<string, SourceFile>, uid: int, gid: int)
    requires SameFiles(a, b) && Later(a, b) && Gained(b, c, temp, name) && GotSource(a, c, name, source, uid, gid)
    requires temp != name && Alone(a) && temp !in a.names
    ensures OnlyName(a.names, c.names, name, temp) && name !in a.names
    ensures temp !in c.names ==> Turned(a.names, c.names, name, true, source, uid, gid)
  {
    var node := c.renames[|a.renames|].node;
    assert name in a.names[name := node] - {temp};
    assert name in c.names - {temp};
    forall n | n != temp ensures Get(c.names, n) == Get(a.names[name := node], n) {
      assert n in c.names <==> n in c.names - {temp};
      assert n in a.names[name := node] <==> n in a.names[name := node] - {temp};
    }
    if temp !in c.names {
      assert c.names == c.names - {temp};
      assert a.names[name := node] == a.names[name := node] - {temp};
    }
  }

  lemma AroundIsOnlyName(a: State, b: State, name: string, temp: string)
    requires Around(a, b, temp) && Alone(a)
    ensures OnlyName(a.names, b.names, name, temp)
  {
    forall n | n != temp ensures Get(a.names, n) == Get(b.names, n) {
      assert n in a.names <==> n in a.names - {temp};
      assert n in b.names <==> n in b.names - {temp};
    }
    assert name != temp ==> Get(a.names, name) == Get(b.names, name);
  }

  /** The copying part of one turn. */
  method CopyOne(k: Kernel, name: string, temp: string, source: map<string, SourceFile>, uid: int, gid: int)
    returns (r: Result<bool, Raised>)
    requires Ledger(k.s) && k.s.private.None? && temp != name
    modifies k
    ensures Later(old(k.s), k.s) && Held(k.s) == Held(old(k.s))
    ensures k.s.renames == old(k.s).renames || GotSource(old(k.s), k.s, name, source, uid, gid)
    ensures r.Success? ==> k.s.private.None? && k.s.failures == old(k.s).failures
    ensures r.Success? ==> (r.value <==> k.s.renames != old(k.s).renames)
    ensures r.Failure? && k.s.renames == old(k.s).renames ==> PlainError(r.error)
    ensures r.Failure? && k.s.renames != old(k.s).renames && !Interrupted(old(k.s), k.s) ==> r.error.Known? && r.error.uncertain
    ensures Alone(old(k.s)) && temp !in old(k.s).names ==> OnlyName(old(k.s).names, k.s.names, name, temp)
    ensures Alone(old(k.s)) && temp !in old(k.s).names && r.Success? && name !in old(k.s).names ==>
      Turned(old(k.s).names, k.s.names, name, r.value, source, uid, gid)
    ensures k.s.failures == old(k.s).failures && Alone(old(k.s)) && SourceFine(source, name) ==> r.Success?
  {
    hide Ledger, Interrupted, Alone, Complete, Turned, OnlyName;
    ghost var s0 := k.s;
    assert Alone(s0) ==> OnlyName(s0.names, s0.names, name, temp) by { AroundSelf(s0, name, temp); }
    var stat := k.Plain(SourceCall);
    if stat.Some? {
      return Failure(PhaseError(SourceStatFailed, stat.value));
    }
    if name !in source {
      NothingToCopy(s0.names, name, source, uid, gid);
      return Success(false);
    }
    if !source[name].regular {
      return Failure(Known(SourceNotRegular, false));
    }
    ghost var s1 := k.s;
    var read := ReadSource(k, source[name]);
    LaterTransitive(s0, s1, k.s);
    if read.Failure? {
      return Failure(read.error);
    }
    ghost var s2 := k.s;
    var published := PublishCopy(k, temp, name, read.value.0, read.value.1, uid, gid);
    LaterTransitive(s0, s2, k.s);
    if k.s.renames != s2.renames {
      OneRenameAfter(s0, s2, k.s, name, source[name].content, source[name].mode, uid, gid);
      if Alone(s0) && temp !in s0.names {
        GainedTurns(s0, s2, k.s, name, temp, source, uid, gid);
      }
    } else if Alone(s0) {
      AroundIsOnlyName(s0, k.s, name, temp);
    }
    return if published.Some? then Failure(published.value) else Success(true);
  }

  lemma AroundSelf(s: State, name: string, temp: string)
    ensures OnlyName(s.names, s.names, name, temp)
  {
  }

  lemma NothingToCopy(a: map<string, Node>, name: string, source: map<string, SourceFile>, uid: int, gid: int)
    requires name !in source
    ensures name !in a ==> Turned(a, a, name, false, source, uid, gid)
  {
  }

  method InitializeOne(k: Kernel, name: string, temp: string, source: map<string, SourceFile>, uid: int, gid: int)
    returns (r: Result<bool, Raised>)
    requires Ledger(k.s) && k.s.private.None? && temp != name
    modifies k
    ensures Later(old(k.s), k.s) && Held(k.s) == Held(old(k.s))
    ensures k.s.renames == old(k.s).renames || GotSource(old(k.s), k.s, name, source, uid, gid)
    ensures r.Success? ==> k.s.private.None? && k.s.failures == old(k.s).failures
    ensures r.Success? ==> (r.value <==> k.s.renames != old(k.s).renames)
    ensures r.Failure? && k.s.renames == old(k.s).renames ==> PlainError(r.error)
    ensures r.Failure? && k.s.renames != old(k.s).renames && !Interrupted(old(k.s), k.s) ==> r.error.Known? && r.error.uncertain
    ensures Alone(old(k.s)) && temp !in old(k.s).names ==> OnlyName(old(k.s).names, k.s.names, name, temp)
    ensures Alone(old(k.s)) && temp !in old(k.s).names && r.Success? ==>
      Turned(old(k.s).names, k.s.names, name, r.value, source, uid, gid)
    ensures k.s.failures == old(k.s).failures && Alone(old(k.s)) && SourceFine(source, name) && TargetFine(old(k.s).names, name) ==>
      r.Success?
    ensures Fate(old(k.s)).OsFault? ==> r.Failure? && k.s.steps == Rest(old(k.s).steps)
  {
    hide Ledger, Interrupted, Alone, OnlyName, Complete;
    ghost var s0 := k.s;
    var there := NormalizeExisting(k, name, uid, gid, temp);
    if there.Failure? {
      return Failure(there.error);
    }
    if there.value {
      return Success(false);
    }
    ghost var s1 := k.s;
    r := CopyOne(k, name, temp, source, uid, gid);
    LaterTransitive(s0, s1, k.s);
    if k.s.renames != s1.renames {
      OneRenameAfter(s0, s1, k.s, name, source[name].content, source[name].mode, uid, gid);
    }
  }

  // ----- All configs -----

  lemma ConfigsDistinct()
    ensures forall i, j :: 0 <= i < j < |CONFIG_FILENAMES| ==> CONFIG_FILENAMES[i] != CONFIG_FILENAMES[j]
  {
    assert "models_fusion_rules.json"[7] != "models_router_rules.json"[7];
  }

  /** The configs that are missing in the target and there in the source. */
  function Wanted(k: nat, target: map<string, Node>, source: map<string, SourceFile>): seq<string>
    requires k <= |CONFIG_FILENAMES|
  {
    if k == 0 then []
    else
      var n := CONFIG_FILENAMES[k - 1];
      Wanted(k - 1, target, source) + if n !in target && n in source then [n] else []
  }

  lemma {:induction false} WantedMembers(k: nat, target: map<string, Node>, source: map<string, SourceFile>, n: string)
    requires k <= |CONFIG_FILENAMES|
    ensures n in Wanted(k, target, source) <==> n in CONFIG_FILENAMES[..k] && n !in target && n in source
  {
    if k > 0 {
      WantedMembers(k - 1, target, source, n);
      assert CONFIG_FILENAMES[..k] == CONFIG_FILENAMES[..k - 1] + [CONFIG_FILENAMES[k - 1]];
    }
  }

  /** The directory after the first k configs: all that was there still shows
      the same files, the configs among them with their new owner, and exactly
      the wanted ones came, complete. */
  ghost predicate Initialized(a: map<string, Node>, b: map<string, Node>, k: nat, source: map<string, SourceFile>, uid: int, gid: int)
    requires k <= |CONFIG_FILENAMES|
  {
    && (forall n :: n in b <==> n in a || n in Wanted(k, a, source))
    && (forall n :: n in a ==> n in b && Like(a[n], b[n]))
    && (forall n :: n in a && n in CONFIG_FILENAMES[..k] ==> n in b && b[n].File? && b[n].uid == uid && b[n].gid == gid)
    && (forall n :: n in b && n in Wanted(k, a, source) && n in source ==>
          Complete(b[n], source[n].content, source[n].mode, uid, gid))
  }

  lemma InitializedStep(a: map<string, Node>, b: map<string, Node>, c: map<string, Node>, k: nat, copied: bool,
                        source: map<string, SourceFile>, uid: int, gid: int)
    requires k < |CONFIG_FILENAMES|
    requires Initialized(a, b, k, source, uid, gid) && Turned(b, c, CONFIG_FILENAMES[k], copied, source, uid, gid)
    ensures Initialized(a, c, k + 1, source, uid, gid)
    ensures Wanted(k + 1, a, source) == Wanted(k, a, source) + if copied then [CONFIG_FILENAMES[k]] else []
  {
    hide Complete, Wanted, Like, Turned;
    var name := CONFIG_FILENAMES[k];
    WantedStep(a, b, c, k, copied, source, uid, gid);
    TurnedElsewhere(b, c, name, copied, source, uid, gid);
    forall n | n in a ensures n in c && Like(a[n], c[n])
      ensures n in CONFIG_FILENAMES[..k + 1] ==> c[n].File? && c[n].uid == uid && c[n].gid == gid
    {
      LikeOwned(a[n], b[n], uid, gid);
      assert n in CONFIG_FILENAMES[..k + 1] ==> n in CONFIG_FILENAMES[..k] || n == name;
    }
    forall n | n in c && n in Wanted(k + 1, a, source) && n in source
      ensures Complete(c[n], source[n].content, source[n].mode, uid, gid)
    {
      assert n != name ==> n in Wanted(k, a, source);
    }
  }

  lemma TurnedElsewhere(a: map<string, Node>, b: map<string, Node>, name: string, copied: bool,
                        source: map<string, SourceFile>, uid: int, gid: int)
    requires Turned(a, b, name, copied, source, uid, gid)
    ensures forall n :: n != name ==> (n in b <==> n in a) && (n in a ==> b[n] == a[n])
    ensures name in a ==> !copied && a[name].File? && name in b && b[name] == a[name].(uid := uid, gid := gid)
    ensures name !in a ==> (copied <==> name in b) && (copied <==> name in source)
    ensures copied ==> Complete(b[name], source[name].content, source[name].mode, uid, gid)
  {
  }

  lemma LikeOwned(a: Node, b: Node, uid: int, gid: int)
    requires Like(a, b)
    ensures b.File? ==> Like(a, b.(uid := uid, gid := gid))
  {
  }

  lemma WantedStep(a: map<string, Node>, b: map<string, Node>, c: map<string, Node>, k: nat, copied: bool,
                   source: map<string, SourceFile>, uid: int, gid: int)
    requires k < |CONFIG_FILENAMES|
    requires Initialized(a, b, k, source, uid, gid) && Turned(b, c, CONFIG_FILENAMES[k], copied, source, uid, gid)
    ensures Wanted(k + 1, a, source) == Wanted(k, a, source) + if copied then [CONFIG_FILENAMES[k]] else []
    ensures CONFIG_FILENAMES[k] in b <==> CONFIG_FILENAMES[k] in a
    ensures CONFIG_FILENAMES[k] !in Wanted(k, a, source)
    ensures CONFIG_FILENAMES[..k + 1] == CONFIG_FILENAMES[..k] + [CONFIG_FILENAMES[k]]
  {
    var name := CONFIG_FILENAMES[k];
    ConfigsDistinct();
    assert name !in CONFIG_FILENAMES[..k];
    WantedMembers(k, a, source, name);
    hide Complete, Like;
    assert name in b <==> name in a;
  }

  /** Nothing that was there is gone or shows another file. */
  ghost predicate Unharmed(a: map<string, Node>, b: map<string, Node>) {
    forall n :: n in a ==> n in b && Like(a[n], b[n])
  }

  lemma UnharmedByOne(a: map<string, Node>, b: map<string, Node>, c: map<string, Node>, name: string, temp: string)
    requires Unharmed(a, b) && OnlyName(b, c, name, temp) && temp !in a
    ensures Unharmed(a, c)
  {
    forall n | n in a ensures n in c && Like(a[n], c[n]) {
      assert Get(b, n) == Get(c, n) || n == name;
    }
  }

  /** The names given since a, and the complete files that got them. */
  ghost predicate Gave(a: State, b: State, names: seq<string>, source: map<string, SourceFile>, uid: int, gid: int) {
    && a.renames <= b.renames && |b.renames| == |a.renames| + |names|
    && forall i :: 0 <= i < |names| ==>
         names[i] in source && GaveOne(b.renames[|a.renames| + i], names[i], source[names[i]], uid, gid)
  }

  ghost predicate GaveOne(renamed: Renamed, name: string, file: SourceFile, uid: int, gid: int) {
    renamed.name == name && Complete(renamed.node, file.content, file.mode, uid, gid)
  }

  lemma GaveAnother(a: State, b: State, c: State, names: seq<string>, name: string, source: map<string, SourceFile>, uid: int, gid: int)
    requires Gave(a, b, names, source, uid, gid) && GotSource(b, c, name, source, uid, gid)
    ensures Gave(a, c, names + [name], source, uid, gid)
  {
  }

  ghost predicate Fresh(names: map<string, Node>, tokens: seq<string>) {
    forall i :: 0 <= i < |tokens| ==> Temp(tokens[i]) !in names
  }

  ghost predicate AllFine(names: map<string, Node>, source: map<string, SourceFile>) {
    forall n :: n in CONFIG_FILENAMES ==> SourceFine(source, n) && TargetFine(names, n)
  }

  lemma StaysFreshAndFine(a: map<string, Node>, b: map<string, Node>, tokens: seq<string>, k: nat, source: map<string, SourceFile>, uid: int, gid: int)
    requires k < |CONFIG_FILENAMES| && k < |tokens| && Fresh(a, tokens) && Initialized(a, b, k, source, uid, gid)
    ensures Temp(tokens[k]) !in b
    ensures AllFine(a, source) ==> SourceFine(source, CONFIG_FILENAMES[k]) && TargetFine(b, CONFIG_FILENAMES[k])
    ensures Unharmed(a, b)
  {
    TempIsNoConfig(tokens[k]);
    WantedMembers(k, a, source, Temp(tokens[k]));
    WantedMembers(k, a, source, CONFIG_FILENAMES[k]);
    assert CONFIG_FILENAMES[k] in CONFIG_FILENAMES;
  }

  /** The loop over the config names, with whatever ended it. */
  method CopyMissing(k: Kernel, source: map<string, SourceFile>, tokens: seq<string>, uid: int, gid: int)
    returns (copied: seq<string>, r: Option<Raised>)
    requires Ledger(k.s) && k.s.private.None? && |tokens| == |CONFIG_FILENAMES|
    modifies k
    ensures Later(old(k.s), k.s) && Held(k.s) == Held(old(k.s))
    ensures r.None? ==> k.s.failures == old(k.s).failures
    ensures r.None? ==> Gave(old(k.s), k.s, copied, source, uid, gid)
    ensures r.Some? && !Interrupted(old(k.s), k.s) ==>
      if Uncertain(r.value) then exists n :: Gave(old(k.s), k.s, copied + [n], source, uid, gid)
      else Gave(old(k.s), k.s, copied, source, uid, gid)
    ensures Alone(old(k.s)) && Fresh(old(k.s).names, tokens) ==> Unharmed(old(k.s).names, k.s.names)
    ensures Alone(old(k.s)) && Fresh(old(k.s).names, tokens) && r.None? ==>
      && copied == Wanted(|CONFIG_FILENAMES|, old(k.s).names, source)
      && Initialized(old(k.s).names, k.s.names, |CONFIG_FILENAMES|, source, uid, gid)
    ensures k.s.failures == old(k.s).failures && Alone(old(k.s)) && Fresh(old(k.s).names, tokens) && AllFine(old(k.s).names, source) ==>
      r.None?
    ensures Fate(old(k.s)).OsFault? ==> r.Some? && k.s.steps == Rest(old(k.s).steps)
  {
    hide Ledger, Interrupted, Alone, Initialized, Wanted, Gave, GotSource, Turned, OnlyName, Unharmed, Fresh, AllFine;
    ghost var s0 := k.s;
    copied := [];
    var i := 0;
    NothingYet(s0, source, uid, gid);
    while i < |CONFIG_FILENAMES|
      invariant i <= |CONFIG_FILENAMES| && k.s.private.None?
      invariant Later(s0, k.s) && Held(k.s) == Held(s0) && k.s.failures == s0.failures
      invariant Gave(s0, k.s, copied, source, uid, gid)
      invariant i == 0 ==> k.s == s0
      invariant Fate(s0).OsFault? ==> i == 0
      invariant Alone(s0) && Fresh(s0.names, tokens) ==>
        copied == Wanted(i, s0.names, source) && Initialized(s0.names, k.s.names, i, source, uid, gid)
    {
      var name, temp := CONFIG_FILENAMES[i], Temp(tokens[i]);
      TempIsNoConfig(tokens[i]);
      assert name in CONFIG_FILENAMES;
      ghost var before := k.s;
      if Alone(s0) && Fresh(s0.names, tokens) {
        StaysFreshAndFine(s0.names, before.names, tokens, i, source, uid, gid);
      }
      var turn := InitializeOne(k, name, temp, source, uid, gid);
      LaterTransitive(s0, before, k.s);
      if Alone(s0) && Fresh(s0.names, tokens) {
        FreshAt(s0.names, tokens, i);
        UnharmedByOne(s0.names, before.names, k.s.names, name, temp);
      }
      if k.s.renames != before.renames {
        GaveAnother(s0, before, k.s, copied, name, source, uid, gid);
      } else {
        GaveSame(s0, before, k.s, copied, source, uid, gid);
      }
      if turn.Failure? {
        return copied, Some(turn.error);
      }
      if Alone(s0) && Fresh(s0.names, tokens) {
        InitializedStep(s0.names, before.names, k.s.names, i, turn.value, source, uid, gid);
      }
      if turn.value {
        copied := copied + [name];
      }
      i := i + 1;
    }
    if Alone(s0) && Fresh(s0.names, tokens) {
      InitializedUnharmed(s0.names, k.s.names, i, source, uid, gid);
    }
    return copied, None;
  }

  predicate Uncertain(r: Raised) {
    r.Known? && r.uncertain
  }

  lemma NothingYet(s: State, source: map<string, SourceFile>, uid: int, gid: int)
    ensures Gave(s, s, [], source, uid, gid) && Wanted(0, s.names, source) == []
    ensures Initialized(s.names, s.names, 0, source, uid, gid) && Later(s, s)
  {
  }

  lemma FreshAt(names: map<string, Node>, tokens: seq<string>, i: nat)
    requires Fresh(names, tokens) && i < |tokens|
    ensures Temp(tokens[i]) !in names
  {
  }

  lemma GaveSame(a: State, b: State, c: State, names: seq<string>, source: map<string, SourceFile>, uid: int, gid: int)
    requires Gave(a, b, names, source, uid, gid) && c.renames == b.renames
    ensures Gave(a, c, names, source, uid, gid)
  {
  }

  lemma InitializedUnharmed(a: map<string, Node>, b: map<string, Node>, k: nat, source: map<string, SourceFile>, uid: int, gid: int)
    requires k <= |CONFIG_FILENAMES| && Initialized(a, b, k, source, uid, gid)
    ensures Unharmed(a, b)
  {
  }

  // ----- The two directories -----

  /** What every step outside the target directory keeps. */
  ghost predicate Elsewhere(a: State, b: State) {
    Later(a, b) && SameFiles(a, b)
  }

  lemma ElsewhereTransitive(a: State, b: State, c: State)
    requires Elsewhere(a, b) && Elsewhere(b, c)
    ensures Elsewhere(a, c)
    ensures Interrupted(a, b) || Interrupted(b, c) ==> Interrupted(a, c)
  {
    LaterTransitive(a, b, c);
  }

  /** The next n calls do what they should. */
  ghost predicate FineFor(steps: seq<Step>, n: nat) {
    n <= |steps| && forall i :: 0 <= i < n ==> steps[i].fault == Fine
  }

  lemma FineAfter(steps: seq<Step>, m: nat, n: nat)
    requires FineFor(steps, m + n)
    ensures FineFor(steps, m) && FineFor(steps[m..], n) && steps[m..][n..] == steps[m + n..]
  {
  }

  /** _open_directory: the caller gets the descriptor, or none is left open. */
  method OpenDirectory(k: Kernel, dir: Directory, source: bool) returns (r: Result<nat, Raised>)
    requires Ledger(k.s)
    modifies k
    ensures Elsewhere(old(k.s), k.s)
    ensures r.Success? ==> dir == Present(true) && r.value !in Held(old(k.s)) && Held(k.s) == Held(old(k.s)) + {r.value}
    ensures r.Success? ==> k.s.failures == old(k.s).failures
    ensures r.Failure? ==> Held(k.s) == Held(old(k.s)) && PlainError(r.error)
    ensures k.s.failures == old(k.s).failures && dir == Present(true) ==> r.Success?
    ensures FineFor(old(k.s).steps, 3) && dir == Present(true) ==> r.Success? && k.s.steps == old(k.s).steps[3..]
  {
    hide Ledger, Interrupted, Alone;
    ghost var s0 := k.s;
    var raised := k.Plain(SourceCall);
    if raised.Some? {
      return Failure(PhaseError(DirectoryReason(source, Unstattable), raised.value));
    }
    if dir.Absent? {
      return Failure(Known(DirectoryReason(source, Missing), false));
    }
    if !dir.Present? {
      return Failure(Known(DirectoryReason(source, if dir.Link? then Symlink else NotDirectory), false));
    }
    ghost var s1 := k.s;
    var owner := new OwnedFd(None);
    var handle := k.OpenOther("");
    ElsewhereTransitive(s0, s1, k.s);
    if handle.Failure? {
      return Failure(PhaseError(DirectoryReason(source, Unopenable), handle.error));
    }
    var populated := owner.Assign(handle.value);
    ghost var s2 := k.s;
    raised := k.Plain(SourceCall);
    ElsewhereTransitive(s0, s2, k.s);
    var primary :=
      if raised.Some? then Some(PhaseError(DirectoryReason(source, Unstattable), raised.value))
      else if !dir.same then Some(Known(DirectoryReason(source, Replaced), false))
      else None;
    if primary.Some? {
      ghost var s3 := k.s;
      var escape;
      primary, escape := FinishClose(k, owner, primary, DirectoryReason(source, Uncloseable));
      ElsewhereTransitive(s0, s3, k.s);
      return Failure(if escape.Some? then escape.value else primary.value);
    }
    var fd := owner.Take();
    return Success(fd.value);
  }

  /** What mkdir leaves when it succeeds, or finds that something is there. */
  function Made(dir: Directory): Directory {
    if dir.Absent? then Present(true) else dir
  }

  /** _ensure_target_directory: a missing directory is made. */
  method EnsureTargetDirectory(k: Kernel, dir: Directory) returns (r: Result<nat, Raised>)
    requires Ledger(k.s)
    modifies k
    ensures Elsewhere(old(k.s), k.s)
    ensures r.Success? ==> Made(dir) == Present(true) && r.value !in Held(old(k.s)) && Held(k.s) == Held(old(k.s)) + {r.value}
    ensures r.Success? ==> k.s.failures == old(k.s).failures
    ensures r.Failure? ==> Held(k.s) == Held(old(k.s)) && PlainError(r.error)
    ensures k.s.failures == old(k.s).failures && Made(dir) == Present(true) ==> r.Success?
    ensures FineFor(old(k.s).steps, 7) && Made(dir) == Present(true) ==> r.Success? && k.s.steps == old(k.s).steps[7..]
  {
    hide Ledger, Interrupted, Alone;
    ghost var s0 := k.s;
    if FineFor(s0.steps, 7) {
      FineAfter(s0.steps, 1, 6);
      FineAfter(s0.steps[1..], 3, 3);
    }
    var raised := k.Plain(SourceCall);
    if raised.Some? {
      return Failure(PhaseError(DirectoryReason(false, Uncreatable), raised.value));
    }
    ghost var s1 := k.s;
    var handle := OpenDirectory(k, Made(dir), false);
    ElsewhereTransitive(s0, s1, k.s);
    if handle.Failure? {
      return handle;
    }
    var owner := new OwnedFd(Some(handle.value));
    ghost var s2 := k.s;
    raised := OwnDirectory(k);
    ElsewhereTransitive(s0, s2, k.s);
    if raised.Some? {
      ghost var s3 := k.s;
      var primary, escape := FinishClose(k, owner, Some(PhaseError(DirectoryReason(false, Unchangeable), raised.value)),
                                         DirectoryReason(false, Uncloseable));
      ElsewhereTransitive(s0, s3, k.s);
      return Failure(if escape.Some? then escape.value else primary.value);
    }
    var fd := owner.Take();
    return Success(fd.value);
  }

  /** fchmod, fchown and fsync of the directory. */
  method OwnDirectory(k: Kernel) returns (raised: Option<Raised>)
    modifies k
    ensures Elsewhere(old(k.s), k.s) && SameDescriptors(old(k.s), k.s)
    ensures raised.None? <==> k.s.failures == old(k.s).failures
    ensures raised.Some? ==> !raised.value.Known?
    ensures FineFor(old(k.s).steps, 3) ==> raised.None? && k.s.steps == old(k.s).steps[3..]
  {
    ghost var s0 := k.s;
    raised := k.Plain(SourceCall);
    if raised.Some? {
      return;
    }
    ghost var s1 := k.s;
    raised := k.Plain(SourceCall);
    ElsewhereTransitive(s0, s1, k.s);
    if raised.Some? {
      return;
    }
    ghost var s2 := k.s;
    raised := k.Plain(SourceCall);
    ElsewhereTransitive(s0, s2, k.s);
  }

  // ----- initialize_config_directory -----

  /** If nothing but OSErrors was raised: what was published, and that the error
      is marked uncertain exactly if one name more was given than reported. */
  ghost predicate Accounted(a: State, b: State, copied: seq<string>, r: Option<Raised>, source: map<string, SourceFile>, uid: int, gid: int) {
    OnlyOs(b, |a.failures|) ==>
      if r.Some? && Uncertain(r.value) then exists n :: Gave(a, b, copied + [n], source, uid, gid)
      else Gave(a, b, copied, source, uid, gid)
  }

  /** What the directory is like if no other process is there. */
  ghost predicate Left(a: State, b: State, copied: seq<string>, r: Option<Raised>, source: map<string, SourceFile>, uid: int, gid: int) {
    && Unharmed(a.names, b.names)
    && (r.None? ==> copied == Wanted(|CONFIG_FILENAMES|, a.names, source)
                    && Initialized(a.names, b.names, |CONFIG_FILENAMES|, source, uid, gid))
  }

  lemma OnlyOsBefore(a: State, b: State, n: nat)
    requires a.failures <= b.failures && OnlyOs(b, n)
    ensures OnlyOs(a, n)
  {
    forall i | n <= i < |a.failures| ensures a.failures[i].raised.OsError? {
      assert b.failures[i] == a.failures[i];
    }
  }

  lemma OnlyOsNotInterrupted(a: State, b: State)
    requires OnlyOs(b, |a.failures|)
    ensures !Interrupted(a, b)
  {
  }

  /** Steps that leave the directory and the mark alone change nothing about it. */
  lemma AccountedAround(a: State, b: State, c: State, d: State, copied: seq<string>, r: Option<Raised>, r': Option<Raised>,
                        source: map<string, SourceFile>, uid: int, gid: int)
    requires Elsewhere(a, b) && Later(b, c) && Elsewhere(c, d) && Accounted(b, c, copied, r, source, uid, gid)
    requires OnlyOs(d, |c.failures|) ==> (r'.Some? && Uncertain(r'.value) <==> r.Some? && Uncertain(r.value))
    ensures Accounted(a, d, copied, r', source, uid, gid)
  {
    if OnlyOs(d, |a.failures|) {
      LaterTransitive(a, b, c);
      OnlyOsBefore(c, d, |a.failures|);
      if r.Some? && Uncertain(r.value) {
        var n :| Gave(b, c, copied + [n], source, uid, gid);
        assert Gave(a, d, copied + [n], source, uid, gid);
      } else {
        assert Gave(a, d, copied, source, uid, gid);
      }
    }
  }

  lemma CopyAccounted(a: State, b: State, copied: seq<string>, r: Option<Raised>, source: map<string, SourceFile>, uid: int, gid: int)
    requires r.None? ==> Gave(a, b, copied, source, uid, gid)
    requires r.Some? && !Interrupted(a, b) ==>
      if Uncertain(r.value) then exists n :: Gave(a, b, copied + [n], source, uid, gid)
      else Gave(a, b, copied, source, uid, gid)
    ensures Accounted(a, b, copied, r, source, uid, gid)
  {
    if OnlyOs(b, |a.failures|) {
      OnlyOsNotInterrupted(a, b);
    }
  }

  lemma NothingGiven(a: State, b: State, r: Option<Raised>, source: map<string, SourceFile>, uid: int, gid: int)
    requires Elsewhere(a, b) && r.Some? && !Uncertain(r.value)
    ensures Accounted(a, b, [], r, source, uid, gid)
    ensures Alone(a) ==> Left(a, b, [], r, source, uid, gid)
  {
    assert Gave(a, b, [], source, uid, gid);
  }

  /** Only regular files, and nobody else around. */
  ghost predicate Ordinary(s: State, source: map<string, SourceFile>, tokens: seq<string>) {
    Alone(s) && Fresh(s.names, tokens) && AllFine(s.names, source)
  }

  /** The next n calls do what they should, and the one after them fails. */
  ghost predicate FineThenFault(steps: seq<Step>, n: nat) {
    FineFor(steps, n) && n < |steps| && steps[n].fault.OsFault?
  }

  /** The try statement: with the target descriptor, up to the last fsync. */
  method TryInitialize(k: Kernel, owner: OwnedFd, targetDir: Directory, source: map<string, SourceFile>, tokens: seq<string>, uid: int, gid: int)
    returns (copied: seq<string>, r: Option<Raised>)
    requires Ledger(k.s) && k.s.private.None? && |tokens| == |CONFIG_FILENAMES| && owner.fd.None?
    modifies k, owner
    ensures Later(old(k.s), k.s)
    ensures Held(k.s) == Held(old(k.s)) + FdSet(owner.fd) && FdSet(owner.fd) !! Held(old(k.s))
    ensures Accounted(old(k.s), k.s, copied, r, source, uid, gid)
    ensures Alone(old(k.s)) && Fresh(old(k.s).names, tokens) ==> Left(old(k.s), k.s, copied, r, source, uid, gid)
    ensures r.None? ==> k.s.failures == old(k.s).failures
    ensures k.s.failures == old(k.s).failures && Ordinary(old(k.s), source, tokens) && Made(targetDir) == Present(true) ==> r.None?
    ensures Made(targetDir) == Present(true) && FineThenFault(old(k.s).steps, 7) ==> owner.fd.Some? && k.s.steps == old(k.s).steps[8..]
  {
    hide Ledger, Interrupted, Alone, Accounted, Left, Gave, Initialized, Fresh, AllFine, Unharmed;
    ghost var s0 := k.s;
    copied := [];
    var handle := EnsureTargetDirectory(k, targetDir);
    OrdinaryElsewhere(s0, k.s, source, tokens);
    if handle.Failure? {
      r := Some(handle.error);
      NothingGiven(s0, k.s, r, source, uid, gid);
      return;
    }
    var populated := owner.Assign(handle.value);
    ghost var s1 := k.s;
    copied, r := CopyMissing(k, source, tokens, uid, gid);
    CopyAccounted(s1, k.s, copied, r, source, uid, gid);
    LaterTransitive(s0, s1, k.s);
    ghost var s2, r2 := k.s, r;
    LeftBetween(s0, s1, s2, s2, copied, r, source, tokens, uid, gid);
    SelfElsewhere(s2);
    AccountedAround(s0, s1, s2, s2, copied, r, r, source, uid, gid);
    if r.Some? {
      return;
    }
    var raised := k.Plain(SyncDirectory);
    LaterTransitive(s0, s2, k.s);
    r := if raised.Some? then Some(PhaseError(DirectorySyncFailed, raised.value)) else None;
    AccountedAround(s0, s1, s2, k.s, copied, r2, r, source, uid, gid);
    LeftBetween(s0, s1, s2, k.s, copied, r2, source, tokens, uid, gid);
    LeftWeaker(s0, k.s, copied, r2, r, source, uid, gid);
  }

  lemma SelfElsewhere(s: State)
    ensures Elsewhere(s, s)
  {
  }

  lemma LeftBetween(a: State, b: State, c: State, d: State, copied: seq<string>, r: Option<Raised>, source: map<string, SourceFile>,
                    tokens: seq<string>, uid: int, gid: int)
    requires Elsewhere(a, b) && Later(b, c) && (c == d || Elsewhere(c, d))
    requires Alone(b) && Fresh(b.names, tokens) ==> Unharmed(b.names, c.names)
    requires Alone(b) && Fresh(b.names, tokens) && r.None? ==>
      && copied == Wanted(|CONFIG_FILENAMES|, b.names, source)
      && Initialized(b.names, c.names, |CONFIG_FILENAMES|, source, uid, gid)
    ensures Alone(a) && Fresh(a.names, tokens) ==> Left(a, d, copied, r, source, uid, gid)
    ensures Alone(a) ==> Alone(c) && b.names == a.names
  {
  }

  lemma LeftWeaker(a: State, b: State, copied: seq<string>, r: Option<Raised>, r': Option<Raised>, source: map<string, SourceFile>, uid: int, gid: int)
    requires r.None?
    ensures Left(a, b, copied, r, source, uid, gid) ==> Left(a, b, copied, r', source, uid, gid)
  {
  }

  lemma LeftAround(a: State, b: State, c: State, d: State, copied: seq<string>, r: Option<Raised>, r': Option<Raised>,
                   source: map<string, SourceFile>, tokens: seq<string>, uid: int, gid: int)
    requires Elsewhere(a, b) && Later(b, c) && Elsewhere(c, d) && (r'.None? ==> r.None?) && Alone(a)
    requires Alone(b) && Fresh(b.names, tokens) ==> Left(b, c, copied, r, source, uid, gid)
    ensures Fresh(a.names, tokens) ==> Left(a, d, copied, r', source, uid, gid)
  {
  }

  lemma OrdinaryElsewhere(a: State, b: State, source: map<string, SourceFile>, tokens: seq<string>)
    requires Elsewhere(a, b)
    ensures Ordinary(a, source, tokens) ==> Ordinary(b, source, tokens)
  {
  }

  /** The state in which the directories' descriptors are about to be closed,
      the target's first, if the run gets that far. */
  datatype Closing = NotReached | Reached(at: State, source: nat, target: Option<nat>)

  /** What nobody closes: the source directory's descriptor, exactly if there is
      a target descriptor whose close raises something else than an OSError. */
  function Leaked(c: Closing): set<nat> {
    if c.Reached? && c.target.Some? && Escapes(Fate(c.at)) then {c.source} else {}
  }

  /** What happens to the call after the target's close, if there is one. */
  function SourceFate(c: Closing): Fault
    requires c.Reached?
  {
    Fate(if c.target.Some? then c.at.(steps := Rest(c.at.steps)) else c.at)
  }

  /** The source directory's descriptor stays open if nobody closes it, or if an
      interrupt comes before its own close. */
  predicate SourceStays(c: Closing)
    requires c.Reached?
  {
    Leaked(c) != {} || Missed(SourceFate(c))
  }

  /** The target directory's descriptor stays open if an interrupt comes before
      its close. */
  predicate TargetStays(c: Closing)
    requires c.Reached?
  {
    Missed(Fate(c.at))
  }

  /** Which of the two descriptors are open in the end. */
  ghost predicate Settled(c: Closing, end: State)
    requires c.Reached?
  {
    && (c.source in end.open <==> SourceStays(c))
    && (c.target.Some? ==> (c.target.value in end.open <==> TargetStays(c)))
  }

  /** The two closes at the end. */
  method CloseBoth(k: Kernel, target: OwnedFd, source: OwnedFd, primary: Option<Raised>) returns (r: Option<Raised>)
    requires Ledger(k.s) && target != source && source.fd.Some? && source.fd.value in Held(k.s)
    requires target.fd.Some? ==> target.fd.value in Held(k.s) && target.fd != source.fd
    modifies k, target, source
    ensures Elsewhere(old(k.s), k.s)
    ensures Held(k.s) == Held(old(k.s)) - FdSet(old(target.fd)) - FdSet(old(source.fd)) + Leaked(Reached(old(k.s), old(source.fd).value, old(target.fd)))
    ensures Leaked(Reached(old(k.s), old(source.fd).value, old(target.fd))) != {} ==>
      r.Some? && r.value in {Trouble, Interrupt} && Closed(old(k.s), k.s, r.value)
    ensures OnlyOs(k.s, |old(k.s).failures|) ==>
      (r.Some? && Uncertain(r.value) <==> primary.Some? && Uncertain(primary.value))
    ensures r.None? ==> primary.None? && k.s.failures == old(k.s).failures
    ensures k.s.failures == old(k.s).failures ==> r == primary
    ensures Settled(Reached(old(k.s), old(source.fd).value, old(target.fd)), k.s)
  {
    hide Ledger, Interrupted, Alone;
    ghost var s0 := k.s;
    var escape;
    r, escape := FinishClose(k, target, primary, DirectoryReason(false, Uncloseable));
    if escape.Some? {
      assert k.s.failures[|s0.failures|].raised == escape.value;
      return escape;
    }
    ghost var s1, r1 := k.s, r;
    r, escape := FinishClose(k, source, r, DirectoryReason(true, Uncloseable));
    ElsewhereTransitive(s0, s1, k.s);
    if escape.Some? {
      assert k.s.failures[|s1.failures|].raised == escape.value;
      r := escape;
    } else if OnlyOs(k.s, |s0.failures|) {
      FailuresGrow(s0, s1, k.s);
    }
  }

  lemma FailuresGrow(a: State, b: State, c: State)
    requires a.failures <= b.failures <= c.failures
    ensures c.failures == a.failures ==> b.failures == a.failures
  {
  }

  /** initialize_config_directory, whatever the schedule. Every descriptor is
      closed exactly once, with two exceptions that stay open: those that an
      interrupt takes away just after they were opened or just before they are
      closed, and the source directory's if closing the target directory raises
      something else than an OSError, which is then the last failure and the
      outcome. If only OSErrors are raised, the published names are the reported
      ones, and one more exactly if the error is marked uncertain; each got a
      complete file that was on disk. With no other process around, nothing that
      was there changes but its owner, and success means that exactly the
      missing configs were copied. Without a failing call, and with regular
      files only, it does succeed, and makes the target directory if it is
      missing. */
  method Initialize(k: Kernel, sourceDir: Directory, targetDir: Directory, source: map<string, SourceFile>, tokens: seq<string>, uid: int, gid: int)
    returns (copied: seq<string>, r: Option<Raised>, ghost closing: Closing)
    requires Ledger(k.s) && k.s.private.None? && |tokens| == |CONFIG_FILENAMES|
    modifies k
    ensures Later(old(k.s), k.s)
    ensures Held(k.s) == Held(old(k.s)) + Leaked(closing) && Leaked(closing) !! Held(old(k.s))
    ensures Account(old(k.s), k.s, Leaked(closing))
    ensures closing.Reached? ==> Settled(closing, k.s)
    ensures closing.Reached? ==> Later(old(k.s), closing.at) && Later(closing.at, k.s)
    ensures closing.Reached? ==> Held(closing.at) == Held(old(k.s)) + {closing.source} + FdSet(closing.target)
    ensures Leaked(closing) != {} ==> r.Some? && r.value in {Trouble, Interrupt} && Closed(closing.at, k.s, r.value)
    ensures Accounted(old(k.s), k.s, copied, r, source, uid, gid)
    ensures Alone(old(k.s)) && Fresh(old(k.s).names, tokens) ==> Left(old(k.s), k.s, copied, r, source, uid, gid)
    ensures r.None? ==> k.s.failures == old(k.s).failures && uid >= 0 && gid >= 0
    ensures k.s.failures == old(k.s).failures && Ordinary(old(k.s), source, tokens) ==>
      sourceDir == Present(true) && Made(targetDir) == Present(true) && uid >= 0 && gid >= 0 ==> r.None?
    ensures sourceDir == Present(true) && Made(targetDir) == Present(true) && uid >= 0 && gid >= 0 && FineThenFault(old(k.s).steps, 10) ==>
      closing.Reached? && closing.target.Some? && closing.at.steps == old(k.s).steps[11..]
  {
    hide Ledger, Interrupted, Alone, Accounted, Left, Gave, Initialized, Fresh, AllFine, Unharmed, Ordinary, Escapes,
         Settled, Account;
    ghost var s0 := k.s;
    SelfElsewhere(s0);
    copied, closing := [], NotReached;
    AccountIs(s0, s0, {});
    if uid < 0 || gid < 0 {
      r := Some(Known(IdentityInvalid, false));
      NothingGiven(s0, k.s, r, source, uid, gid);
      return;
    }
    var handle := OpenDirectory(k, sourceDir, true);
    if handle.Failure? {
      AccountIs(s0, k.s, {});
      r := Some(handle.error);
      NothingGiven(s0, k.s, r, source, uid, gid);
      return;
    }
    var sourceOwner := new OwnedFd(Some(handle.value));
    var targetOwner := new OwnedFd(None);
    ghost var s1 := k.s;
    if FineThenFault(s0.steps, 10) {
      FineAfter(s0.steps, 3, 7);
    }
    copied, r := TryInitialize(k, targetOwner, targetDir, source, tokens, uid, gid);
    ghost var s2, r2 := k.s, r;
    closing := Reached(s2, handle.value, targetOwner.fd);
    LaterTransitive(s0, s1, s2);
    r := CloseBoth(k, targetOwner, sourceOwner, r);
    LaterTransitive(s0, s2, k.s);
    AccountIs(s0, k.s, Leaked(closing));
    AccountedAround(s0, s1, s2, k.s, copied, r2, r, source, uid, gid);
    OrdinaryElsewhere(s0, s1, source, tokens);
    if Alone(s0) {
      LeftAround(s0, s1, s2, k.s, copied, r2, r, source, tokens, uid, gid);
    }
  }

  /** The state of a process without descriptors, in an empty directory: the
      directories are opened, the first look at a config fails with an OSError,
      and then the closes meet the given faults. */
  function BeforeFailure(closes: seq<Fault>): (s: State)
    ensures Ledger(s) && s.private.None? && s.nextFd == 0 && s.open == map[] && s.lost == {}
    ensures FineThenFault(s.steps, 10) && s.steps[11..] == seq(|closes|, i requires 0 <= i < |closes| => Step(closes[i], map[], 0))
  {
    var fine, failing := Step(Fine, map[], 0), Step(OsFault(false), map[], 0);
    var last := seq(|closes|, i requires 0 <= i < |closes| => Step(closes[i], map[], 0));
    State(map[], None, map[], 0, multiset{}, {}, [], [], 0, [], seq(10, i => fine) + [failing] + last)
  }

  /** A run in which nobody closes the source directory, because the close of
      the target directory raises something else than an OSError; if that is an
      interrupt before the close, the target's descriptor stays open as well. */
  method InterruptedClose(targetDir: Directory, source: map<string, SourceFile>, tokens: seq<string>, fault: Fault)
    returns (k: Kernel, fd: nat, ghost closing: Closing)
    requires Made(targetDir) == Present(true) && |tokens| == |CONFIG_FILENAMES| && Escapes(fault)
    ensures Held(k.s) == {fd} && k.s.closes[fd] == 0
    ensures closing.Reached? && closing.source == fd && closing.target.Some?
    ensures closing.target.value in k.s.open <==> fault == InterruptFault(false)
  {
    k := new Kernel(BeforeFailure([fault]));
    var copied, r;
    copied, r, closing := Initialize(k, Present(true), targetDir, source, tokens, 1000, 1000);
    assert Fate(closing.at) == fault && Leaked(closing) == {closing.source};
    fd :| fd in Held(k.s);
  }

  /** A run in which the source directory's own close is interrupted before it
      is done: nobody has a descriptor in the end, and the source directory's is
      open all the same. */
  method InterruptedSourceClose(targetDir: Directory, source: map<string, SourceFile>, tokens: seq<string>)
    returns (k: Kernel, ghost closing: Closing)
    requires Made(targetDir) == Present(true) && |tokens| == |CONFIG_FILENAMES|
    ensures closing.Reached? && closing.target.Some? && Leaked(closing) == {} && Held(k.s) == {}
    ensures closing.source in k.s.open && closing.source in k.s.lost && k.s.closes[closing.source] == 0
    ensures closing.target.value !in k.s.open
  {
    hide Account, Accounted, Left, Ordinary, Alone, Later, Recorded;
    k := new Kernel(BeforeFailure([Fine, InterruptFault(false)]));
    var copied, r;
    copied, r, closing := Initialize(k, Present(true), targetDir, source, tokens, 1000, 1000);
    assert Fate(closing.at) == Fine && SourceFate(closing) == InterruptFault(false);
    assert Ledger(k.s) by { LedgerAfter(BeforeFailure([Fine, InterruptFault(false)]), k.s); }
  }

  lemma LedgerAfter(a: State, b: State)
    requires Ledger(a) && Later(a, b)
    ensures Ledger(b)
  {
  }
}
