/** _publish_copy of scripts/init_docker_config.py under every schedule of
    failing system calls. */
module ConfigPublication {
  import opened Wrappers
  import opened ConfigKernel

  // ----- _OwnedFd -----

  class OwnedFd {
    var fd: Option<nat>

    constructor (fd: Option<nat>)
      ensures this.fd == fd
    {
      this.fd := fd;
    }

    /** False if the owner is already populated. */
    method Assign(newFd: nat) returns (ok: bool)
      modifies this
      ensures ok == old(fd).None?
      ensures fd == if ok then Some(newFd) else old(fd)
    {
      ok := fd.None?;
      if ok {
        fd := Some(newFd);
      }
    }

    /** The descriptor leaves the owner before anything can fail. */
    method Take() returns (taken: Option<nat>)
      modifies this
      ensures taken == old(fd) && fd.None?
    {
      taken := fd;
      fd := None;
    }

    /** close_error: an OSError is returned, anything else is raised. */
    method CloseError(k: Kernel) returns (error: Option<Errno>, escape: Option<Raised>)
      requires Ledger(k.s) && (fd.Some? ==> fd.value in Held(k.s))
      modifies this, k
      ensures fd.None? && Held(k.s) == Held(old(k.s)) - FdSet(old(fd))
      ensures Later(old(k.s), k.s) && SameFiles(old(k.s), k.s)
      ensures error.Some? ==> Closed(old(k.s), k.s, OsError(error.value))
      ensures escape.Some? ==> error.None? && escape.value in {Trouble, Interrupt} && Closed(old(k.s), k.s, escape.value)
      ensures error.None? && escape.None? ==> k.s.failures == old(k.s).failures
      ensures escape == Some(Interrupt) ==> Interrupted(old(k.s), k.s)
      ensures old(fd).None? ==> error.None? && escape.None? && k.s == old(k.s)
      ensures escape.Some? <==> old(fd).Some? && Escapes(Fate(old(k.s)))
      ensures old(fd).Some? ==> CloseTried(old(k.s), k.s, old(fd).value)
    {
      var taken := Take();
      if taken.None? {
        return None, None;
      }
      var raised := k.Close(taken.value);
      match raised
      case None => return None, None;
      case Some(OsError(errno)) => return Some(errno), None;
      case Some(_) => return None, raised;
    }
  }

  function FdSet(fd: Option<nat>): set<nat> {
    if fd.Some? then {fd.value} else {}
  }

  /** One close: the descriptor stays open exactly if an interrupt comes first. */
  ghost predicate CloseTried(a: State, b: State, fd: nat) {
    && b.open.Keys == a.open.Keys - (if Missed(Fate(a)) then {} else {fd})
    && b.steps == Rest(a.steps)
  }

  ghost predicate Closed(a: State, b: State, raised: Raised) {
    b.failures == a.failures + [Failed(CloseCall, raised, |b.renames|)]
  }

  /** Every failure from the n-th on is an OSError. */
  ghost predicate OnlyOs(s: State, n: nat) {
    forall i :: n <= i < |s.failures| ==> s.failures[i].raised.OsError?
  }

  /** _finish_close: the error there already wins over a failing close. */
  method FinishClose(k: Kernel, owner: OwnedFd, primary: Option<Raised>, reason: Reason)
    returns (r: Option<Raised>, escape: Option<Raised>)
    requires Ledger(k.s) && (owner.fd.Some? ==> owner.fd.value in Held(k.s))
    modifies owner, k
    ensures owner.fd.None? && Held(k.s) == Held(old(k.s)) - FdSet(old(owner.fd))
    ensures Later(old(k.s), k.s) && SameFiles(old(k.s), k.s)
    ensures k.s.failures == old(k.s).failures || exists e :: Closed(old(k.s), k.s, e)
    ensures escape.Some? ==> escape.value in {Trouble, Interrupt} && Closed(old(k.s), k.s, escape.value)
    ensures escape == Some(Interrupt) ==> Interrupted(old(k.s), k.s)
    ensures escape.None? ==> OnlyOs(k.s, |old(k.s).failures|)
    ensures escape.None? && primary.Some? ==> r == primary
    ensures escape.None? && primary.None? ==>
      r == if k.s.failures == old(k.s).failures then None else Some(Known(reason, false))
    ensures old(owner.fd).None? ==> k.s == old(k.s) && r == primary && escape.None?
    ensures escape.Some? <==> old(owner.fd).Some? && Escapes(Fate(old(k.s)))
    ensures old(owner.fd).Some? ==> CloseTried(old(k.s), k.s, old(owner.fd).value)
  {
    var error;
    error, escape := owner.CloseError(k);
    r := if error.Some? && primary.None? then Some(Known(reason, false)) else primary;
  }

  // ----- _write_all and _read_all -----

  method WriteAll(k: Kernel, temp: string, content: Content) returns (r: Option<Raised>)
    requires HasTemp(k.s, temp) && k.s.names[temp].content == []
    modifies k
    ensures Later(old(k.s), k.s) && SameDescriptors(old(k.s), k.s)
    ensures k.s.renames == old(k.s).renames && k.s.unlinks == old(k.s).unlinks
    ensures HasTemp(k.s, temp) && Around(old(k.s), k.s, temp) && k.s.names[temp].ino == old(k.s).names[temp].ino
    ensures r.None? ==> k.s.names[temp].content == content && k.s.failures == old(k.s).failures
    ensures r.Some? ==> !r.value.Known? && k.s.failures == old(k.s).failures + [Failed(WriteCall, r.value, |k.s.renames|)]
  {
    var offset: nat := 0;
    while offset < |content|
      invariant offset <= |content| && HasTemp(k.s, temp) && k.s.names[temp].content == content[..offset]
      invariant Later(old(k.s), k.s) && SameDescriptors(old(k.s), k.s) && Around(old(k.s), k.s, temp)
      invariant k.s.renames == old(k.s).renames && k.s.unlinks == old(k.s).unlinks
      invariant k.s.failures == old(k.s).failures && k.s.names[temp].ino == old(k.s).names[temp].ino
      decreases |k.s.steps|, |content| - offset
    {
      ghost var before := k.s;
      var written := k.WriteTemp(temp, content[offset..]);
      LaterTransitive(old(k.s), before, k.s);
      if written.Failure? {
        return Some(written.error);
      }
      if written.value == 0 {
        ghost var between := k.s;
        k.Refuse(WriteCall);
        LaterTransitive(old(k.s), between, k.s);
        return Some(OsError(OtherErrno));
      }
      assert content[..offset] + content[offset..][..written.value] == content[..offset + written.value];
      offset := offset + written.value;
    }
    assert content[..offset] == content;
    return None;
  }

  ghost function Remaining(s: State, fd: nat, offset: nat): nat {
    if s.steps == [] && fd in s.open && View(s, fd).File? && offset < |View(s, fd).content|
    then |View(s, fd).content| - offset else 0
  }

  method ReadAll(k: Kernel, fd: nat) returns (r: Result<Content, Raised>)
    requires fd in k.s.open
    modifies k
    ensures Later(old(k.s), k.s) && SameDescriptors(old(k.s), k.s) && SameFiles(old(k.s), k.s)
    ensures r.Success? ==> k.s.failures == old(k.s).failures
    ensures r.Failure? ==> !r.error.Known? && k.s.failures == old(k.s).failures + [Failed(ReadCall, r.error, |k.s.renames|)]
    ensures r.Success? && Alone(old(k.s)) ==> View(k.s, fd).File? && r.value == View(k.s, fd).content
    ensures r == Failure(Interrupt) ==> Interrupted(old(k.s), k.s)
  {
    var content := [];
    while true
      invariant Later(old(k.s), k.s) && SameDescriptors(old(k.s), k.s) && SameFiles(old(k.s), k.s)
      invariant k.s.failures == old(k.s).failures
      invariant Alone(old(k.s)) && content != [] ==> View(k.s, fd).File? && content <= View(k.s, fd).content
      decreases |k.s.steps|, Remaining(k.s, fd, |content|)
    {
      ghost var before := k.s;
      var chunk := k.Read(fd, |content|);
      LaterTransitive(old(k.s), before, k.s);
      if chunk.Failure? {
        return Failure(chunk.error);
      }
      if chunk.value == [] {
        return Success(content);
      }
      content := content + chunk.value;
    }
  }

  // ----- What the failures say -----

  function ReasonFor(call: Call, errno: Errno, published: bool): Reason {
    match call
    case OpenNew => TempCreateFailed
    case WriteCall => WriteFailed
    case Chown => MetadataFailed
    case Chmod => MetadataFailed
    case Sync => SyncFailed
    case FdStat => if published then VerifyFailed else FreezeFailed
    case CloseCall => if published then VerifyFailed else CloseFailed
    case Rename =>
      (match errno
       case Exists => Raced
       case Unsupported => RenameUnsupported
       case _ => RenameFailed)
    case SyncDirectory => DirectorySyncFailed
    case _ => VerifyFailed
  }

  /** The error that a failed call turns into, before it may be marked. */
  function Primary(f: Failed, base: nat): Raised {
    match f.raised
    case OsError(errno) => Known(ReasonFor(f.call, errno, f.renames > base), false)
    case other => other
  }

  /** _mark_publication_uncertain: interrupts stay as they are. */
  function Marked(r: Raised): Raised {
    match r
    case Known(reason, _) => Known(reason, true)
    case Interrupt => Interrupt
    case _ => Known(InternalError, true)
  }

  /** What the caller is told if f is what went wrong first. */
  function Verdict(f: Failed, base: nat): Raised {
    if f.renames > base then Marked(Primary(f, base)) else Primary(f, base)
  }

  // ----- Freezing and verifying -----

  datatype Frozen = Frozen(ino: int, mode: bv16, uid: int, gid: int, size: nat, digest: Content)

  function Freeze(node: Node, content: Content): Frozen
    requires node.File?
  {
    Frozen(node.ino, node.mode, node.uid, node.gid, |node.content|, content)
  }

  predicate MatchesFrozen(node: Node, frozen: Frozen) {
    && node.File? && node.ino == frozen.ino && node.mode == frozen.mode
    && node.uid == frozen.uid && node.gid == frozen.gid && |node.content| == frozen.size
  }

  /** One failed call after a, at most OSErrors after it, and r tells of it. */
  ghost predicate FirstWins(a: State, b: State, r: Option<Raised>, base: nat) {
    |b.failures| > |a.failures| && OnlyOs(b, |a.failures| + 1) ==> r == Some(Primary(b.failures[|a.failures|], base))
  }

  /** The first call that failed after a did so when there were n renames. */
  ghost predicate FirstAt(a: State, b: State, n: nat) {
    |b.failures| > |a.failures| ==> b.failures[|a.failures|].renames == n
  }

  lemma FirstWinsKept(a: State, b: State, c: State, r: Option<Raised>, base: nat)
    requires FirstWins(a, b, r, base) && Later(a, b) && Later(b, c) && |b.failures| > |a.failures|
    ensures FirstWins(a, c, r, base)
  {
    assert c.failures[|a.failures|] == b.failures[|a.failures|];
    if OnlyOs(c, |a.failures| + 1) {
      forall i | |a.failures| < i < |b.failures| ensures b.failures[i].raised.OsError? {
        assert c.failures[i] == b.failures[i];
      }
    }
  }

  lemma EscapeWins(a: State, b: State, c: State, escape: Raised, base: nat)
    requires Later(a, b) && Closed(b, c, escape) && escape in {Trouble, Interrupt}
    ensures FirstWins(a, c, Some(escape), base)
  {
    assert c.failures[|b.failures|].raised == escape;
  }

  /** The name shows the frozen file, and nobody else touches it. */
  ghost predicate Undisturbed(s: State, dest: string, frozen: Frozen) {
    Alone(s) && dest in s.names && MatchesFrozen(s.names[dest], frozen) && s.names[dest].content == frozen.digest
  }

  /** The checks of _verify_published on the opened file. */
  method CheckPublished(k: Kernel, fd: nat, dest: string, frozen: Frozen, ghost base: nat) returns (primary: Option<Raised>)
    requires Ledger(k.s) && fd in k.s.open && k.s.open[fd].name == dest && |k.s.renames| > base
    modifies k
    ensures Later(old(k.s), k.s) && SameDescriptors(old(k.s), k.s) && SameFiles(old(k.s), k.s)
    ensures |k.s.failures| <= |old(k.s).failures| + 1
    ensures primary == Some(Interrupt) ==> Interrupted(old(k.s), k.s)
    ensures FirstWins(old(k.s), k.s, primary, base) && FirstAt(old(k.s), k.s, |k.s.renames|)
    ensures k.s.failures != old(k.s).failures ==> primary.Some?
    ensures primary.Some? ==> primary.value in {Known(VerifyFailed, false), Trouble, Interrupt}
    ensures k.s.failures == old(k.s).failures ==> primary in {None, Some(Known(VerifyFailed, false))}
    ensures k.s.failures == old(k.s).failures && Undisturbed(old(k.s), dest, frozen) ==>
      old(k.s).open[fd].node.ino == frozen.ino ==> primary.None?
  {
    hide Ledger, Alone, Interrupted;
    ghost var s0 := k.s;
    var before := k.StatFd(fd);
    if before.Failure? {
      return Some(if before.error.OsError? then Known(VerifyFailed, false) else before.error);
    }
    if !MatchesFrozen(before.value, frozen) {
      return Some(Known(VerifyFailed, false));
    }
    ghost var s1 := k.s;
    var content := ReadAll(k, fd);
    LaterTransitive(s0, s1, k.s);
    if content.Failure? {
      return Some(if content.error.OsError? then Known(VerifyFailed, false) else content.error);
    }
    ghost var s2 := k.s;
    var after := k.StatFd(fd);
    LaterTransitive(s0, s2, k.s);
    if after.Failure? {
      return Some(if after.error.OsError? then Known(VerifyFailed, false) else after.error);
    }
    ghost var s3 := k.s;
    var current := k.StatName(dest);
    LaterTransitive(s0, s3, k.s);
    if current.Failure? {
      return Some(if current.error.OsError? then Known(VerifyFailed, false) else current.error);
    }
    if !MatchesFrozen(after.value, frozen) || !MatchesFrozen(current.value, frozen) || content.value != frozen.digest {
      return Some(Known(VerifyFailed, false));
    }
    return None;
  }

  /** _verify_published */
  method VerifyPublished(k: Kernel, dest: string, frozen: Frozen, ghost base: nat) returns (r: Option<Raised>)
    requires Ledger(k.s) && |k.s.renames| > base
    modifies k
    ensures Later(old(k.s), k.s) && Held(k.s) == Held(old(k.s)) && SameFiles(old(k.s), k.s)
    ensures r == Some(Interrupt) ==> Interrupted(old(k.s), k.s)
    ensures FirstWins(old(k.s), k.s, r, base) && FirstAt(old(k.s), k.s, |k.s.renames|)
    ensures r.None? ==> k.s.failures == old(k.s).failures
    ensures r.Some? ==> r.value in {Known(VerifyFailed, false), Trouble, Interrupt}
    ensures k.s.failures == old(k.s).failures ==> r in {None, Some(Known(VerifyFailed, false))}
    ensures k.s.failures == old(k.s).failures && Undisturbed(old(k.s), dest, frozen) ==> r.None?
  {
    hide Ledger, Alone, Interrupted;
    ghost var s0 := k.s;
    var owner := new OwnedFd(None);
    var handle := k.OpenName(dest);
    if handle.Failure? {
      assert k.s.failures[|s0.failures|].raised == handle.error;
      return Some(if handle.error.OsError? then Known(VerifyFailed, false) else handle.error);
    }
    var populated := owner.Assign(handle.value);
    ghost var s1 := k.s;
    var primary := CheckPublished(k, handle.value, dest, frozen, base);
    LaterTransitive(s0, s1, k.s);
    ghost var s2 := k.s;
    var escape;
    r, escape := FinishClose(k, owner, primary, VerifyFailed);
    LaterTransitive(s0, s2, k.s);
    if escape.Some? {
      assert k.s.failures[|s2.failures|].raised == escape.value;
      EscapeWins(s0, s2, k.s, escape.value, base);
      r := escape;
    } else if s2.failures != s0.failures {
      FirstWinsKept(s0, s2, k.s, r, base);
    }
  }

  // ----- The temporary file -----

  /** All that the published name is meant to show, and on disk already. */
  predicate Complete(node: Node, content: Content, mode: bv16, uid: int, gid: int) {
    node.File? && node.content == content && node.mode == mode && node.uid == uid && node.gid == gid && node.durable
  }

  /** b follows a without a rename or unlink, and but for temp nothing changed. */
  ghost predicate OnlyTemp(a: State, b: State, temp: string) {
    Later(a, b) && b.renames == a.renames && b.unlinks == a.unlinks && Around(a, b, temp)
  }

  lemma OnlyTempTransitive(a: State, b: State, c: State, temp: string)
    requires OnlyTemp(a, b, temp) && OnlyTemp(b, c, temp)
    ensures OnlyTemp(a, c, temp)
    ensures Interrupted(a, b) || Interrupted(b, c) ==> Interrupted(a, c)
  {
    LaterTransitive(a, b, c);
  }

  /** The one call that failed is what the error tells of. */
  ghost predicate OneFailure(a: State, b: State, primary: Raised) {
    |b.failures| == |a.failures| + 1 && primary == Primary(b.failures[|a.failures|], |a.renames|)
  }

  function PhaseError(phase: Reason, e: Raised): Raised {
    if e.OsError? then Known(phase, false) else e
  }

  /** From writing to fsync, on the temporary file's descriptor. */
  method FillTemp(k: Kernel, temp: string, content: Content, mode: bv16, uid: int, gid: int) returns (primary: Option<Raised>)
    requires HasTemp(k.s, temp) && k.s.names[temp].content == []
    modifies k
    ensures OnlyTemp(old(k.s), k.s, temp) && SameDescriptors(old(k.s), k.s) && HasTemp(k.s, temp)
    ensures k.s.names[temp].ino == old(k.s).names[temp].ino
    ensures primary.None? ==> k.s.failures == old(k.s).failures && Complete(k.s.names[temp], content, mode, uid, gid)
    ensures primary.Some? ==> OneFailure(old(k.s), k.s, primary.value) && PlainError(primary.value)
    ensures primary == Some(Interrupt) ==> Interrupted(old(k.s), k.s)
    ensures FirstAt(old(k.s), k.s, |k.s.renames|)
    ensures primary.Some? ==> !k.s.failures[|old(k.s).failures|].call.OpenNew?
  {
    hide Ledger, Alone;
    ghost var s0 := k.s;
    var raised := WriteAll(k, temp, content);
    if raised.Some? {
      return Some(PhaseError(WriteFailed, raised.value));
    }
    ghost var s1 := k.s;
    raised := k.OnTemp(Chown, temp, k.s.names[temp].(uid := uid, gid := gid, durable := false));
    OnlyTempTransitive(s0, s1, k.s, temp);
    if raised.Some? {
      return Some(PhaseError(MetadataFailed, raised.value));
    }
    ghost var s2 := k.s;
    raised := k.OnTemp(Chmod, temp, k.s.names[temp].(mode := mode, durable := false));
    OnlyTempTransitive(s0, s2, k.s, temp);
    if raised.Some? {
      return Some(PhaseError(MetadataFailed, raised.value));
    }
    ghost var s3 := k.s;
    raised := k.OnTemp(Sync, temp, k.s.names[temp].(durable := true));
    OnlyTempTransitive(s0, s3, k.s, temp);
    if raised.Some? {
      return Some(PhaseError(SyncFailed, raised.value));
    }
    return None;
  }

  /** The identity of the written file, and the close of its descriptor. */
  method FreezeAndClose(k: Kernel, owner: OwnedFd, temp: string, content: Content) returns (frozen: Option<Frozen>, primary: Option<Raised>)
    requires Ledger(k.s) && HasTemp(k.s, temp) && owner.fd.Some? && owner.fd.value in Held(k.s)
    requires k.s.open[owner.fd.value].name == temp && k.s.open[owner.fd.value].node.ino == k.s.names[temp].ino
    modifies k, owner
    ensures OnlyTemp(old(k.s), k.s, temp) && HasTemp(k.s, temp) && k.s.names[temp] == old(k.s).names[temp]
    ensures Held(k.s) == Held(old(k.s)) - FdSet(old(owner.fd)) + FdSet(owner.fd) && (owner.fd.None? || owner.fd == old(owner.fd))
    ensures primary.None? ==> k.s.failures == old(k.s).failures && owner.fd.None?
    ensures primary.None? ==> frozen == Some(Freeze(k.s.names[temp], content))
    ensures primary.Some? ==> OneFailure(old(k.s), k.s, primary.value) && PlainError(primary.value)
    ensures primary.Some? ==> !k.s.failures[|old(k.s).failures|].call.OpenNew?
    ensures primary == Some(Interrupt) ==> Interrupted(old(k.s), k.s)
    ensures FirstAt(old(k.s), k.s, |k.s.renames|)
  {
    hide Ledger, Alone, Interrupted;
    ghost var s0 := k.s;
    var stat := k.StatFd(owner.fd.value);
    if stat.Failure? {
      return None, Some(PhaseError(FreezeFailed, stat.error));
    }
    assert stat.value == k.s.names[temp];
    ghost var s1 := k.s;
    var error, escape := owner.CloseError(k);
    OnlyTempTransitive(s0, s1, k.s, temp);
    if escape.Some? {
      return None, escape;
    }
    if error.Some? {
      return None, Some(Known(CloseFailed, false));
    }
    return Some(Freeze(stat.value, content)), None;
  }

  /** From creating the temporary file to closing it. */
  method StageTemp(k: Kernel, owner: OwnedFd, temp: string, content: Content, mode: bv16, uid: int, gid: int)
    returns (tempExists: bool, frozen: Option<Frozen>, primary: Option<Raised>)
    requires Ledger(k.s) && k.s.private.None? && owner.fd.None?
    modifies k, owner
    ensures OnlyTemp(old(k.s), k.s, temp)
    ensures Held(k.s) == Held(old(k.s)) + FdSet(owner.fd) && FdSet(owner.fd) !! Held(old(k.s))
    ensures k.s.private.None? || k.s.private == Some(temp)
    ensures primary.None? ==> k.s.failures == old(k.s).failures && owner.fd.None? && tempExists
    ensures primary.None? ==> HasTemp(k.s, temp) && Complete(k.s.names[temp], content, mode, uid, gid)
    ensures primary.None? ==> frozen == Some(Freeze(k.s.names[temp], content))
    ensures primary.Some? ==> OneFailure(old(k.s), k.s, primary.value) && PlainError(primary.value)
    ensures primary == Some(Interrupt) ==> Interrupted(old(k.s), k.s)
    ensures FirstAt(old(k.s), k.s, |k.s.renames|)
    ensures !tempExists ==> owner.fd.None? && primary.Some?
    ensures !tempExists && TempAppeared(old(k.s), k.s, temp) ==> LostTemp(old(k.s), k.s)
  {
    hide Ledger, Alone, Interrupted;
    ghost var s0 := k.s;
    var handle := k.OpenTemp(temp, mode);
    if handle.Failure? {
      return false, None, Some(PhaseError(TempCreateFailed, handle.error));
    }
    var populated := owner.Assign(handle.value);
    ghost var s1 := k.s;
    primary := FillTemp(k, temp, content, mode, uid, gid);
    OnlyTempTransitive(s0, s1, k.s, temp);
    if primary.Some? {
      return true, None, primary;
    }
    ghost var s2 := k.s;
    frozen, primary := FreezeAndClose(k, owner, temp, content);
    OnlyTempTransitive(s0, s2, k.s, temp);
    tempExists := true;
  }

  ghost predicate TempAppeared(a: State, b: State, temp: string) {
    Alone(a) && temp !in a.names && temp in b.names
  }

  /** An interrupt came just after the temporary file was created. */
  ghost predicate LostTemp(a: State, b: State) {
    |b.failures| > |a.failures| && b.failures[|a.failures|].call.OpenNew? && b.failures[|a.failures|].raised == Interrupt
  }

  // ----- The rename and what follows it -----

  /** One rename, of a complete file. */
  ghost predicate OneRename(a: State, b: State, dest: string, content: Content, mode: bv16, uid: int, gid: int) {
    && |b.renames| == |a.renames| + 1 && a.renames <= b.renames && b.unlinks >= a.unlinks
    && b.renames[|a.renames|].name == dest && Complete(b.renames[|a.renames|].node, content, mode, uid, gid)
  }

  /** Nothing else changed with it, and no other process was in the way. */
  ghost predicate Gained(a: State, b: State, temp: string, dest: string) {
    && |b.renames| > |a.renames|
    && (Alone(a) ==> dest !in a.names && b.names - {temp} == a.names[dest := b.renames[|a.renames|].node] - {temp})
  }

  method PublishTemp(k: Kernel, temp: string, dest: string, content: Content, mode: bv16, uid: int, gid: int, frozen: Frozen)
    returns (published: bool, primary: Option<Raised>)
    requires Ledger(k.s) && HasTemp(k.s, temp) && temp != dest
    requires Complete(k.s.names[temp], content, mode, uid, gid) && frozen == Freeze(k.s.names[temp], content)
    modifies k
    ensures Later(old(k.s), k.s) && Held(k.s) == Held(old(k.s)) && k.s.unlinks == old(k.s).unlinks
    ensures k.s.private.None? || k.s.private == Some(temp)
    ensures published ==> k.s.private.None?
    ensures k.s.renames == old(k.s).renames || OneRename(old(k.s), k.s, dest, content, mode, uid, gid)
    ensures k.s.renames == old(k.s).renames ==> Around(old(k.s), k.s, temp) && !published
    ensures k.s.renames != old(k.s).renames ==> Gained(old(k.s), k.s, temp, dest)
    ensures k.s.renames != old(k.s).renames && Alone(old(k.s)) ==> temp !in k.s.names
    ensures k.s.renames != old(k.s).renames ==> published || primary == Some(Interrupt)
    ensures published ==> FirstAt(old(k.s), k.s, |k.s.renames|)
    ensures !published ==> primary == Some(Interrupt) || FirstAt(old(k.s), k.s, |old(k.s).renames|)
    ensures primary.None? ==> published && k.s.failures == old(k.s).failures
    ensures primary == Some(Interrupt) ==> Interrupted(old(k.s), k.s)
    ensures FirstWins(old(k.s), k.s, primary, |old(k.s).renames|)
    ensures k.s.failures == old(k.s).failures ==> published && primary in {None, Some(Known(VerifyFailed, false))}
    ensures k.s.failures == old(k.s).failures && Alone(old(k.s)) ==> primary.None?
    ensures primary.Some? ==> primary.value in {Trouble, Interrupt} || (primary.value.Known? && !primary.value.uncertain && primary.value.reason != CleanupFailed)
    ensures published && primary.Some? ==> primary.value in {Trouble, Interrupt, Known(DirectorySyncFailed, false), Known(VerifyFailed, false)}
  {
    hide Ledger, Alone, Interrupted;
    ghost var s0 := k.s;
    var raised := k.RenameTemp(temp, dest);
    if raised.Some? {
      match raised.value {
        case OsError(Exists) => return false, Some(Known(Raced, false));
        case OsError(Unsupported) => return false, Some(Known(RenameUnsupported, false));
        case OsError(_) => return false, Some(Known(RenameFailed, false));
        case _ => return false, raised;
      }
    }
    ghost var s1 := k.s;
    raised := k.Plain(SyncDirectory);
    LaterTransitive(s0, s1, k.s);
    if raised.Some? {
      return true, Some(PhaseError(DirectorySyncFailed, raised.value));
    }
    ghost var s2 := k.s;
    published := true;
    primary := VerifyPublished(k, dest, frozen, |s0.renames|);
    LaterTransitive(s0, s2, k.s);
  }

  // ----- Cleaning up -----

  /** _cleanup_name: two attempts. */
  method CleanupName(k: Kernel, temp: string) returns (removed: bool, escape: Option<Raised>)
    requires k.s.private.None? || k.s.private == Some(temp)
    modifies k
    ensures Later(old(k.s), k.s) && SameDescriptors(old(k.s), k.s) && k.s.renames == old(k.s).renames
    ensures Around(old(k.s), k.s, temp)
    ensures escape.None? ==> OnlyOs(k.s, |old(k.s).failures|)
    ensures escape.Some? ==> escape.value in {Trouble, Interrupt} && k.s.failures != old(k.s).failures
    ensures escape.Some? ==> k.s.failures[|k.s.failures| - 1].raised == escape.value
    ensures escape.None? && Alone(old(k.s)) && temp in k.s.names ==> k.s.unlinks == old(k.s).unlinks + 2
  {
    hide Ledger, Alone, Interrupted;
    ghost var s0 := k.s;
    removed := false;
    var attempts := 0;
    while attempts < 2 && !removed
      invariant attempts <= 2 && (k.s.private.None? || k.s.private == Some(temp))
      invariant Later(s0, k.s) && SameDescriptors(s0, k.s) && k.s.renames == s0.renames && Around(s0, k.s, temp)
      invariant OnlyOs(k.s, |s0.failures|) && k.s.unlinks == s0.unlinks + attempts
      invariant removed && Alone(s0) ==> temp !in k.s.names
    {
      ghost var before := k.s;
      var raised := k.UnlinkTemp(temp);
      LaterTransitive(s0, before, k.s);
      match raised {
        case None => removed := true;
        case Some(OsError(errno)) =>
          if errno == NotFound {
            return true, None;
          }
        case Some(_) => return false, raised;
      }
      attempts := attempts + 1;
    }
    if !removed {
      return false, None;
    }
    ghost var before := k.s;
    var raised := k.Plain(SyncDirectory);
    LaterTransitive(s0, before, k.s);
    if raised.Some? && !raised.value.OsError? {
      return false, raised;
    }
    return raised.None?, None;
  }

  // ----- _publish_copy -----

  /** The whole try statement. */
  method TryPublish(k: Kernel, owner: OwnedFd, temp: string, dest: string, content: Content, mode: bv16, uid: int, gid: int)
    returns (tempExists: bool, published: bool, primary: Option<Raised>)
    requires Ledger(k.s) && k.s.private.None? && owner.fd.None? && temp != dest
    modifies k, owner
    ensures Later(old(k.s), k.s) && k.s.unlinks == old(k.s).unlinks
    ensures Held(k.s) == Held(old(k.s)) + FdSet(owner.fd) && FdSet(owner.fd) !! Held(old(k.s))
    ensures k.s.private.None? || k.s.private == Some(temp)
    ensures published ==> k.s.private.None? && !tempExists && owner.fd.None?
    ensures k.s.renames == old(k.s).renames || OneRename(old(k.s), k.s, dest, content, mode, uid, gid)
    ensures k.s.renames == old(k.s).renames ==> Around(old(k.s), k.s, temp) && !published
    ensures k.s.renames != old(k.s).renames ==> Gained(old(k.s), k.s, temp, dest)
    ensures k.s.renames != old(k.s).renames && Alone(old(k.s)) ==> temp !in k.s.names
    ensures k.s.renames != old(k.s).renames ==> published || primary == Some(Interrupt)
    ensures published ==> FirstAt(old(k.s), k.s, |k.s.renames|)
    ensures !published ==> primary == Some(Interrupt) || FirstAt(old(k.s), k.s, |old(k.s).renames|)
    ensures primary.None? ==> published && k.s.failures == old(k.s).failures
    ensures primary == Some(Interrupt) ==> Interrupted(old(k.s), k.s)
    ensures FirstWins(old(k.s), k.s, primary, |old(k.s).renames|)
    ensures k.s.failures == old(k.s).failures ==> published && primary in {None, Some(Known(VerifyFailed, false))}
    ensures k.s.failures == old(k.s).failures && Alone(old(k.s)) ==> primary.None?
    ensures primary.Some? ==> PlainError(primary.value)
    ensures !tempExists && !published && TempAppeared(old(k.s), k.s, temp) ==> LostTemp(old(k.s), k.s)
  {
    hide Ledger, Alone, Interrupted, Complete, OneRename;
    ghost var s0 := k.s;
    var frozen;
    tempExists, frozen, primary := StageTemp(k, owner, temp, content, mode, uid, gid);
    published := false;
    if primary.Some? {
      return;
    }
    ghost var s1 := k.s;
    published, primary := PublishTemp(k, temp, dest, content, mode, uid, gid, frozen.value);
    tempExists := !published;
    LaterTransitive(s0, s1, k.s);
    if k.s.renames != s1.renames {
      OneRenameAfter(s0, s1, k.s, dest, content, mode, uid, gid);
      GainedAfter(s0, s1, k.s, temp, dest);
    }
  }

  predicate PlainError(e: Raised) {
    e in {Trouble, Interrupt} || (e.Known? && !e.uncertain && e.reason != CleanupFailed)
  }

  lemma OneRenameAfter(a: State, b: State, c: State, dest: string, content: Content, mode: bv16, uid: int, gid: int)
    requires OneRename(b, c, dest, content, mode, uid, gid) && b.renames == a.renames && b.unlinks == a.unlinks
    ensures OneRename(a, c, dest, content, mode, uid, gid)
  {
  }

  lemma OneRenameStays(a: State, b: State, c: State, dest: string, content: Content, mode: bv16, uid: int, gid: int)
    requires OneRename(a, b, dest, content, mode, uid, gid) && c.renames == b.renames && c.unlinks >= b.unlinks
    ensures OneRename(a, c, dest, content, mode, uid, gid)
  {
  }

  lemma GainedStays(a: State, b: State, c: State, temp: string, dest: string)
    requires Gained(a, b, temp, dest) && c.renames == b.renames && Later(a, b) && Around(b, c, temp)
    ensures Gained(a, c, temp, dest)
  {
  }

  lemma GainedAfter(a: State, b: State, c: State, temp: string, dest: string)
    requires OnlyTemp(a, b, temp) && Gained(b, c, temp, dest) && temp != dest
    ensures Gained(a, c, temp, dest)
  {
    if Alone(a) {
      var node := c.renames[|a.renames|].node;
      assert dest in a.names ==> dest in a.names - {temp};
      assert b.names[dest := node] - {temp} == (b.names - {temp})[dest := node];
      assert a.names[dest := node] - {temp} == (a.names - {temp})[dest := node];
    }
  }

  /** _publish_copy, whatever the schedule. Every descriptor it opens is closed
      exactly once, except for those that an interrupt takes away just after
      they were opened or just before they are closed: those stay open. At most
      one name is given, once, to a complete file that is on disk; without that,
      only the temporary name may have been touched and the error is not marked
      uncertain. After it, no interrupt meaning an error, the error is marked
      and nothing is unlinked. The first failure is the one reported, with the
      reason of its phase, unless something else than an OSError is raised
      later. Alone and without a failing call it succeeds. */
  method PublishCopy(k: Kernel, temp: string, dest: string, content: Content, mode: bv16, uid: int, gid: int)
    returns (r: Option<Raised>)
    requires Ledger(k.s) && k.s.private.None? && temp != dest
    modifies k
    ensures Later(old(k.s), k.s) && Held(k.s) == Held(old(k.s)) && Account(old(k.s), k.s, {})
    ensures k.s.renames == old(k.s).renames || OneRename(old(k.s), k.s, dest, content, mode, uid, gid)
    ensures k.s.renames == old(k.s).renames ==> Around(old(k.s), k.s, temp) && r.Some? && PlainError(r.value)
    ensures k.s.renames != old(k.s).renames ==> Gained(old(k.s), k.s, temp, dest)
    ensures r.None? ==> k.s.failures == old(k.s).failures && k.s.renames != old(k.s).renames && k.s.private.None?
    ensures k.s.renames != old(k.s).renames && r.Some? && !Interrupted(old(k.s), k.s) ==>
      r.value.Known? && r.value.uncertain && k.s.unlinks == old(k.s).unlinks
    ensures |k.s.failures| > |old(k.s).failures| && OnlyOs(k.s, |old(k.s).failures| + 1) ==>
      r == Some(Verdict(k.s.failures[|old(k.s).failures|], |old(k.s).renames|))
    ensures k.s.failures == old(k.s).failures ==> r in {None, Some(Known(VerifyFailed, true))}
    ensures k.s.failures == old(k.s).failures && Alone(old(k.s)) ==> r.None?
    ensures r.Some? && r.value.Known? ==> r.value.reason != CleanupFailed
    ensures Alone(old(k.s)) && r.None? ==> temp !in k.s.names
    ensures TempAppeared(old(k.s), k.s, temp) && OnlyOs(k.s, |old(k.s).failures| + 1) && !LostTemp(old(k.s), k.s) ==>
      k.s.unlinks == old(k.s).unlinks + 2
  {
    hide Ledger, Alone, OneRename, Gained, Complete, Interrupted, Account, Around;
    ghost var s0 := k.s;
    var owner := new OwnedFd(None);
    var tempExists, published, primary := TryPublish(k, owner, temp, dest, content, mode, uid, gid);
    ghost var s1, tried := k.s, primary;
    var escape;
    primary, escape := FinishClose(k, owner, primary, CloseFailed);
    LaterTransitive(s0, s1, k.s);
    GivenStays(s0, s1, k.s, temp, dest, content, mode, uid, gid);
    if s1.failures != s0.failures {
      FirstWinsKept(s0, s1, k.s, tried, |s0.renames|);
    }
    if escape.Some? {
      EscapeWins(s0, s1, k.s, escape.value, |s0.renames|);
      assert k.s.failures[|s1.failures|].raised == escape.value;
      r := escape;
    } else {
      r := if primary.Some? && published then Some(Marked(primary.value)) else primary;
      if tempExists {
        ghost var s2 := k.s;
        r := CleanUp(k, temp, r);
        LaterTransitive(s0, s2, k.s);
        FirstWinsKept(s0, s2, k.s, tried, |s0.renames|);
        GivenStays(s0, s2, k.s, temp, dest, content, mode, uid, gid);
      }
    }
    AccountIs(s0, k.s, {});
  }

  /** The cleanup that ends an unpublished copy. */
  method CleanUp(k: Kernel, temp: string, primary: Option<Raised>) returns (r: Option<Raised>)
    requires k.s.private.None? || k.s.private == Some(temp)
    modifies k
    ensures Later(old(k.s), k.s) && SameDescriptors(old(k.s), k.s) && k.s.renames == old(k.s).renames
    ensures Around(old(k.s), k.s, temp)
    ensures OnlyOs(k.s, |old(k.s).failures|) ==> r == if primary.None? && r.Some? then Some(Known(CleanupFailed, false)) else primary
    ensures !OnlyOs(k.s, |old(k.s).failures|) ==> r.Some? && r.value in {Trouble, Interrupt}
    ensures OnlyOs(k.s, |old(k.s).failures|) && Alone(old(k.s)) && temp in k.s.names ==> k.s.unlinks == old(k.s).unlinks + 2
  {
    hide Ledger, SameDescriptors, Around, Alone, Interrupted;
    var removed, escape := CleanupName(k, temp);
    if escape.Some? {
      assert k.s.failures[|k.s.failures| - 1].raised == escape.value;
      return escape;
    }
    return if !removed && primary.None? then Some(Known(CleanupFailed, false)) else primary;
  }

  /** What was published stays so while nothing is renamed. */
  lemma GivenStays(a: State, b: State, c: State, temp: string, dest: string, content: Content, mode: bv16, uid: int, gid: int)
    requires Later(a, b) && Around(b, c, temp) && c.renames == b.renames && c.unlinks >= b.unlinks
    requires b.renames == a.renames ==> Around(a, b, temp)
    requires b.renames != a.renames ==> OneRename(a, b, dest, content, mode, uid, gid) && Gained(a, b, temp, dest)
    ensures b.renames == a.renames ==> Around(a, c, temp)
    ensures b.renames != a.renames ==> OneRename(a, c, dest, content, mode, uid, gid) && Gained(a, c, temp, dest)
  {
    if b.renames != a.renames {
      OneRenameStays(a, b, c, dest, content, mode, uid, gid);
      GainedStays(a, b, c, temp, dest);
    }
  }
}
