/** The system calls of scripts/init_docker_config.py on one target directory.

    Every call consumes one step of a schedule. The step may make the call
    fail, with an OSError, another exception or an interrupt (which may arrive
    before or after the call had its effect), may cut a read or write short,
    and says what other processes did to the directory just before. Others do
    not know the random name of the temporary file and leave that file alone.
    A SHA-256 digest is represented by the content it was taken from.
 */
module ConfigKernel {
  import opened Wrappers

  type Content = seq<int>

  datatype Node =
    | File(ino: int, content: Content, mode: bv16, uid: int, gid: int, durable: bool)
    | NotRegular(ino: int, link: bool)

  datatype Errno = NotFound | Exists | Unsupported | OtherErrno

  datatype Reason =
    | TempCreateFailed | WriteFailed | MetadataFailed | SyncFailed | FreezeFailed | CloseFailed
    | Raced | RenameUnsupported | RenameFailed | DirectorySyncFailed | VerifyFailed | CleanupFailed | InternalError
    | TargetStatFailed | TargetNotRegular | TargetOpenFailed | TargetChanged | TargetMetadataFailed | TargetCloseFailed
    | SourceStatFailed | SourceNotRegular | SourceOpenFailed | SourceReadFailed | SourceChanged | SourceCloseFailed
    | IdentityInvalid | DirectoryReason(source: bool, what: DirectoryFailure)

  datatype DirectoryFailure =
    | Missing | Unstattable | Symlink | NotDirectory | Unopenable | Replaced | Uncloseable | Uncreatable | Unchangeable

  /** What a Python statement raises; Trouble is any Exception that is neither
      an OSError nor the module's own. */
  datatype Raised = OsError(errno: Errno) | Known(reason: Reason, uncertain: bool) | Trouble | Interrupt

  datatype Call =
    | OpenNew | OpenOld | WriteCall | ReadCall | Chown | Chmod | Sync | FdStat | NameStat | CloseCall | Rename
    | SyncDirectory | Unlink | SourceCall

  datatype Fault = Fine | OsFault(unsupported: bool) | TroubleFault | InterruptFault(late: bool)

  datatype Step = Step(fault: Fault, others: map<string, Option<Node>>, amount: nat)

  datatype Handle = Handle(name: string, node: Node)

  /** A name given by rename, and the file that got it. */
  datatype Renamed = Renamed(name: string, node: Node)

  /** A call that raised, and how many renames there had been. */
  datatype Failed = Failed(call: Call, raised: Raised, renames: nat)

  /** An interrupt at a call on a descriptor, and whether the call was done. */
  datatype Interruption = Interruption(call: Call, fd: nat, done: bool)

  /** The directory, our temporary file in it, the descriptors, and what the
      run did so far. A lost descriptor is open, but nobody has it any more: an
      interrupt took it away. */
  datatype State = State(
    names: map<string, Node>, private: Option<string>,
    open: map<nat, Handle>, nextFd: nat, closes: multiset<nat>, lost: set<nat>, interruptions: seq<Interruption>,
    renames: seq<Renamed>, unlinks: nat, failures: seq<Failed>, steps: seq<Step>)

  function Changed(names: map<string, Node>, others: map<string, Option<Node>>, private: Option<string>): (r: map<string, Node>)
    ensures others == map[] ==> r == names
    ensures private.Some? && private.value in names ==> private.value in r && r[private.value] == names[private.value]
  {
    map n | n in names.Keys + others.Keys && (if n in others && Some(n) != private then others[n].Some? else n in names)
      :: if n in others && Some(n) != private then others[n].value else names[n]
  }

  function Fate(s: State): Fault {
    if s.steps == [] then Fine else s.steps[0].fault
  }

  function Tick(s: State): State {
    if s.steps == [] then s
    else s.(names := Changed(s.names, s.steps[0].others, s.private), steps := s.steps[1..])
  }

  function Rest(steps: seq<Step>): seq<Step> {
    if steps == [] then [] else steps[1..]
  }

  /** What close_error raises on instead of returning. */
  predicate Escapes(f: Fault) {
    f.TroubleFault? || f.InterruptFault?
  }

  /** An interrupt before the call. */
  predicate Missed(f: Fault) {
    f.InterruptFault? && !f.late
  }

  predicate Effective(f: Fault) {
    f.Fine? || (f.InterruptFault? && f.late)
  }

  function RaisedBy(f: Fault): Option<Raised> {
    match f
    case Fine => None
    case OsFault(unsupported) => Some(OsError(if unsupported then Unsupported else OtherErrno))
    case TroubleFault => Some(Trouble)
    case InterruptFault(_) => Some(Interrupt)
  }

  function Note(s: State, call: Call, r: Option<Raised>): (b: State)
    ensures r == Some(Interrupt) ==> |b.failures| > |s.failures| && b.failures[|s.failures|].raised == Interrupt
  {
    if r.Some? then s.(failures := s.failures + [Failed(call, r.value, |s.renames|)]) else s
  }

  /** No other process touches the directory. */
  ghost predicate Alone(s: State) {
    forall step :: step in s.steps ==> step.others == map[]
  }

  /** An open that was done before its result was assigned, or a close that
      was not done after the owner had given the descriptor up. */
  predicate TakesAway(i: Interruption, fd: nat) {
    i.fd == fd && i.done == !i.call.CloseCall?
  }

  /** A descriptor is lost by exactly one interruption, or not at all. */
  ghost predicate Recorded(lost: set<nat>, log: seq<Interruption>) {
    && (forall fd: nat :: fd in lost <==> exists i :: 0 <= i < |log| && TakesAway(log[i], fd))
    && (forall i, j, fd: nat :: 0 <= i < j < |log| && TakesAway(log[i], fd) ==> !TakesAway(log[j], fd))
  }

  /** Descriptors are never reused: each one is open and not yet closed, or was
      closed exactly once, or is still to come. */
  ghost predicate Ledger(s: State) {
    && s.lost <= s.open.Keys
    && (forall fd :: fd in s.open ==> fd < s.nextFd)
    && (forall fd: nat :: s.closes[fd] == if fd < s.nextFd && fd !in s.open then 1 else 0)
    && Recorded(s.lost, s.interruptions)
  }

  /** What became of the descriptors between two states. Open in the end are
      those from before, the leaked ones, and those lost on the way: each by
      an interrupt just after it was opened or just before it was closed. Every
      other descriptor that was opened on the way was closed exactly once. */
  ghost predicate Account(a: State, b: State, leaked: set<nat>) {
    && b.open.Keys == a.open.Keys + leaked + (b.lost - a.lost)
    && (forall fd: nat :: fd in b.lost - a.lost <==>
          exists i :: |a.interruptions| <= i < |b.interruptions| && TakesAway(b.interruptions[i], fd))
    && (forall fd: nat :: a.nextFd <= fd < b.nextFd ==> b.closes[fd] == if fd in b.open then 0 else 1)
  }

  lemma AccountIs(a: State, b: State, leaked: set<nat>)
    requires Ledger(a) && Later(a, b) && Held(b) == Held(a) + leaked
    ensures Account(a, b, leaked)
  {
    LostSince(a.lost, b.lost, a.interruptions, b.interruptions);
    hide Recorded, Interrupted, Alone;
    forall fd ensures fd in b.open <==> fd in a.open.Keys + leaked + (b.lost - a.lost) {
      assert fd in Held(b) <==> fd in Held(a) + leaked;
    }
  }

  lemma LostSince(a: set<nat>, b: set<nat>, before: seq<Interruption>, log: seq<Interruption>)
    requires Recorded(a, before) && Recorded(b, log) && before <= log
    ensures forall fd: nat :: fd in b - a <==> exists i :: |before| <= i < |log| && TakesAway(log[i], fd)
  {
    hide TakesAway;
    forall i, fd: nat | |before| <= i < |log| && TakesAway(log[i], fd) ensures fd !in a {
      assert forall j :: 0 <= j < |before| && TakesAway(before[j], fd) ==> TakesAway(log[j], fd);
    }
  }

  lemma RecordedMore(a: set<nat>, b: set<nat>, log: seq<Interruption>, i: Interruption)
    requires Recorded(a, log)
    requires if TakesAway(i, i.fd) then i.fd !in a && b == a + {i.fd} else b == a
    ensures Recorded(b, log + [i])
  {
    var more := log + [i];
    forall fd: nat ensures fd in b <==> exists k :: 0 <= k < |more| && TakesAway(more[k], fd) {
      if fd in a {
        var k :| 0 <= k < |log| && TakesAway(log[k], fd);
        assert TakesAway(more[k], fd);
      } else if fd == i.fd {
        assert TakesAway(more[|log|], fd) <==> TakesAway(i, fd);
      }
    }
  }

  function Held(s: State): set<nat> {
    s.open.Keys - s.lost
  }

  ghost predicate Interrupted(a: State, b: State) {
    exists i :: |a.failures| <= i < |b.failures| && b.failures[i].raised == Interrupt
  }

  /** b can follow a. */
  ghost predicate Later(a: State, b: State) {
    && a.renames <= b.renames && a.failures <= b.failures && a.unlinks <= b.unlinks
    && a.lost <= b.lost && a.interruptions <= b.interruptions && |b.steps| <= |a.steps|
    && (a.lost != b.lost ==> Interrupted(a, b))
    && (Alone(a) ==> Alone(b)) && (Ledger(a) ==> Ledger(b))
  }

  lemma LaterTransitive(a: State, b: State, c: State)
    requires Later(a, b) && Later(b, c)
    ensures Later(a, c)
    ensures Interrupted(a, b) || Interrupted(b, c) ==> Interrupted(a, c)
  {
    if Interrupted(a, b) {
      var i :| |a.failures| <= i < |b.failures| && b.failures[i].raised == Interrupt;
      assert c.failures[i] == b.failures[i];
    }
  }

  /** One call, with what it raised; it takes one step of the schedule. */
  ghost predicate Called(a: State, b: State, call: Call, r: Option<Raised>) {
    Noted(a, b, call, r) && b.steps == Rest(a.steps)
  }

  /** What was raised is on record. */
  ghost predicate Noted(a: State, b: State, call: Call, r: Option<Raised>) {
    && Later(a, b)
    && b.failures == a.failures + (if r.Some? then [Failed(call, r.value, |b.renames|)] else [])
    && (r.Some? ==> !r.value.Known?)
    && (r == Some(Interrupt) ==> Interrupted(a, b))
    && (a.lost != b.lost ==> r == Some(Interrupt))
  }

  ghost predicate SameDescriptors(a: State, b: State) {
    b.open == a.open && b.nextFd == a.nextFd && b.closes == a.closes && b.lost == a.lost && b.interruptions == a.interruptions
  }

  ghost predicate SameFiles(a: State, b: State) {
    && b.renames == a.renames && b.unlinks == a.unlinks && b.private == a.private
    && (Alone(a) ==> b.names == a.names)
    && (a.private.Some? && HasTemp(a, a.private.value) ==> SameTemp(a, b, a.private.value))
  }

  ghost predicate SameTemp(a: State, b: State, temp: string)
    requires HasTemp(a, temp)
  {
    HasTemp(b, temp) && b.names[temp] == a.names[temp]
  }

  /** The names other than the temporary one are as they were. */
  ghost predicate Around(a: State, b: State, temp: string) {
    Alone(a) ==> b.names - {temp} == a.names - {temp}
  }

  predicate HasTemp(s: State, temp: string) {
    s.private == Some(temp) && temp in s.names && s.names[temp].File?
  }

  function View(s: State, fd: nat): Node
    requires fd in s.open
  {
    var h := s.open[fd];
    if h.name in s.names && s.names[h.name].ino == h.node.ino then s.names[h.name] else h.node
  }

  lemma TickCalled(a: State, call: Call)
    ensures var b := Note(Tick(a), call, RaisedBy(Fate(a)));
      Called(a, b, call, RaisedBy(Fate(a))) && SameDescriptors(a, b) && SameFiles(a, b)
    ensures a.private.Some? && HasTemp(a, a.private.value) ==> SameTemp(a, Tick(a), a.private.value)
  {
    if a.steps != [] && Alone(a) {
      assert a.steps[0] in a.steps;
      assert forall step :: step in a.steps[1..] ==> step in a.steps;
    }
  }

  /** An interrupt, if it was one, on record with its descriptor. */
  function Struck(s: State, call: Call, fd: nat, f: Fault): seq<Interruption> {
    s.interruptions + if f.InterruptFault? then [Interruption(call, fd, f.late)] else []
  }

  lemma LedgerOpen(a: State, b: State, h: Handle, call: Call, f: Fault)
    requires Ledger(a) && Effective(f) && !call.CloseCall?
    requires b.open == a.open[a.nextFd := h] && b.nextFd == a.nextFd + 1 && b.closes == a.closes
    requires b.lost == if f.Fine? then a.lost else a.lost + {a.nextFd}
    requires b.interruptions == Struck(a, call, a.nextFd, f)
    ensures Ledger(b) && a.nextFd !in a.open
  {
    if !f.Fine? {
      RecordedMore(a.lost, b.lost, a.interruptions, Interruption(call, a.nextFd, true));
    } else {
      assert b.interruptions == a.interruptions;
    }
    hide TakesAway;
  }

  /** os.close, in the state after other processes: not done if an interrupt
      comes before it. */
  function CloseDone(s: State, fd: nat, f: Fault): State {
    var t := s.(interruptions := Struck(s, CloseCall, fd, f));
    if f.InterruptFault? && !f.late then t.(lost := t.lost + {fd})
    else t.(closes := t.closes + multiset{fd}, open := t.open - {fd})
  }

  lemma LedgerClose(a: State, fd: nat, f: Fault)
    requires Ledger(a) && fd in Held(a)
    ensures Ledger(CloseDone(a, fd, f)) && Held(CloseDone(a, fd, f)) == Held(a) - {fd}
  {
    var b := CloseDone(a, fd, f);
    if f.InterruptFault? {
      RecordedMore(a.lost, b.lost, a.interruptions, Interruption(CloseCall, fd, f.late));
    } else {
      assert b.interruptions == a.interruptions;
    }
    hide TakesAway;
  }

  lemma TickKeeps(a: State)
    ensures Tick(a).nextFd == a.nextFd && Tick(a).open == a.open && Tick(a).lost == a.lost && Tick(a).interruptions == a.interruptions
  {
  }

  /** A call that fails, for a reason of its own or the schedule's. */
  lemma FailedCalled(a: State, call: Call, error: Raised)
    requires if Fate(a).Fine? then error.OsError? else Some(error) == RaisedBy(Fate(a))
    ensures var b := Note(Tick(a), call, Some(error));
      Called(a, b, call, Some(error)) && SameFiles(a, b) && SameDescriptors(a, b) && Held(b) == Held(a)
  {
    TickCalled(a, call);
    var b := Note(Tick(a), call, Some(error));
    if error == Interrupt {
      assert b.failures[|a.failures|].raised == Interrupt;
    }
  }

  /** The names play no part in the relation between states. */
  lemma NamesOnly(a: State, b: State, names: map<string, Node>, private: Option<string>)
    requires Later(a, b)
    ensures Later(a, b.(names := names, private := private)) && Held(b.(names := names, private := private)) == Held(b)
    ensures Interrupted(a, b) ==> Interrupted(a, b.(names := names, private := private))
  {
  }

  /** A new descriptor, which an interrupt after the call loses at once. */
  function Opened(s: State, call: Call, h: Handle, f: Fault): State {
    s.(open := s.open[s.nextFd := h], nextFd := s.nextFd + 1, lost := if f.Fine? then s.lost else s.lost + {s.nextFd},
       interruptions := Struck(s, call, s.nextFd, f))
  }

  lemma OpenedCalled(a: State, call: Call, h: Handle)
    requires Ledger(a) && Effective(Fate(a)) && !call.CloseCall?
    ensures var b := Note(Opened(Tick(a), call, h, Fate(a)), call, RaisedBy(Fate(a)));
      && Called(a, b, call, RaisedBy(Fate(a))) && SameFiles(a, b) && b.names == Tick(a).names
      && b.open == a.open[a.nextFd := h] && a.nextFd !in Held(a)
      && Held(b) == (if Fate(a).Fine? then Held(a) + {a.nextFd} else Held(a))
      && b.interruptions == Struck(a, call, a.nextFd, Fate(a)) && b.nextFd == a.nextFd + 1
  {
    hide Recorded;
    TickCalled(a, call);
    var t := Tick(a);
    LedgerOpen(t, Opened(t, call, h, Fate(a)), h, call, Fate(a));
    var b := Note(Opened(t, call, h, Fate(a)), call, RaisedBy(Fate(a)));
    assert !Fate(a).Fine? ==> b.failures[|a.failures|].raised == Interrupt;
  }

  lemma ClosedCalled(a: State, fd: nat)
    requires Ledger(a) && fd in Held(a)
    ensures var b := Note(CloseDone(Tick(a), fd, Fate(a)), CloseCall, RaisedBy(Fate(a)));
      && Called(a, b, CloseCall, RaisedBy(Fate(a))) && SameFiles(a, b) && Held(b) == Held(a) - {fd}
  {
    hide Recorded;
    TickCalled(a, CloseCall);
    LedgerClose(Tick(a), fd, Fate(a));
    var b := Note(CloseDone(Tick(a), fd, Fate(a)), CloseCall, RaisedBy(Fate(a)));
    assert Fate(a).InterruptFault? ==> b.failures[|a.failures|].raised == Interrupt;
  }

  class Kernel {
    var s: State

    constructor (s: State)
      ensures this.s == s
    {
      this.s := s;
    }

    /** A call without an effect on the directory. */
    method Plain(call: Call) returns (r: Option<Raised>)
      modifies this
      ensures Called(old(s), s, call, r) && SameDescriptors(old(s), s) && SameFiles(old(s), s)
      ensures r == RaisedBy(Fate(old(s)))
    {
      TickCalled(s, call);
      r := RaisedBy(Fate(s));
      s := Note(Tick(s), call, r);
    }

    /** os.open with O_CREAT and O_EXCL */
    method OpenTemp(temp: string, mode: bv16) returns (r: Result<nat, Raised>)
      requires s.private.None? && Ledger(s)
      modifies this
      ensures Called(old(s), s, OpenNew, if r.Failure? then Some(r.error) else None)
      ensures s.renames == old(s).renames && s.unlinks == old(s).unlinks && Around(old(s), s, temp)
      ensures s.private.None? || s.private == Some(temp)
      ensures r.Success? ==> HasTemp(s, temp) && s.names[temp].content == [] && r.value == old(s).nextFd
      ensures r.Success? ==> Held(s) == Held(old(s)) + {r.value} && r.value !in Held(old(s))
      ensures r.Success? ==> s.open[r.value] == Handle(temp, s.names[temp])
      ensures r.Failure? ==> Held(s) == Held(old(s))
      ensures Alone(old(s)) && temp !in old(s).names && r.Failure? && r.error != Interrupt ==> s.names == old(s).names
      ensures Alone(old(s)) && temp in old(s).names ==> s.names == old(s).names
      ensures OpenRecorded(old(s), s, OpenNew)
    {
      hide Ledger, Interrupted, Held, Tick;
      var f, now := Fate(s), Tick(s);
      if !Effective(f) || temp in now.names {
        var error := if !f.Fine? then RaisedBy(f).value else OsError(Exists);
        FailedCalled(s, OpenNew, error);
        s := Note(now, OpenNew, Some(error));
        return Failure(error);
      }
      TickKeeps(s);
      var fd, node := now.nextFd, File(now.nextFd, [], mode, 0, 0, false);
      OpenedCalled(s, OpenNew, Handle(temp, node));
      ghost var after := Note(Opened(now, OpenNew, Handle(temp, node), f), OpenNew, RaisedBy(f));
      NamesOnly(s, after, now.names[temp := node], Some(temp));
      s := Note(Opened(now, OpenNew, Handle(temp, node), f), OpenNew, RaisedBy(f)).(names := now.names[temp := node], private := Some(temp));
      return if f.Fine? then Success(fd) else Failure(Interrupt);
    }

    /** A call that changes the temporary file through its descriptor. */
    method OnTemp(call: Call, temp: string, node: Node) returns (r: Option<Raised>)
      requires HasTemp(s, temp) && node.File?
      modifies this
      ensures Called(old(s), s, call, r) && SameDescriptors(old(s), s)
      ensures s.renames == old(s).renames && s.unlinks == old(s).unlinks
      ensures HasTemp(s, temp) && Around(old(s), s, temp)
      ensures s.names[temp] == node || (r.Some? && s.names[temp] == old(s).names[temp])
      ensures old(s).steps != [] ==> |s.steps| < |old(s).steps|
    {
      TickCalled(s, call);
      var f := Fate(s);
      s := Tick(s);
      if Effective(f) {
        s := s.(names := s.names[temp := node]);
      }
      r := RaisedBy(f);
      s := Note(s, call, r);
    }

    /** os.write: as much of the rest as the step lets through. */
    method WriteTemp(temp: string, rest: Content) returns (r: Result<nat, Raised>)
      requires HasTemp(s, temp)
      modifies this
      ensures Called(old(s), s, WriteCall, if r.Failure? then Some(r.error) else None) && SameDescriptors(old(s), s)
      ensures s.renames == old(s).renames && s.unlinks == old(s).unlinks
      ensures HasTemp(s, temp) && Around(old(s), s, temp) && s.names[temp].ino == old(s).names[temp].ino
      ensures r.Success? ==> r.value <= |rest| && s.names[temp].content == old(s).names[temp].content + rest[..r.value]
      ensures r.Success? && old(s).steps == [] ==> r.value == |rest|
      ensures old(s).steps != [] ==> |s.steps| < |old(s).steps|
    {
      var n := if s.steps == [] || |rest| < s.steps[0].amount then |rest| else s.steps[0].amount;
      var node := s.names[temp];
      var written := OnTemp(WriteCall, temp, node.(content := node.content + rest[..n], durable := false));
      return if written.Some? then Failure(written.value) else Success(n);
    }

    /** A failure that Python raises itself, as an OSError. */
    method Refuse(call: Call)
      modifies this
      ensures Noted(old(s), s, call, Some(OsError(OtherErrno))) && SameDescriptors(old(s), s) && SameFiles(old(s), s)
      ensures s.names == old(s).names
    {
      s := Note(s, call, Some(OsError(OtherErrno)));
    }

    /** os.close: an interrupt before the call leaves the descriptor open. */
    method Close(fd: nat) returns (r: Option<Raised>)
      requires fd in Held(s) && Ledger(s)
      modifies this
      ensures Called(old(s), s, CloseCall, r) && SameFiles(old(s), s) && r == RaisedBy(Fate(old(s)))
      ensures Held(s) == Held(old(s)) - {fd}
      ensures s.open.Keys == old(s).open.Keys - if Missed(Fate(old(s))) then {} else {fd}
      ensures s.lost == old(s).lost + if Missed(Fate(old(s))) then {fd} else {}
      ensures s.interruptions == Struck(old(s), CloseCall, fd, Fate(old(s)))
    {
      ClosedCalled(s, fd);
      TickKeeps(s);
      hide Called, Ledger;
      r := RaisedBy(Fate(s));
      s := Note(CloseDone(Tick(s), fd, Fate(s)), CloseCall, r);
    }

    /** renameat2 with RENAME_NOREPLACE */
    method RenameTemp(temp: string, dest: string) returns (r: Option<Raised>)
      requires HasTemp(s, temp) && temp != dest
      modifies this
      ensures Called(old(s), s, Rename, r) && SameDescriptors(old(s), s) && s.unlinks == old(s).unlinks
      ensures s.renames == old(s).renames || s.renames == old(s).renames + [Renamed(dest, old(s).names[temp])]
      ensures r.None? ==> s.renames != old(s).renames
      ensures r.Some? && r.value != Interrupt ==> s.renames == old(s).renames
      ensures s.renames == old(s).renames ==> HasTemp(s, temp) && Around(old(s), s, temp)
      ensures s.renames != old(s).renames ==> s.private.None?
      ensures s.renames != old(s).renames && Alone(old(s)) ==> dest !in old(s).names
      ensures s.renames != old(s).renames && Alone(old(s)) ==> s.names == (old(s).names - {temp})[dest := old(s).names[temp]]
    {
      TickCalled(s, Rename);
      var f := Fate(s);
      s := Tick(s);
      r := RaisedBy(f);
      if Effective(f) {
        if dest in s.names {
          r := if f.Fine? then Some(OsError(Exists)) else r;
        } else {
          s := s.(names := (s.names - {temp})[dest := s.names[temp]], private := None,
                  renames := s.renames + [Renamed(dest, s.names[temp])]);
        }
      }
      s := Note(s, Rename, r);
    }

    method UnlinkTemp(temp: string) returns (r: Option<Raised>)
      requires s.private.None? || s.private == Some(temp)
      modifies this
      ensures Called(old(s), s, Unlink, r) && SameDescriptors(old(s), s)
      ensures s.renames == old(s).renames && s.unlinks == old(s).unlinks + 1
      ensures s.private.None? || s.private == Some(temp)
      ensures Around(old(s), s, temp)
      ensures Alone(old(s)) && (r.None? || r == Some(OsError(NotFound))) ==> temp !in s.names
    {
      TickCalled(s, Unlink);
      var f := Fate(s);
      s := Tick(s).(unlinks := s.unlinks + 1);
      r := RaisedBy(f);
      if Effective(f) {
        if temp !in s.names {
          r := if f.Fine? then Some(OsError(NotFound)) else r;
        } else {
          s := s.(names := s.names - {temp}, private := None);
        }
      }
      s := Note(s, Unlink, r);
    }

    /** os.open for reading, without following a link */
    method OpenName(name: string) returns (r: Result<nat, Raised>)
      requires Ledger(s)
      modifies this
      ensures Called(old(s), s, OpenOld, if r.Failure? then Some(r.error) else None) && SameFiles(old(s), s)
      ensures r.Failure? ==> Held(s) == Held(old(s))
      ensures r.Success? ==> r.value in s.open && r.value !in Held(old(s)) && Held(s) == Held(old(s)) + {r.value}
      ensures r.Success? ==> s.open[r.value].name == name
      ensures r.Success? && Alone(old(s)) ==> name in s.names && s.open[r.value] == Handle(name, s.names[name])
      ensures OpenRecorded(old(s), s, OpenOld)
    {
      hide Later, SameFiles, Ledger, Interrupted, Held, Tick;
      TickCalled(s, OpenOld);
      ghost var before := s;
      var f, now := Fate(s), Tick(s);
      if !Effective(f) || name !in now.names || (now.names[name].NotRegular? && now.names[name].link) {
        var error := if !f.Fine? then RaisedBy(f).value else if name !in now.names then OsError(NotFound) else OsError(OtherErrno);
        FailedCalled(s, OpenOld, error);
        s := Note(now, OpenOld, Some(error));
        return Failure(error);
      }
      var fd, h := now.nextFd, Handle(name, now.names[name]);
      TickKeeps(s);
      OpenedCalled(s, OpenOld, h);
      s := Note(Opened(now, OpenOld, h, f), OpenOld, RaisedBy(f));
      return if f.Fine? then Success(fd) else Failure(Interrupt);
    }

    /** os.fstat */
    method StatFd(fd: nat) returns (r: Result<Node, Raised>)
      requires fd in s.open
      modifies this
      ensures Called(old(s), s, FdStat, if r.Failure? then Some(r.error) else None)
      ensures SameDescriptors(old(s), s) && SameFiles(old(s), s)
      ensures r.Success? && Alone(old(s)) ==> r.value == View(s, fd)
      ensures r.Success? && s.private.Some? && HasTemp(old(s), s.private.value) && s.open[fd].name == s.private.value ==>
        r.value == View(s, fd)
    {
      var raised := Plain(FdStat);
      return if raised.Some? then Failure(raised.value) else Success(View(s, fd));
    }

    /** os.stat of a name, without following a link */
    method StatName(name: string) returns (r: Result<Node, Raised>)
      modifies this
      ensures Called(old(s), s, NameStat, if r.Failure? then Some(r.error) else None)
      ensures SameDescriptors(old(s), s) && SameFiles(old(s), s)
      ensures r.Success? && Alone(old(s)) ==> name in s.names && r.value == s.names[name]
      ensures r == Failure(OsError(NotFound)) && Alone(old(s)) ==> name !in s.names
    {
      TickCalled(s, NameStat);
      var f := Fate(s);
      s := Tick(s);
      if f.Fine? && name in s.names {
        return Success(s.names[name]);
      }
      var error := if f.Fine? then OsError(NotFound) else RaisedBy(f).value;
      s := Note(s, NameStat, Some(error));
      return Failure(error);
    }

    /** os.stat of a name where its absence is an answer, not a failure. */
    method Lookup(name: string) returns (r: Result<Option<Node>, Raised>)
      modifies this
      ensures Called(old(s), s, NameStat, if r.Failure? then Some(r.error) else None)
      ensures SameDescriptors(old(s), s) && SameFiles(old(s), s)
      ensures r.Success? && Alone(old(s)) ==> r.value == Get(s.names, name)
      ensures r.Failure? <==> !Fate(old(s)).Fine?
      ensures r.Failure? ==> Some(r.error) == RaisedBy(Fate(old(s)))
    {
      var raised := Plain(NameStat);
      return if raised.Some? then Failure(raised.value) else Success(Get(s.names, name));
    }

    /** os.open of something outside the target directory. */
    method OpenOther(name: string) returns (r: Result<nat, Raised>)
      requires Ledger(s)
      modifies this
      ensures Called(old(s), s, SourceCall, if r.Failure? then Some(r.error) else None) && SameFiles(old(s), s)
      ensures r.Failure? <==> !Fate(old(s)).Fine?
      ensures r.Failure? ==> Held(s) == Held(old(s))
      ensures r.Success? ==> r.value in s.open && r.value !in Held(old(s)) && Held(s) == Held(old(s)) + {r.value}
      ensures OpenRecorded(old(s), s, SourceCall) && (s.nextFd > old(s).nextFd <==> Effective(Fate(old(s))))
    {
      hide Later, SameFiles, Ledger, Interrupted, Held, Tick;
      TickKeeps(s);
      var f := Fate(s);
      if Effective(f) {
        var h := Handle(name, NotRegular(0, false));
        r := if f.Fine? then Success(s.nextFd) else Failure(Interrupt);
        OpenedCalled(s, SourceCall, h);
        s := Note(Opened(Tick(s), SourceCall, h, f), SourceCall, RaisedBy(f));
      } else {
        r := Failure(RaisedBy(f).value);
        FailedCalled(s, SourceCall, r.error);
        s := Note(Tick(s), SourceCall, RaisedBy(f));
      }
    }

    /** os.read at the descriptor's offset */
    method Read(fd: nat, offset: nat) returns (r: Result<Content, Raised>)
      requires fd in s.open
      modifies this
      ensures Called(old(s), s, ReadCall, if r.Failure? then Some(r.error) else None)
      ensures SameDescriptors(old(s), s) && SameFiles(old(s), s)
      ensures old(s).steps != [] ==> |s.steps| < |old(s).steps|
      ensures old(s).steps == [] ==> s.names == old(s).names
      ensures r.Success? && Alone(old(s)) ==> View(s, fd).File? && Chunk(View(s, fd).content, offset, r.value)
      ensures r.Success? && old(s).steps == [] ==> View(s, fd).File? && Chunk(View(s, fd).content, offset, r.value)
    {
      TickCalled(s, ReadCall);
      var f, amount := Fate(s), if s.steps == [] then None else Some(s.steps[0].amount);
      s := Tick(s);
      if !f.Fine? || View(s, fd).NotRegular? {
        var error := if f.Fine? then OsError(OtherErrno) else RaisedBy(f).value;
        s := Note(s, ReadCall, Some(error));
        return Failure(error);
      }
      var content := View(s, fd).content;
      if |content| <= offset {
        return Success([]);
      }
      var left := |content| - offset;
      var n := if amount.None? || left < amount.value then left else if amount.value == 0 then 1 else amount.value;
      return Success(content[offset..offset + n]);
    }

    /** os.fchown of a file that was there before. */
    method ChownFd(fd: nat, uid: int, gid: int) returns (r: Option<Raised>)
      requires fd in s.open
      modifies this
      ensures Called(old(s), s, Chown, r) && SameDescriptors(old(s), s)
      ensures s.renames == old(s).renames && s.unlinks == old(s).unlinks && s.private == old(s).private
      ensures Alone(old(s)) ==> s.names == old(s).names || s.names == Chowned(old(s), fd, uid, gid)
      ensures Alone(old(s)) && r.None? ==> s.names == Chowned(old(s), fd, uid, gid)
    {
      TickCalled(s, Chown);
      var f := Fate(s);
      s := Tick(s);
      if Effective(f) {
        s := s.(names := Chowned(s, fd, uid, gid));
      }
      r := RaisedBy(f);
      s := Note(s, Chown, r);
    }
  }

  /** An open makes one descriptor, on record if it was interrupted, or none. */
  ghost predicate OpenRecorded(a: State, b: State, call: Call) {
    if b.nextFd == a.nextFd then b.open == a.open && b.interruptions == a.interruptions
    else b.nextFd == a.nextFd + 1 && b.open.Keys == a.open.Keys + {a.nextFd} && b.interruptions == Struck(a, call, a.nextFd, Fate(a))
  }

  /** What one read may return: part of what follows, and nothing only at the end. */
  predicate Chunk(content: Content, offset: nat, chunk: Content) {
    if |content| <= offset then chunk == []
    else 0 < |chunk| <= |content| - offset && chunk == content[offset..offset + |chunk|]
  }

  function Chowned(s: State, fd: nat, uid: int, gid: int): map<string, Node>
    requires fd in s.open
  {
    var h := s.open[fd];
    if h.name in s.names && s.names[h.name].ino == h.node.ino && s.names[h.name].File? then
      s.names[h.name := s.names[h.name].(uid := uid, gid := gid)]
    else s.names
  }
}
