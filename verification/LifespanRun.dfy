/** One run of the lifespan of main.py, for every point where it can fail. */
module LifespanRun {
  import opened Wrappers
  import opened Lifespan
  import C = Cancellation

  /** The statements of the startup, in order. Only a push cannot fail. */
  datatype Op = Do(step: string) | Create(resource: Resource) | Push(resource: Resource, safe: bool) | Start(resource: Resource) | BuildHealth

  const STEPS := 54

  function OpAt(i: nat): Op
    requires i < STEPS
  {
    match i
    case 0 => Do("gateway API key")
    case 1 => Do("state directory")
    case 2 => Create(Lease)
    case 3 => Push(Lease, true)
    case 4 => Do("session secret")
    case 5 => Do("initial configuration")
    case 6 => Do("images directory")
    case 7 => Do("image storage probe")
    case 8 => Do("image retention run")
    case 9 => Do("templates")
    case 10 => Create(HttpClient)
    case 11 => Push(HttpClient, true)
    case 12 => Do("databases and registries")
    case 13 => Create(WriteBatcher)
    case 14 => Push(WriteBatcher, true)
    case 15 => Start(WriteBatcher)
    case 16 => Do("batcher of each database")
    case 17 => Create(Accounting)
    case 18 => Push(Accounting, false)
    case 19 => Start(Accounting)
    case 20 => Do("rotation database")
    case 21 => Do("subscription quota service")
    case 22 => Create(RuntimeManager)
    case 23 => Push(RuntimeManager, true)
    case 24 => Do("initial snapshot")
    case 25 => Create(OpenRouterModels)
    case 26 => Push(OpenRouterModels, true)
    case 27 => Start(OpenRouterModels)
    case 28 => Create(FallbackEval)
    case 29 => Push(FallbackEval, true)
    case 30 => Do("autofill service")
    case 31 => Do("catalog service")
    case 32 => Create(Supervisor)
    case 33 => Create(StreamCapacity)
    case 34 => Create(JsonCapacity)
    case 35 => Create(UploadAdmission)
    case 36 => Push(StreamDrain, true)
    case 37 => Push(JsonDrain, true)
    case 38 => Push(UploadDrain, true)
    case 39 => Push(Supervisor, true)
    case 40 => Push(StreamCapacity, true)
    case 41 => Push(JsonCapacity, true)
    case 42 => Push(UploadAdmission, true)
    case 43 => Create(Coordinator)
    case 44 => Push(Coordinator, true)
    case 45 => BuildHealth
    case 46 => Do("model verification")
    case 47 => Do("usage statistics cleanup task")
    case 48 => Do("image cleanup task")
    case 49 => Do("budget reset task")
    case 50 => Do("autofill task")
    case 51 => Do("catalog task")
    case 52 => Create(ProcessRunner)
    case _ => Start(ProcessRunner)
  }

  /** When a resource is registered; the last two after the state is bound. */
  function Rank(r: Resource): nat {
    match r
    case Lease => 3
    case HttpClient => 11
    case WriteBatcher => 14
    case Accounting => 18
    case RuntimeManager => 23
    case OpenRouterModels => 26
    case FallbackEval => 29
    case StreamDrain => 36
    case JsonDrain => 37
    case UploadDrain => 38
    case Supervisor => 39
    case StreamCapacity => 40
    case JsonCapacity => 41
    case UploadAdmission => 42
    case Coordinator => 44
    case ApplicationState => STEPS
    case ProcessRunner => STEPS + 1
  }

  lemma PushHasRank(i: nat)
    requires i < STEPS && OpAt(i).Push?
    ensures Rank(OpAt(i).resource) == i
  {
  }

  lemma RankIsPush(r: Resource)
    ensures Rank(r) < STEPS ==> OpAt(Rank(r)).Push? && OpAt(Rank(r)).resource == r
  {
  }

  function Registered(k: nat): seq<Cleanup>
    requires k <= STEPS
  {
    if k == 0 then [] else Registered(k - 1) + if OpAt(k - 1).Push? then [Cleanup(OpAt(k - 1).resource, OpAt(k - 1).safe)] else []
  }

  /** In the order of registration, each resource at most once. */
  ghost predicate Ascending(rs: seq<Resource>) {
    forall i, j :: 0 <= i < j < |rs| ==> Rank(rs[i]) < Rank(rs[j])
  }

  ghost predicate Descending(rs: seq<Resource>) {
    forall i, j :: 0 <= i < j < |rs| ==> Rank(rs[i]) > Rank(rs[j])
  }

  lemma RankAt(i: nat, r: Resource)
    requires i < STEPS
    ensures Rank(r) == i <==> OpAt(i).Push? && r == OpAt(i).resource
  {
    hide *;
    RankIsPush(r);
    if OpAt(i).Push? {
      PushHasRank(i);
    }
  }

  lemma RegisteredStep(k: nat)
    requires 0 < k <= STEPS
    ensures Names(Registered(k)) == Names(Registered(k - 1)) + if OpAt(k - 1).Push? then [OpAt(k - 1).resource] else []
  {
    hide OpAt;
    assert Registered(k - 1) + [] == Registered(k - 1);
  }

  lemma {:induction false} RegisteredNames(k: nat)
    requires k <= STEPS
    ensures forall r :: r in Names(Registered(k)) <==> Rank(r) < k
  {
    hide OpAt, Rank, Names;
    if k > 0 {
      RegisteredNames(k - 1);
      RegisteredStep(k);
      hide Registered;
      forall r ensures r in Names(Registered(k)) <==> Rank(r) < k {
        RankAt(k - 1, r);
      }
    }
  }

  lemma {:induction false} RegisteredAscends(k: nat)
    requires k <= STEPS
    ensures Ascending(Names(Registered(k)))
  {
    hide OpAt, Rank, Names;
    if k > 0 {
      RegisteredAscends(k - 1);
      RegisteredNames(k - 1);
      RegisteredStep(k);
      hide Registered, Ascending;
      var before, op := Names(Registered(k - 1)), OpAt(k - 1);
      if op.Push? {
        RankAt(k - 1, op.resource);
        AscendingSnoc(before, op.resource);
      } else {
        assert before + [] == before;
      }
    }
  }

  lemma RegisteredFacts(k: nat)
    requires k <= STEPS
    ensures Ascending(Names(Registered(k)))
    ensures forall r :: r in Names(Registered(k)) <==> Rank(r) < k
    ensures forall c :: c in Registered(k) && !c.safe ==> c.resource == Accounting
  {
    RegisteredAscends(k);
    RegisteredNames(k);
    AccountingUnsafe(k);
  }

  lemma OnlyAccountingUnsafe(i: nat)
    requires i < STEPS && OpAt(i).Push?
    ensures OpAt(i).safe <==> OpAt(i).resource != Accounting
  {
  }

  // ----- Failure points -----

  datatype Failure = AtStep(i: nat) | AtServices | AtBind | InBody | Nowhere {
    predicate Possible() {
      AtStep? ==> i < STEPS && !OpAt(i).Push?
    }
  }

  /** What must be cleaned up: what was registered; and of the two that are
      registered last, what exists when the state cannot be bound. */
  predicate ToClean(failure: Failure, r: Resource)
    requires failure.Possible()
  {
    match failure
    case AtStep(i) => Rank(r) < i
    case AtServices => r != ApplicationState
    case _ => true
  }

  datatype Health = NotBuilt | Built | Ready | Failed | Stopping

  /** Draining if the drain's wait never ends; a number tells the wake that raised. */
  datatype Ending =
    | AlreadyActive
    | Draining
    | StartupOrBodyError
    | ShutdownError(resource: Resource)
    | ShutdownCancelled(wake: nat)
    | ShutdownInterrupted(wake: nat)
    | Completed

  lemma HealthStep(i: nat)
    requires i < STEPS
    ensures OpAt(i).BuildHealth? <==> i == 45
  {
  }

  /** The try statement's first part. */
  method StartUp(stack: ExitStack, failure: Failure) returns (failed: bool, health: Health)
    requires failure.Possible() && stack.cleanups == []
    modifies stack
    ensures stack.cleaned == old(stack.cleaned) && stack.logged == old(stack.logged)
    ensures failed <==> failure.AtStep?
    ensures stack.cleanups == Registered(if failed then failure.i else STEPS)
    ensures health == if failed && failure.i <= 45 then NotBuilt else Built
  {
    hide OpAt;
    health := NotBuilt;
    var i := 0;
    while i < STEPS
      invariant i <= STEPS && stack.cleanups == Registered(i)
      invariant stack.cleaned == old(stack.cleaned) && stack.logged == old(stack.logged)
      invariant failure.AtStep? ==> i <= failure.i
      invariant health == if i <= 45 then NotBuilt else Built
    {
      if failure == AtStep(i) {
        return true, health;
      }
      if OpAt(i).Push? {
        stack.Push(OpAt(i).resource, OpAt(i).safe);
      }
      HealthStep(i);
      if OpAt(i).BuildHealth? {
        health := Built;
      }
      i := i + 1;
    }
    return false, health;
  }

  lemma ReverseDescends(rs: seq<Resource>)
    requires Ascending(rs)
    ensures Descending(Reverse(rs))
    ensures forall r :: r in Reverse(rs) <==> r in rs
  {
    forall r | r in rs ensures r in Reverse(rs) {
      var i :| 0 <= i < |rs| && rs[i] == r;
      assert Reverse(rs)[|rs| - 1 - i] == r;
    }
  }

  lemma LastRanks()
    ensures Rank(ApplicationState) == STEPS && Rank(ProcessRunner) == STEPS + 1
    ensures forall r :: Rank(r) < STEPS || r == ApplicationState || r == ProcessRunner
  {
  }

  lemma AscendingSnoc(rs: seq<Resource>, r: Resource)
    requires Ascending(rs) && forall x :: x in rs ==> Rank(x) < Rank(r)
    ensures Ascending(rs + [r])
  {
    forall i | 0 <= i < |rs| ensures Rank(rs[i]) < Rank(r) {
      assert rs[i] in rs;
    }
  }

  lemma DescendingCons(rs: seq<Resource>, r: Resource)
    requires Descending(rs) && forall x :: x in rs ==> Rank(x) < Rank(r)
    ensures Descending([r] + rs)
  {
    forall i | 0 <= i < |rs| ensures Rank(rs[i]) < Rank(r) {
      assert rs[i] in rs;
    }
  }

  function Full(): seq<Cleanup> {
    Registered(STEPS) + [Cleanup(ApplicationState, true)] + [Cleanup(ProcessRunner, true)]
  }

  /** All that was registered, with the two last ones. */
  lemma FullStack()
    ensures Ascending(Names(Full())) && forall r :: r in Names(Full())
    ensures forall c :: c in Full() && !c.safe ==> c.resource == Accounting
    ensures Cleanup(ApplicationState, true) in Full()
  {
    RegisteredFacts(STEPS);
    LastRanks();
    hide Registered, OpAt, Rank;
    var some := Names(Registered(STEPS));
    AscendingSnoc(some, ApplicationState);
    AscendingSnoc(some + [ApplicationState], ProcessRunner);
    assert Names(Full()) == some + [ApplicationState] + [ProcessRunner];
    assert Full()[|some|] == Cleanup(ApplicationState, true);
  }

  /** The drain down to some cleanups; the last but one to be registered takes the
      state binding back. No other cleanup touches the state. */
  method Drain(stack: ExitStack, binding: StateBinding, left: nat, raises: set<Resource>, settable: bool) returns (error: Option<Resource>)
    requires left <= |stack.cleanups|
    modifies stack, binding, binding.state`services
    ensures stack.cleanups == old(stack.cleanups)[..left]
    ensures stack.cleaned == old(stack.cleaned) + Reverse(Names(old(stack.cleanups)[left..]))
    ensures error == Escaping(old(stack.cleanups)[left..], raises)
    ensures Cleanup(ApplicationState, true) !in old(stack.cleanups)[left..] ==> binding.state.services == old(binding.state.services)
    ensures Cleanup(ApplicationState, true) in old(stack.cleanups)[left..] ==>
      binding.state.services == TakenBack(old(binding.state.services), old(binding.owned), old(binding.previous), settable)
  {
    var bound := Cleanup(ApplicationState, true) in stack.cleanups[left..];
    error := stack.CloseDownTo(left, raises);
    if bound {
      var logged := binding.Rollback(settable);
    }
  }

  /** The services attribute after a rollback. */
  function TakenBack(current: Services, owned: Option<nat>, previous: Option<Services>, settable: bool): Services {
    if owned.Some? && previous.Some? && current == owned && settable then previous.value else current
  }

  lemma {:induction false} NothingEscapes(cleanups: seq<Cleanup>, raises: set<Resource>)
    requires forall c :: c in cleanups && !c.safe ==> c.resource == Accounting
    ensures Escaping(cleanups, raises).Some? ==> Escaping(cleanups, raises).value == Accounting && Accounting in raises
    ensures Escaping(cleanups, raises).Some? <==> Cleanup(Accounting, false) in cleanups && Accounting in raises
    decreases |cleanups|
  {
    if cleanups != [] {
      NothingEscapes(cleanups[1..], raises);
      assert cleanups == [cleanups[0]] + cleanups[1..];
    }
  }

  // ----- The whole run -----

  /** What was cleaned up: what there was to clean, each once, the later
      registered first. */
  ghost predicate CleanedUp(failure: Failure, cleaned: seq<Resource>)
    requires failure.Possible()
  {
    Descending(cleaned) && forall r :: r in cleaned <==> ToClean(failure, r)
  }

  lemma StepCleaned(i: nat)
    requires AtStep(i).Possible()
    ensures CleanedUp(AtStep(i), Reverse(Names(Registered(i))))
  {
    RegisteredFacts(i);
    ReverseDescends(Names(Registered(i)));
  }

  lemma ServicesCleaned()
    ensures CleanedUp(AtServices, [ProcessRunner] + Reverse(Names(Registered(STEPS))))
    ensures CleanedUp(AtBind, [ProcessRunner] + ([ApplicationState] + Reverse(Names(Registered(STEPS)))))
  {
    RegisteredFacts(STEPS);
    LastRanks();
    hide Registered, OpAt, Rank;
    var some := Reverse(Names(Registered(STEPS)));
    ReverseDescends(Names(Registered(STEPS)));
    DescendingCons(some, ProcessRunner);
    DescendingCons(some, ApplicationState);
    DescendingCons([ApplicationState] + some, ProcessRunner);
  }

  lemma FullCleaned(failure: Failure)
    requires failure == InBody || failure == Nowhere
    ensures CleanedUp(failure, Reverse(Names(Full())))
  {
    FullStack();
    ReverseDescends(Names(Full()));
  }

  // ----- The wait for the drain -----

  /** How one await of the shielded drain came back: with what the drain came to,
      or with an exception of its own. */
  datatype Await = Came | Cancelled | Raised

  /** The awaits in order, the first of them that finds the drain done, and how many
      cleanups have run if the wait is over before. */
  datatype Wait = Wait(awaits: seq<Await>, finishes: nat, ran: nat)

  function HowOf(a: Await, failed: bool): C.How {
    match a
    case Came => if failed then C.OtherException else C.Returned
    case Cancelled => C.CancelledError
    case Raised => C.OtherException
  }

  function WakeAt(w: Wait, failed: bool, i: nat): C.Wake<()>
    requires i < |w.awaits|
  {
    if i < w.finishes then C.Wake(HowOf(w.awaits[i], false), None)
    else C.Wake(HowOf(w.awaits[i], failed), Some(if failed then C.Error else C.Value(())))
  }

  function Wakes(w: Wait, failed: bool): seq<C.Wake<()>> {
    seq(|w.awaits|, i requires 0 <= i < |w.awaits| => WakeAt(w, failed, i))
  }

  ghost predicate WaitEnds(w: Wait, n: nat) {
    && n < |w.awaits| && n <= w.finishes && (n == w.finishes || w.awaits[n].Raised?)
    && forall k :: 0 <= k < n ==> !w.awaits[k].Raised?
  }

  /** The wait lasts until the drain is done. */
  predicate Drained(w: Wait) {
    w.finishes < |w.awaits| && forall k :: 0 <= k < w.finishes ==> !w.awaits[k].Raised?
  }

  ghost predicate FirstCancelled(w: Wait, n: nat, k: nat) {
    && k <= n < |w.awaits| && w.awaits[k].Cancelled?
    && forall j :: 0 <= j < k ==> !w.awaits[j].Cancelled?
  }

  ghost predicate NoneCancelled(w: Wait, n: nat) {
    n < |w.awaits| && forall j :: 0 <= j <= n ==> !w.awaits[j].Cancelled?
  }

  /** How a run ends when its wait does: with the error of the startup or the body,
      which no failing cleanup and no interrupted wait replaces; or else with an
      interruption, the drain's own failure, the first cancellation, in this order. */
  ghost predicate EndingIs(failure: Failure, raises: set<Resource>, w: Wait, ending: Ending) {
    if !(exists n: nat :: WaitEnds(w, n)) then ending == Draining
    else if failure != Nowhere then ending == StartupOrBodyError
    else exists n: nat :: WaitEnds(w, n) && EndsThere(raises, w, n, ending)
  }

  ghost predicate EndsThere(raises: set<Resource>, w: Wait, n: nat, ending: Ending)
    requires n < |w.awaits|
  {
    if w.awaits[n].Raised? then ending == ShutdownInterrupted(n)
    else if Accounting in raises then ending == ShutdownError(Accounting)
    else (NoneCancelled(w, n) ==> ending == Completed) && forall k: nat :: FirstCancelled(w, n, k) ==> ending == ShutdownCancelled(k)
  }

  lemma WakesAt(w: Wait, failed: bool)
    ensures |Wakes(w, failed)| == |w.awaits|
    ensures forall i {:trigger Wakes(w, failed)[i]} {:trigger w.awaits[i]} :: 0 <= i < |w.awaits| ==> Wakes(w, failed)[i] == WakeAt(w, failed, i)
  {
  }

  lemma WaitEndsThere(w: Wait, failed: bool, n: nat)
    ensures C.EndsAt(Wakes(w, failed), n) <==> WaitEnds(w, n)
    ensures n < |w.awaits| ==> (C.NoCancellation(Wakes(w, failed), n) <==> NoneCancelled(w, n))
  {
    WakesAt(w, failed);
    hide Wakes;
    if w.finishes < n < |w.awaits| {
      assert C.Done(Wakes(w, failed)[w.finishes]);
    }
  }

  lemma CancelledThere(w: Wait, failed: bool, n: nat, k: nat)
    ensures C.FirstCancellation(Wakes(w, failed), n, k) <==> FirstCancelled(w, n, k)
  {
    WakesAt(w, failed);
    hide Wakes;
  }

  /** What the drain's wait gives in a run without an error before it. */
  function ShutdownOf(w: Wait, wait: C.Ending<()>, error: Option<Resource>): Ending
    requires wait.Interruption? ==> wait.wake < |w.awaits| && (w.awaits[wait.wake].Raised? || error.Some?)
    requires wait.TaskError? || wait.TaskCancellation? ==> error.Some?
  {
    match wait
    case Waiting => Draining
    case Result(_) => Completed
    case Cancellation(k) => ShutdownCancelled(k)
    case Interruption(n) => if w.awaits[n].Raised? then ShutdownInterrupted(n) else ShutdownError(error.value)
    case _ => ShutdownError(error.value)
  }

  lemma EndingFromWait(w: Wait, wait: C.Ending<()>, error: Option<Resource>, failure: Failure, raises: set<Resource>)
    requires C.DrainEnding(Wakes(w, error.Some?), wait)
    requires Drained(w) && failure == Nowhere ==> error == if Accounting in raises then Some(Accounting) else None
    ensures failure == Nowhere && wait.Interruption? ==> wait.wake < |w.awaits| && (w.awaits[wait.wake].Raised? || error.Some?)
    ensures failure == Nowhere && (wait.TaskError? || wait.TaskCancellation?) ==> error.Some?
    ensures EndingIs(failure, raises, w, if failure == Nowhere then ShutdownOf(w, wait, error) else if wait.Waiting? then Draining else StartupOrBodyError)
  {
    var wakes := Wakes(w, error.Some?);
    forall n: nat ensures C.EndsAt(wakes, n) <==> WaitEnds(w, n) {
      WaitEndsThere(w, error.Some?, n);
    }
    if n: nat :| WaitEnds(w, n) {
      assert wakes[n] == WakeAt(w, error.Some?, n);
      WaitEndsThere(w, error.Some?, n);
      forall m: nat | WaitEnds(w, m) ensures m == n {
      }
      forall k: nat ensures C.FirstCancellation(wakes, n, k) <==> FirstCancelled(w, n, k) {
        CancelledThere(w, error.Some?, n, k);
      }
      if !C.NoCancellation(wakes, n) {
        C.FirstExists(wakes, n);
      }
    }
  }

  function HealthOf(failure: Failure): Health {
    match failure
    case Nowhere => Stopping
    case AtStep(i) => if i <= 45 then NotBuilt else Failed
    case _ => Failed
  }

  /** Binding the state when the process runner has been started; on an error
      the runner is closed first, then the binding taken back. */
  method BindState(stack: ExitStack, binding: StateBinding, services: nat, failure: Failure) returns (failed: bool)
    requires binding.owned.None? && binding.previous.None? && binding.state.services != Some(services)
    modifies stack, binding, binding.state`services
    ensures failed <==> failure == AtServices || failure == AtBind
    ensures stack.logged == old(stack.logged)
    ensures failed ==> stack.cleanups == old(stack.cleanups) && binding.state.services == old(binding.state.services)
    ensures failed ==> stack.cleaned == old(stack.cleaned) + [ProcessRunner] + if failure == AtBind then [ApplicationState] else []
    ensures !failed ==> stack.cleanups == old(stack.cleanups) + [Cleanup(ApplicationState, true)] + [Cleanup(ProcessRunner, true)]
    ensures !failed ==> stack.cleaned == old(stack.cleaned)
    ensures !failed ==> binding.owned == Some(services) && binding.previous == Some(old(binding.state.services))
    ensures !failed ==> binding.state.services == Some(services)
  {
    if failure == AtServices {
      stack.cleaned := stack.cleaned + [ProcessRunner];
      return true;
    }
    var bound := binding.Bind(services, failure != AtBind);
    if !bound {
      stack.cleaned := stack.cleaned + [ProcessRunner];
      var logged := binding.Rollback(true);
      stack.cleaned := stack.cleaned + [ApplicationState];
      return true;
    }
    stack.Push(ApplicationState, true);
    stack.Push(ProcessRunner, true);
    return false;
  }

  /** The services attribute in the end: as before once the binding is undone, unless
      something else was bound while the application ran. */
  function ServicesAfter(before: Services, services: nat, failure: Failure, settable: bool, replaced: Option<Services>, undone: bool): Services {
    if failure !in {InBody, Nowhere} then before
    else if replaced.Some? && replaced.value != Some(services) then replaced.value
    else if settable && undone then before
    else Some(services)
  }

  /** What the stack is to clean up and what was cleaned before. */
  ghost predicate Prepared(stack: ExitStack, failure: Failure)
    reads stack
  {
    match failure
    case AtStep(i) => i < STEPS && stack.cleanups == Registered(i) && stack.cleaned == []
    case AtServices => stack.cleanups == Registered(STEPS) && stack.cleaned == [ProcessRunner]
    case AtBind => stack.cleanups == Registered(STEPS) && stack.cleaned == [ProcessRunner] + [ApplicationState]
    case _ => stack.cleanups == Full() && stack.cleaned == []
  }

  lemma PreparedCleans(stack: ExitStack, failure: Failure)
    requires failure.Possible() && Prepared(stack, failure)
    ensures CleanedUp(failure, stack.cleaned + Reverse(Names(stack.cleanups)))
    ensures failure !in {InBody, Nowhere} ==> Cleanup(ApplicationState, true) !in stack.cleanups
    ensures failure == Nowhere ==> forall raises ::
      Escaping(stack.cleanups, raises) == if Accounting in raises then Some(Accounting) else None
  {
    hide CleanedUp, Registered, OpAt, Rank, Full;
    assert stack.cleaned + Reverse(Names(stack.cleanups)) ==
      match failure
      case AtServices => [ProcessRunner] + Reverse(Names(stack.cleanups))
      case AtBind => [ProcessRunner] + ([ApplicationState] + Reverse(Names(stack.cleanups)))
      case _ => Reverse(Names(stack.cleanups));
    match failure {
      case AtStep(i) =>
        StepCleaned(i);
        NotBoundYet(i);
      case AtServices =>
        ServicesCleaned();
        NotBoundYet(STEPS);
      case AtBind =>
        ServicesCleaned();
        NotBoundYet(STEPS);
      case _ =>
        FullStack();
        FullCleaned(failure);
    }
    forall raises: set<Resource> {
      EscapesOnly(stack.cleanups, raises, failure);
    }
  }

  /** From startup to the end of the body. */
  method Live(stack: ExitStack, binding: StateBinding, services: nat, failure: Failure, replaced: Option<Services>) returns (health: Health)
    requires failure.Possible() && stack.cleanups == [] && stack.cleaned == []
    requires binding.owned.None? && binding.previous.None? && binding.state.services != Some(services)
    modifies stack, binding, binding.state`services
    ensures Prepared(stack, failure)
    ensures health == if failure == Nowhere || failure == InBody then Ready else if failure.AtStep? && failure.i <= 45 then NotBuilt else Built
    ensures failure !in {InBody, Nowhere} ==> binding.state.services == old(binding.state.services)
    ensures failure in {InBody, Nowhere} ==>
      && binding.owned == Some(services) && binding.previous == Some(old(binding.state.services))
      && binding.state.services == if replaced.Some? then replaced.value else Some(services)
  {
    hide Registered, OpAt, Rank;
    var failed;
    failed, health := StartUp(stack, failure);
    if failed {
      return;
    }
    failed := BindState(stack, binding, services, failure);
    if failed {
      return;
    }
    health := Ready;
    if replaced.Some? {
      binding.state.services := replaced.value;
    }
  }

  /** How many cleanups are left when the wait is over. */
  function LeftBy(w: Wait, all: nat): (left: nat)
    ensures left <= all
  {
    if Drained(w) || all <= w.ran then 0 else all - w.ran
  }

  /** How many cleanups a failing binding does before the drain. */
  function Early(failure: Failure): nat {
    match failure
    case AtServices => 1
    case AtBind => 2
    case _ => 0
  }

  /** The cleanups that the drain has done when its wait is over, and those that it
      goes on with in the background. */
  ghost predicate CleanedBy(failure: Failure, w: Wait, cleaned: seq<Resource>, pending: seq<Resource>)
    requires failure.Possible()
  {
    && CleanedUp(failure, cleaned + pending)
    && Early(failure) <= |cleaned| && |pending| == LeftBy(w, |cleaned + pending| - Early(failure))
  }

  lemma ReverseSplit(cleanups: seq<Cleanup>, left: nat)
    requires left <= |cleanups|
    ensures Reverse(Names(cleanups[left..])) + Reverse(Names(cleanups[..left])) == Reverse(Names(cleanups))
  {
  }

  lemma PreparedSplits(stack: ExitStack, failure: Failure, w: Wait, left: nat)
    requires failure.Possible() && Prepared(stack, failure) && left == LeftBy(w, |stack.cleanups|)
    ensures CleanedBy(failure, w, stack.cleaned + Reverse(Names(stack.cleanups[left..])), Reverse(Names(stack.cleanups[..left])))
  {
    PreparedCleans(stack, failure);
    hide CleanedUp, Registered, OpAt, Rank, Full, LeftBy;
    var done, pending := Reverse(Names(stack.cleanups[left..])), Reverse(Names(stack.cleanups[..left]));
    ReverseSplit(stack.cleanups, left);
    assert (stack.cleaned + done) + pending == stack.cleaned + (done + pending);
  }

  lemma NamedIn(done: seq<Cleanup>)
    requires forall c :: c in done && c.resource == ApplicationState ==> c.safe
    ensures ApplicationState in Reverse(Names(done)) <==> Cleanup(ApplicationState, true) in done
  {
    if ApplicationState in Reverse(Names(done)) {
      var i :| 0 <= i < |done| && Reverse(Names(done))[i] == ApplicationState;
      assert done[|done| - 1 - i] in done;
    }
    if Cleanup(ApplicationState, true) in done {
      var i :| 0 <= i < |done| && done[i] == Cleanup(ApplicationState, true);
      assert Reverse(Names(done))[|done| - 1 - i] == ApplicationState;
    }
  }

  /** The binding is undone by the drain if and only if the state is among what it
      cleaned. */
  lemma UndoneOnce(stack: ExitStack, failure: Failure, left: nat)
    requires failure.Possible() && Prepared(stack, failure) && left <= |stack.cleanups|
    requires failure in {InBody, Nowhere}
    ensures ApplicationState in stack.cleaned + Reverse(Names(stack.cleanups[left..])) <==>
      Cleanup(ApplicationState, true) in stack.cleanups[left..]
  {
    hide Registered, OpAt, Rank, Full, Names, Reverse;
    FullStack();
    var done := stack.cleanups[left..];
    assert forall c :: c in done ==> c in Full();
    NamedIn(done);
    assert stack.cleaned + Reverse(Names(done)) == Reverse(Names(done));
  }

  /** The run of the lifespan that claimed the state; what is pending is still being
      cleaned, in this order, when the run is over. */
  method RunClaimed(state: AppState, services: nat, failure: Failure, raises: set<Resource>, settable: bool,
                    replaced: Option<Services>, w: Wait)
    returns (ending: Ending, cleaned: seq<Resource>, pending: seq<Resource>, health: Health)
    requires failure.Possible() && state.services != Some(services)
    modifies state`services
    ensures CleanedBy(failure, w, cleaned, pending)
    ensures EndingIs(failure, raises, w, ending) && health == HealthOf(failure)
    ensures state.services == ServicesAfter(old(state.services), services, failure, settable, replaced, ApplicationState in cleaned)
  {
    hide CleanedUp, Registered, OpAt, Rank, Prepared, Full, CleanedBy, EndingIs, Drained, Escaping, Names, Reverse, LeftBy;
    var stack := new ExitStack();
    var binding := new StateBinding(state);
    health := Live(stack, binding, services, failure, replaced);
    PreparedCleans(stack, failure);
    health := if failure == Nowhere then Stopping else if health == NotBuilt then NotBuilt else Failed;
    var left := LeftBy(w, |stack.cleanups|);
    PreparedSplits(stack, failure, w, left);
    if failure in {InBody, Nowhere} {
      UndoneOnce(stack, failure, left);
    }
    AllWhenDrained(w, stack.cleanups);
    var error := Drain(stack, binding, left, raises, settable);
    var wait := C.DrainResourceStack(Wakes(w, error.Some?));
    EndingFromWait(w, wait, error, failure, raises);
    ending := if failure == Nowhere then ShutdownOf(w, wait, error)
              else if wait.Waiting? then Draining
              else StartupOrBodyError;
    cleaned, pending := stack.cleaned, Reverse(Names(stack.cleanups));
  }

  lemma AllWhenDrained(w: Wait, cleanups: seq<Cleanup>)
    ensures Drained(w) ==> LeftBy(w, |cleanups|) == 0
    ensures cleanups[0..] == cleanups
  {
  }

  /** lifespan, with its failure point, the cleanups that raise, whether the
      attribute can be set back, what else was bound to the state meanwhile, and
      how the wait for the drain went. The marker is released when the wait is
      over, whether cleanups are pending or not. */
  method Run(state: AppState, owner: nat, services: nat, failure: Failure, raises: set<Resource>, settable: bool,
             replaced: Option<Services>, w: Wait)
    returns (ending: Ending, cleaned: seq<Resource>, pending: seq<Resource>, health: Health)
    requires failure.Possible() && state.services != Some(services)
    modifies state
    ensures old(state.marker).Owner? ==>
      ending == AlreadyActive && cleaned == [] && pending == [] && state.services == old(state.services) && state.marker == old(state.marker)
    ensures !old(state.marker).Owner? ==> CleanedBy(failure, w, cleaned, pending)
    ensures !old(state.marker).Owner? ==> EndingIs(failure, raises, w, ending) && health == HealthOf(failure)
    ensures !old(state.marker).Owner? ==> state.marker == if ending == Draining then Owner(owner) else old(state.marker)
    ensures !old(state.marker).Owner? ==>
      state.services == ServicesAfter(old(state.services), services, failure, settable, replaced, ApplicationState in cleaned)
  {
    hide CleanedBy, ServicesAfter, EndingIs, HealthOf;
    health, cleaned, pending := NotBuilt, [], [];
    var token := state.Claim(owner);
    if token.None? {
      return AlreadyActive, cleaned, pending, health;
    }
    ending, cleaned, pending, health := RunClaimed(state, services, failure, raises, settable, replaced, w);
    if ending != Draining {
      state.Release(token.value);
    }
  }

  lemma NotBoundYet(k: nat)
    requires k <= STEPS
    ensures Cleanup(ApplicationState, true) !in Registered(k)
  {
    RegisteredFacts(k);
    LastRanks();
    forall c | c in Registered(k) ensures c.resource != ApplicationState {
      var i :| 0 <= i < |Registered(k)| && Registered(k)[i] == c;
      assert Names(Registered(k))[i] == c.resource;
    }
  }

  lemma EscapesOnly(registered: seq<Cleanup>, raises: set<Resource>, failure: Failure)
    requires failure == Nowhere ==> registered == Full()
    ensures failure == Nowhere ==> Escaping(registered, raises) == if Accounting in raises then Some(Accounting) else None
  {
    if failure == Nowhere {
      FullStack();
      AccountingRegistered();
      NothingEscapes(registered, raises);
    }
  }

  lemma AccountingRegistered()
    ensures Cleanup(Accounting, false) in Full()
  {
    hide OpAt, Rank, Registered;
    FullStack();
    assert Accounting in Names(Full());
    var i :| 0 <= i < |Full()| && Names(Full())[i] == Accounting;
    assert Full()[i].resource == Accounting;
    AccountingUnsafe(STEPS);
  }

  lemma {:induction false} AccountingUnsafe(k: nat)
    requires k <= STEPS
    ensures forall c :: c in Registered(k) ==> (c.safe <==> c.resource != Accounting)
  {
    hide OpAt;
    if k > 0 {
      AccountingUnsafe(k - 1);
      if OpAt(k - 1).Push? {
        OnlyAccountingUnsafe(k - 1);
      }
    }
  }

  // ----- What the order means -----

  /** Whenever both are cleaned up, a is before b. */
  ghost predicate Before(cleaned: seq<Resource>, a: Resource, b: Resource) {
    forall i, j :: 0 <= i < |cleaned| && 0 <= j < |cleaned| && cleaned[i] == a && cleaned[j] == b ==> i < j
  }

  lemma RankDecides(cleaned: seq<Resource>, a: Resource, b: Resource)
    requires Descending(cleaned) && Rank(a) > Rank(b)
    ensures Before(cleaned, a, b)
  {
    hide Rank;
  }

  /** The capacities close before the supervisor, the supervisor before the
      drain checks, everything before the lease, and none is closed without
      those that were registered before it. */
  lemma CleanupOrder(failure: Failure, cleaned: seq<Resource>)
    requires failure.Possible() && CleanedUp(failure, cleaned)
    ensures forall c :: c in {StreamCapacity, JsonCapacity, UploadAdmission} ==> Before(cleaned, c, Supervisor)
    ensures forall d :: d in {StreamDrain, JsonDrain, UploadDrain} ==> Before(cleaned, Supervisor, d)
    ensures forall r :: r != Lease ==> Before(cleaned, r, Lease)
    ensures cleaned != [] ==> cleaned[|cleaned| - 1] == Lease
    ensures forall r, s :: r in cleaned && Rank(s) < Rank(r) && s != ApplicationState ==> s in cleaned
    ensures |cleaned| == |set r | r in cleaned|
  {
    forall a, b | Rank(a) > Rank(b) ensures Before(cleaned, a, b) {
      RankDecides(cleaned, a, b);
    }
    if cleaned != [] {
      var r := cleaned[|cleaned| - 1];
      assert r in cleaned && Rank(Lease) <= Rank(r);
      assert Lease in cleaned;
      var i :| 0 <= i < |cleaned| && cleaned[i] == Lease;
    }
    NoRepetition(cleaned);
  }

  /** Cleanups are pending if and only if the wait was interrupted before the drain
      was done, or never ends, and the drain had not run all of them; the lease is
      then the last of them. A shutdown that completes, is cancelled or fails by a
      cleanup has none. */
  lemma PendingMeans(failure: Failure, raises: set<Resource>, w: Wait, cleaned: seq<Resource>, pending: seq<Resource>, ending: Ending)
    requires failure.Possible() && CleanedBy(failure, w, cleaned, pending) && EndingIs(failure, raises, w, ending)
    ensures pending != [] <==> !Drained(w) && w.ran < |cleaned + pending| - Early(failure)
    ensures pending != [] ==> pending[|pending| - 1] == Lease
    ensures pending != [] && ending != Draining ==> exists n: nat :: n < w.finishes && WaitEnds(w, n) && w.awaits[n].Raised?
    ensures ending == Completed || ending.ShutdownError? || ending.ShutdownCancelled? ==> pending == []
  {
    hide OpAt, Rank, CleanedUp;
    CleanupOrder(failure, cleaned + pending);
    if pending != [] {
      assert (cleaned + pending)[|cleaned + pending| - 1] == pending[|pending| - 1];
    }
    if n: nat :| WaitEnds(w, n) && !w.awaits[n].Raised? {
      assert Drained(w);
    }
  }

  /** A shutdown whose wait is interrupted at once: another lifespan could begin
      before anything is cleaned. */
  method InterruptedDrain(state: AppState, owner: nat, services: nat) returns (ending: Ending, pending: seq<Resource>)
    requires !state.marker.Owner? && state.services != Some(services)
    modifies state
    ensures ending == ShutdownInterrupted(0) && state.marker == old(state.marker)
    ensures forall r :: r in pending
    ensures state.services == Some(services)
  {
    hide CleanedUp, OpAt, Rank;
    var cleaned, health;
    var w := Wait([Raised], 1, 0);
    ending, cleaned, pending, health := Run(state, owner, services, Nowhere, {}, true, None, w);
    assert WaitEnds(w, 0) && forall n: nat :: WaitEnds(w, n) ==> n == 0;
    assert !Drained(w) && cleaned == [] && cleaned + pending == pending;
    EverythingToClean(pending);
  }

  lemma EverythingToClean(all: seq<Resource>)
    requires CleanedUp(Nowhere, all)
    ensures forall r :: r in all
  {
    hide Rank;
    assert forall r :: ToClean(Nowhere, r);
  }

  lemma NotAgain(rs: seq<Resource>)
    requires Descending(rs) && rs != []
    ensures rs[|rs| - 1] !in rs[..|rs| - 1] && Descending(rs[..|rs| - 1])
  {
    hide Rank;
    forall i | 0 <= i < |rs| - 1 ensures rs[i] != rs[|rs| - 1] {
      assert Rank(rs[i]) > Rank(rs[|rs| - 1]);
    }
  }

  lemma SetSnoc(rs: seq<Resource>, last: Resource)
    requires last !in rs
    ensures |set r | r in rs + [last]| == |set r | r in rs| + 1
  {
    assert (set r | r in rs + [last]) == (set r | r in rs) + {last};
  }

  lemma {:induction false} NoRepetition(rs: seq<Resource>)
    requires Descending(rs)
    ensures |rs| == |set r | r in rs|
  {
    hide Rank, Descending;
    if rs != [] {
      var init, last := rs[..|rs| - 1], rs[|rs| - 1];
      NotAgain(rs);
      NoRepetition(init);
      assert rs == init + [last];
      SetSnoc(init, last);
    } else {
      assert (set r | r in rs) == {};
    }
  }

  // ----- What a failure leaves behind -----

  /** Created by one of the steps before the failing one, and not among the
      cleanups registered by then. */
  ghost predicate LeftBehind(i: nat, r: Resource)
    requires i <= STEPS
  {
    && (exists j: nat :: j < i && OpAt(j) == Create(r))
    && r !in Names(Registered(i))
  }

  /** The step that creates a resource, for those that have one. */
  function CreatedAt(r: Resource): Option<nat> {
    match r
    case StreamDrain => None
    case JsonDrain => None
    case UploadDrain => None
    case ApplicationState => None
    case Supervisor => Some(32)
    case StreamCapacity => Some(33)
    case JsonCapacity => Some(34)
    case UploadAdmission => Some(35)
    case ProcessRunner => Some(52)
    case _ => Some(Rank(r) - 1)
  }

  lemma CreationsAre(i: nat, r: Resource)
    requires i < STEPS
    ensures OpAt(i) == Create(r) <==> CreatedAt(r) == Some(i)
  {
  }

  lemma LeftBehindRanks(i: nat, r: Resource)
    requires i <= STEPS
    ensures LeftBehind(i, r) <==> CreatedAt(r).Some? && CreatedAt(r).value < i <= Rank(r)
  {
    RegisteredFacts(i);
    forall j: nat | j < i ensures OpAt(j) == Create(r) <==> CreatedAt(r) == Some(j) {
      CreationsAre(j, r);
    }
    hide OpAt, Rank, Registered, Names;
    if CreatedAt(r).Some? && CreatedAt(r).value < i {
      assert OpAt(CreatedAt(r).value) == Create(r);
    }
  }

  /** A failing startup step leaves a created resource unregistered exactly when
      it is the creation of a capacity or the upload admission, after the
      task supervisor's, or the start of the process runner. */
  lemma LeftBehindExactly(i: nat)
    requires AtStep(i).Possible()
    ensures (exists r :: LeftBehind(i, r)) <==> OpAt(i) in {Create(StreamCapacity), Create(JsonCapacity), Create(UploadAdmission), Start(ProcessRunner)}
  {
    hide OpAt, Rank, Registered, LeftBehind, CreatedAt;
    NoPush(i);
    forall r ensures LeftBehind(i, r) ==> 32 < i <= 35 || i == 53 {
      LeftBehindLate(i, r);
    }
    LeftBehindRanks(i, Supervisor);
    LeftBehindRanks(i, ProcessRunner);
    TwoCreations();
  }

  lemma LeftBehindLate(i: nat, r: Resource)
    requires i < STEPS && !(36 <= i <= 42) && Rank(r) != i
    ensures LeftBehind(i, r) ==> 32 < i <= 35 || i == 53
  {
    hide OpAt, Rank, Registered, LeftBehind, CreatedAt;
    LeftBehindRanks(i, r);
    RanksAfterCreation(r);
  }

  lemma TwoCreations()
    ensures CreatedAt(Supervisor) == Some(32) && Rank(Supervisor) == 39
    ensures CreatedAt(ProcessRunner) == Some(52) && Rank(ProcessRunner) > STEPS
  {
  }

  lemma NoPush(i: nat)
    requires i < STEPS && !OpAt(i).Push?
    ensures !(36 <= i <= 42) && forall r :: Rank(r) != i
    ensures OpAt(i) in {Create(StreamCapacity), Create(JsonCapacity), Create(UploadAdmission), Start(ProcessRunner)} <==> 32 < i <= 35 || i == 53
  {
    hide Rank;
    forall r ensures Rank(r) != i {
      RankIsPush(r);
    }
  }

  /** Most resources are registered by the step after their creation, the
      process runner by none. */
  lemma RanksAfterCreation(r: Resource)
    ensures CreatedAt(r).Some? ==>
      (Rank(r) == CreatedAt(r).value + 1 || (32 <= CreatedAt(r).value && Rank(r) <= 42) || CreatedAt(r).value == 52)
  {
  }
}
