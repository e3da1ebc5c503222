/** The two waits of main.py that finish their task before they let a
    cancellation through: the blocking worker and the resource drain. */
module Cancellation {
  import opened Wrappers

  datatype Outcome<V> = Value(value: V) | Error | TaskCancelled

  /** How one await of the shielded task came back, and what the awaited task had come
      to by then: nothing yet, or its outcome. */
  datatype How = Returned | CancelledError | OtherException

  datatype Wake<V> = Wake(how: How, task: Option<Outcome<V>>)

  /** What the caller sees; a number tells the wake that raised the exception. */
  datatype Ending<V> =
    | Waiting
    | Result(value: V)
    | Cancellation(wake: nat)
    | Interruption(wake: nat)
    | TaskError
    | TaskCancellation

  predicate Done<V>(w: Wake<V>) {
    w.task.Some?
  }

  /** The loop ends at wake n: the awaited task is done, or something other than a
      cancellation came. */
  ghost predicate EndsAt<V>(wakes: seq<Wake<V>>, n: nat) {
    && n < |wakes| && (Done(wakes[n]) || wakes[n].how == OtherException)
    && forall k :: 0 <= k < n ==> !Done(wakes[k]) && wakes[k].how != OtherException
  }

  /** The first cancellation up to wake n. */
  ghost predicate FirstCancellation<V>(wakes: seq<Wake<V>>, n: nat, k: nat) {
    && k <= n < |wakes| && wakes[k].how == CancelledError
    && forall j :: 0 <= j < k ==> wakes[j].how != CancelledError
  }

  ghost predicate NoCancellation<V>(wakes: seq<Wake<V>>, n: nat) {
    n < |wakes| && forall j :: 0 <= j <= n ==> wakes[j].how != CancelledError
  }

  function TaskResult<V>(outcome: Outcome<V>): Ending<V> {
    match outcome
    case Value(v) => Result(v)
    case Error => TaskError
    case TaskCancelled => TaskCancellation
  }

  lemma EndsAtUnique<V>(wakes: seq<Wake<V>>, m: nat, n: nat)
    requires EndsAt(wakes, m) && EndsAt(wakes, n)
    ensures m == n
  {
  }

  // ----- run_cancellation_resistant_thread_worker -----

  /** What the worker's caller may see, in terms of all wakes. */
  ghost predicate WorkerEnding<V>(wakes: seq<Wake<V>>, ending: Ending<V>, handled: bool, logged: bool) {
    if !(exists n: nat :: EndsAt(wakes, n)) then ending == Waiting && !handled && !logged
    else
      exists n: nat :: EndsAt(wakes, n) &&
        if !Done(wakes[n]) then ending == Interruption(n) && handled && !logged
        else
          && !handled
          && (NoCancellation(wakes, n) ==> ending == TaskResult(wakes[n].task.value) && !logged)
          && (forall k: nat :: FirstCancellation(wakes, n, k) ==> ending == Cancellation(k))
          && (logged <==> !NoCancellation(wakes, n) && !wakes[n].task.value.Value?)
  }

  /** handled says that the worker's outcome was given to a done-callback,
      logged that a worker failure was logged instead of raised. */
  method RunWorker<V>(wakes: seq<Wake<V>>) returns (ending: Ending<V>, handled: bool, logged: bool)
    ensures WorkerEnding(wakes, ending, handled, logged)
  {
    handled, logged := false, false;
    var cancellation: Option<nat> := None;
    var task: Option<Outcome<V>> := None;
    var n := 0;
    while task.None?
      invariant n <= |wakes|
      invariant task.None? ==> forall k :: 0 <= k < n ==> !Done(wakes[k]) && wakes[k].how != OtherException
      invariant task.Some? ==> n > 0 && EndsAt(wakes, n - 1) && wakes[n - 1].task == task
      invariant cancellation.None? ==> forall k :: 0 <= k < n ==> wakes[k].how != CancelledError
      invariant cancellation.Some? ==> n > 0 && FirstCancellation(wakes, n - 1, cancellation.value)
      decreases |wakes| - n, if task.None? then 1 else 0
    {
      if n == |wakes| {
        assert !(exists k: nat :: EndsAt(wakes, k));
        return Waiting, false, false;
      }
      var wake := wakes[n];
      task := wake.task;
      match wake.how {
        case Returned =>
        case CancelledError =>
          if cancellation.None? {
            cancellation := Some(n);
          }
        case OtherException =>
          if task.None? {
            assert EndsAt(wakes, n);
            return Interruption(n), true, false;
          }
      }
      n := n + 1;
    }
    assert EndsAt(wakes, n - 1);
    if cancellation.Some? {
      assert !NoCancellation(wakes, n - 1);
      return Cancellation(cancellation.value), false, !task.value.Value?;
    }
    assert NoCancellation(wakes, n - 1);
    return TaskResult(task.value), false, false;
  }

  /** What that means for the caller. A value is returned only if the worker
      finished with it and no cancellation came before. A cancelled caller sees
      the first cancellation, and the worker was done by then. While the worker
      runs, only an interruption ends the wait, and then its outcome is still
      taken care of. */
  lemma WorkerGuarantees<V>(wakes: seq<Wake<V>>, ending: Ending<V>, handled: bool, logged: bool)
    requires WorkerEnding(wakes, ending, handled, logged)
    ensures ending.Result? ==> exists n: nat :: EndsAt(wakes, n) && wakes[n].task == Some(Value(ending.value)) && NoCancellation(wakes, n)
    ensures ending.Cancellation? ==> exists n: nat :: EndsAt(wakes, n) && Done(wakes[n]) && FirstCancellation(wakes, n, ending.wake)
    ensures ending.Interruption? <==> handled
    ensures ending.Interruption? ==> EndsAt(wakes, ending.wake) && !Done(wakes[ending.wake])
    ensures ending.TaskError? || ending.TaskCancellation? ==> exists n: nat :: EndsAt(wakes, n) && Done(wakes[n]) && NoCancellation(wakes, n)
    ensures ending != Waiting <==> exists n: nat :: EndsAt(wakes, n)
  {
    if n: nat :| EndsAt(wakes, n) {
      forall m: nat | EndsAt(wakes, m) ensures m == n {
        EndsAtUnique(wakes, m, n);
      }
      if Done(wakes[n]) && !NoCancellation(wakes, n) {
        FirstExists(wakes, n);
        var k: nat :| FirstCancellation(wakes, n, k);
        assert ending == Cancellation(k);
      }
    }
  }

  lemma {:induction false} FirstExists<V>(wakes: seq<Wake<V>>, n: nat)
    requires n < |wakes| && !NoCancellation(wakes, n)
    ensures exists k: nat :: FirstCancellation(wakes, n, k)
    decreases n
  {
    if n > 0 && !NoCancellation(wakes, n - 1) {
      FirstExists(wakes, n - 1);
      var k: nat :| FirstCancellation(wakes, n - 1, k);
      assert FirstCancellation(wakes, n, k);
    } else {
      assert FirstCancellation(wakes, n, n);
    }
  }

  // ----- _drain_resource_stack -----

  /** The drain differs in two ways: any other exception leaves at once, drained
      or not, and the drain's own failure wins over a cancellation. */
  ghost predicate DrainEnding(wakes: seq<Wake<()>>, ending: Ending<()>) {
    if !(exists n: nat :: EndsAt(wakes, n)) then ending == Waiting
    else
      exists n: nat :: EndsAt(wakes, n) &&
        if wakes[n].how == OtherException then ending == Interruption(n)
        else if !wakes[n].task.value.Value? then ending == TaskResult(wakes[n].task.value)
        else
          && (NoCancellation(wakes, n) ==> ending == Result(()))
          && forall k: nat :: FirstCancellation(wakes, n, k) ==> ending == Cancellation(k)
  }

  method DrainResourceStack(wakes: seq<Wake<()>>) returns (ending: Ending<()>)
    ensures DrainEnding(wakes, ending)
  {
    var cancellation: Option<nat> := None;
    var task: Option<Outcome<()>> := None;
    var n := 0;
    while task.None?
      invariant n <= |wakes|
      invariant task.None? ==> forall k :: 0 <= k < n ==> !Done(wakes[k]) && wakes[k].how != OtherException
      invariant task.Some? ==> n > 0 && EndsAt(wakes, n - 1) && wakes[n - 1].task == task && wakes[n - 1].how != OtherException
      invariant cancellation.None? ==> forall k :: 0 <= k < n ==> wakes[k].how != CancelledError
      invariant cancellation.Some? ==> n > 0 && FirstCancellation(wakes, n - 1, cancellation.value)
      decreases |wakes| - n, if task.None? then 1 else 0
    {
      if n == |wakes| {
        assert !(exists k: nat :: EndsAt(wakes, k));
        return Waiting;
      }
      var wake := wakes[n];
      if wake.how == OtherException {
        assert EndsAt(wakes, n);
        return Interruption(n);
      }
      if wake.how == CancelledError && cancellation.None? {
        cancellation := Some(n);
      }
      task := wake.task;
      n := n + 1;
    }
    assert EndsAt(wakes, n - 1);
    if !task.value.Value? {
      return TaskResult(task.value);
    }
    if cancellation.Some? {
      assert !NoCancellation(wakes, n - 1);
      return Cancellation(cancellation.value);
    }
    assert NoCancellation(wakes, n - 1);
    return Result(());
  }

  /** Cancelled or not, the drain is complete when the wait ends, unless an
      exception that is no cancellation interrupts it. */
  lemma DrainCompletes(wakes: seq<Wake<()>>, ending: Ending<()>)
    requires DrainEnding(wakes, ending)
    ensures ending != Waiting && !ending.Interruption? ==> exists n: nat :: EndsAt(wakes, n) && Done(wakes[n])
    ensures ending.Cancellation? ==> exists n: nat :: EndsAt(wakes, n) && Done(wakes[n]) && wakes[n].task.value.Value? && FirstCancellation(wakes, n, ending.wake)
    ensures ending.Interruption? ==> EndsAt(wakes, ending.wake)
  {
    if n: nat :| EndsAt(wakes, n) {
      forall m: nat | EndsAt(wakes, m) ensures m == n {
        EndsAtUnique(wakes, m, n);
      }
      if !NoCancellation(wakes, n) {
        FirstExists(wakes, n);
        var k: nat :| FirstCancellation(wakes, n, k);
        assert wakes[n].how != OtherException && wakes[n].task.value.Value? ==> ending == Cancellation(k);
      }
    }
  }
}
