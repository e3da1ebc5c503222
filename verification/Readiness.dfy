/** The readiness loop of docker/systemd_readiness.py on a clock that may jump
    ahead at any time but never goes back, and sleeps at least as long as asked. */
module Readiness {
  import opened Wrappers

  /** By how much the clock is ahead after the next call, beyond what the call
      itself takes, and what that call answers if it is a check. */
  datatype Step = Step(ahead: real, answer: Answer)

  datatype Answer = IsReady | NotReady | CheckRaises

  /** A check, begun after this clock reading. */
  datatype Check = Check(begun: real, answer: Answer)

  /** A sleep asked for, and the clock reading it was computed from. */
  datatype Nap = Nap(reading: real, seconds: real)

  datatype Error = InvalidTimeout | InvalidInterval | CheckError

  class Environment {
    var now: real
    var steps: seq<Step>
    var checks: seq<Check>
    var sleeps: seq<Nap>

    constructor (now: real, steps: seq<Step>)
      ensures this.now == now && this.steps == steps && checks == [] && sleeps == []
    {
      this.now, this.steps, checks, sleeps := now, steps, [], [];
    }

    method Advance(least: real) returns (answer: Answer)
      requires least >= 0.0
      modifies `now, `steps
      ensures now >= old(now) + least
    {
      var step := if steps == [] then Step(0.0, NotReady) else steps[0];
      steps := if steps == [] then [] else steps[1..];
      now := now + least + if step.ahead < 0.0 then 0.0 else step.ahead;
      answer := step.answer;
    }

    method Monotonic() returns (reading: real)
      modifies `now, `steps
      ensures reading == now >= old(now)
    {
      var answer := Advance(0.0);
      reading := now;
    }

    method CheckHealth(reading: real) returns (answer: Answer)
      modifies `now, `steps, `checks
      ensures now >= old(now) && checks == old(checks) + [Check(reading, answer)]
    {
      answer := Advance(0.0);
      checks := checks + [Check(reading, answer)];
    }

    method Sleep(reading: real, seconds: real)
      requires seconds >= 0.0
      modifies `now, `steps, `sleeps
      ensures now >= old(now) + seconds && sleeps == old(sleeps) + [Nap(reading, seconds)]
    {
      var answer := Advance(seconds);
      sleeps := sleeps + [Nap(reading, seconds)];
    }
  }

  /** The least number of intervals that make up the timeout. */
  function Ceiling(timeout: real, interval: real): int
    requires interval > 0.0
  {
    -(-timeout / interval).Floor
  }

  lemma CeilingBound(timeout: real, interval: real, n: int)
    requires interval > 0.0
    ensures Spent(n, interval) < timeout <==> n < Ceiling(timeout, interval)
  {
    var q := -timeout / interval;
    assert q * interval == -timeout;
    var c := Ceiling(timeout, interval);
    assert q.Floor == -c;
    if n < c {
      assert (-c) as real <= q < (-c + 1) as real;
      assert -(n as real) > q;
      Scale(q, -(n as real), interval);
    } else {
      assert -(n as real) <= q;
      Scale(-(n as real), q, interval);
    }
  }

  lemma Scale(a: real, b: real, factor: real)
    requires factor > 0.0
    ensures a < b ==> a * factor < b * factor
    ensures a <= b ==> a * factor <= b * factor
  {
  }

  function Spent(n: int, interval: real): real {
    n as real * interval
  }

  /** Every check but perhaps the last was not ready, and was begun in time. */
  ghost predicate Tried(checks: seq<Check>, deadline: real) {
    && (forall i :: 0 <= i < |checks| ==> checks[i].begun < deadline)
    && forall i :: 0 <= i < |checks| - 1 ==> checks[i].answer.NotReady?
  }

  predicate InTime(nap: Nap, interval: real, deadline: real) {
    0.0 < nap.seconds <= interval && nap.reading + nap.seconds <= deadline
  }

  lemma OneMore(n: nat, interval: real)
    ensures Spent(n + 1, interval) == Spent(n, interval) + interval && Spent(0, interval) == 0.0
  {
    assert (n + 1) as real == n as real + 1.0;
  }

  /** wait_for_readiness: at most as many checks as intervals fit into the
      timeout, rounded up, each begun before the deadline; no sleep beyond the
      deadline; ready exactly if one of them was, and not ready only when the
      deadline has passed. */
  method WaitForReadiness(env: Environment, timeout: real, interval: real) returns (r: Result<bool, Error>, ghost deadline: real)
    requires env.checks == [] && env.sleeps == []
    modifies env
    ensures timeout <= 0.0 ==> r == Failure(InvalidTimeout)
    ensures timeout > 0.0 && interval <= 0.0 ==> r == Failure(InvalidInterval)
    ensures timeout <= 0.0 || interval <= 0.0 ==> env.checks == [] && env.sleeps == []
    ensures timeout > 0.0 && interval > 0.0 ==>
      && deadline >= old(env.now) + timeout
      && |env.checks| <= Ceiling(timeout, interval) && Tried(env.checks, deadline)
      && (r == Success(true) <==> exists c :: c in env.checks && c.answer.IsReady?)
      && (r == Failure(CheckError) <==> exists c :: c in env.checks && c.answer.CheckRaises?)
      && (r == Success(false) ==> env.now >= deadline)
      && (r.Success? || r == Failure(CheckError))
      && |env.sleeps| <= |env.checks| && forall s :: s in env.sleeps ==> InTime(s, interval, deadline)
  {
    deadline := 0.0;
    if timeout <= 0.0 {
      return Failure(InvalidTimeout), deadline;
    }
    if interval <= 0.0 {
      return Failure(InvalidInterval), deadline;
    }
    hide Spent, Ceiling;
    CeilingBound(timeout, interval, 0);
    OneMore(0, interval);
    var start := env.Monotonic();
    var end := start + timeout;
    deadline := end;
    var reading := env.Monotonic();
    while reading < end
      invariant reading == env.now && end == start + timeout == deadline
      invariant start + Spent(|env.checks|, interval) <= reading || end <= reading
      invariant |env.checks| <= Ceiling(timeout, interval)
      invariant forall c :: c in env.checks ==> c.begun < end && c.answer.NotReady?
      invariant |env.sleeps| == |env.checks| && forall s :: s in env.sleeps ==> InTime(s, interval, end)
      decreases Ceiling(timeout, interval) - |env.checks|
    {
      CeilingBound(timeout, interval, |env.checks|);
      ghost var before := env.checks;
      var answer := env.CheckHealth(reading);
      assert env.checks[|before|] == Check(reading, answer);
      assert forall i :: 0 <= i < |before| ==> env.checks[i] in before;
      if answer.CheckRaises? {
        return Failure(CheckError), deadline;
      }
      if answer.IsReady? {
        return Success(true), deadline;
      }
      var later := env.Monotonic();
      var remaining := end - later;
      if remaining <= 0.0 {
        return Success(false), deadline;
      }
      var pause := if interval < remaining then interval else remaining;
      env.Sleep(later, pause);
      ghost var begun := reading;
      reading := env.Monotonic();
      OneMore(|before|, interval);
      assert start + Spent(|before|, interval) <= begun;
      assert begun <= later;
      assert later + pause <= reading;
      assert |env.checks| == |before| + 1;
    }
    return Success(false), deadline;
  }
}
