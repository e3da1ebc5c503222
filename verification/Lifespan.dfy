/** The application lifespan of main.py: who owns the state, what startup
    registers, and what every failure and the shutdown clean up. */
module Lifespan {
  import opened Wrappers

  // ----- One lifespan at a time -----

  /** The owner marker on the application state. */
  datatype Marker = Missing | Null | Owner(id: nat)

  /** What _claim_lifespan_owner returns. */
  datatype Token = Token(owner: nat, existed: bool, previous: Marker)

  /** The services attribute; absent or some object. */
  type Services = Option<nat>

  class AppState {
    var marker: Marker
    var services: Services

    constructor (marker: Marker, services: Services)
      ensures this.marker == marker && this.services == services
    {
      this.marker, this.services := marker, services;
    }

    /** _claim_lifespan_owner, under its lock. */
    method Claim(owner: nat) returns (r: Option<Token>)
      modifies this`marker
      ensures (r, marker) == Claimed(old(marker), owner)
    {
      var previous := marker;
      if previous.Owner? {
        return None;
      }
      marker := Owner(owner);
      return Some(Token(owner, previous != Missing, previous));
    }

    /** _release_lifespan_owner, under its lock. */
    method Release(token: Token)
      modifies this`marker
      ensures marker == Released(old(marker), token)
    {
      if marker != Owner(token.owner) {
        return;
      }
      marker := if token.existed then token.previous else Missing;
    }
  }

  function Claimed(marker: Marker, owner: nat): (Option<Token>, Marker) {
    if marker.Owner? then (None, marker) else (Some(Token(owner, marker != Missing, marker)), Owner(owner))
  }

  function Released(marker: Marker, token: Token): Marker {
    if marker != Owner(token.owner) then marker else if token.existed then token.previous else Missing
  }

  /** What concurrent lifespans do to the marker: each attempt has its own
      owner, and releases what it claimed, perhaps twice. */
  datatype Act = ClaimAct(owner: nat) | ReleaseAct(owner: nat)

  datatype Contest = Contest(marker: Marker, tokens: map<nat, Token>, active: set<nat>)

  function Play(c: Contest, act: Act): Contest {
    match act
    case ClaimAct(owner) =>
      if owner in c.tokens then c
      else
        var (token, marker) := Claimed(c.marker, owner);
        if token.None? then c
        else Contest(marker, c.tokens[owner := token.value], c.active + {owner})
    case ReleaseAct(owner) =>
      if owner !in c.tokens then c
      else Contest(Released(c.marker, c.tokens[owner]), c.tokens, c.active - {owner})
  }

  function PlayAll(c: Contest, acts: seq<Act>): Contest {
    if acts == [] then c else Play(PlayAll(c, acts[..|acts| - 1]), acts[|acts| - 1])
  }

  /** At most one lifespan is active; it is the one the marker names, and
      without one the marker is what it was before all of them. */
  ghost predicate Exclusive(c: Contest, initial: Marker) {
    && (forall o :: o in c.tokens ==> c.tokens[o] == Token(o, initial != Missing, initial))
    && c.active <= c.tokens.Keys
    && (if c.marker.Owner? then c.active == {c.marker.id} else c.active == {} && c.marker == initial)
  }

  /** Every interleaving of claims and releases keeps it that way. */
  lemma {:induction false} AlwaysExclusive(initial: Marker, acts: seq<Act>)
    requires !initial.Owner?
    ensures Exclusive(PlayAll(Contest(initial, map[], {}), acts), initial)
    decreases |acts|
  {
    if acts != [] {
      AlwaysExclusive(initial, acts[..|acts| - 1]);
      PlayExclusive(PlayAll(Contest(initial, map[], {}), acts[..|acts| - 1]), initial, acts[|acts| - 1]);
    }
  }

  lemma PlayExclusive(c: Contest, initial: Marker, act: Act)
    requires !initial.Owner? && Exclusive(c, initial)
    ensures Exclusive(Play(c, act), initial)
  {
    if act.ReleaseAct? && act.owner in c.tokens {
      if c.marker == Owner(act.owner) {
        assert c.active - {act.owner} == {};
      } else {
        assert act.owner !in c.active;
        assert c.active - {act.owner} == c.active;
      }
    }
    if act.ClaimAct? && act.owner !in c.tokens && !c.marker.Owner? {
      assert c.active + {act.owner} == {act.owner};
    }
  }

  // ----- _TemporaryStateBinding -----

  class StateBinding {
    const state: AppState
    var previous: Option<Services>
    var owned: Option<nat>

    constructor (state: AppState)
      ensures this.state == state && owned.None? && previous.None?
    {
      this.state, previous, owned := state, None, None;
    }

    /** bind; setting the attribute may fail. */
    method Bind(services: nat, settable: bool) returns (ok: bool)
      modifies this, state`services
      ensures ok == settable && owned == Some(services) && previous == Some(old(state.services))
      ensures state.services == if settable then Some(services) else old(state.services)
    {
      previous, owned := Some(state.services), Some(services);
      if settable {
        state.services := Some(services);
      }
      ok := settable;
    }

    /** rollback: only what is still our own is taken back. A failure to set the
        attribute is logged, and the binding is over in any case. */
    method Rollback(settable: bool) returns (logged: bool)
      modifies this, state`services
      ensures owned.None? && previous.None?
      ensures old(owned).None? || old(previous).None? || old(state.services) != Some(old(owned).value) ==>
        state.services == old(state.services) && !logged
      ensures old(owned).Some? && old(previous).Some? && old(state.services) == Some(old(owned).value) ==>
        state.services == (if settable then old(previous).value else old(state.services)) && logged == !settable
    {
      logged := false;
      if owned.Some? && previous.Some? && state.services == Some(owned.value) {
        logged := !settable;
        if settable {
          state.services := previous.value;
        }
      }
      previous, owned := None, None;
    }
  }

  // ----- The resource stack -----

  datatype Resource =
    | Lease | HttpClient | WriteBatcher | Accounting | RuntimeManager | OpenRouterModels | FallbackEval
    | StreamDrain | JsonDrain | UploadDrain | Supervisor | StreamCapacity | JsonCapacity | UploadAdmission
    | Coordinator | ApplicationState | ProcessRunner

  /** A cleanup; only a safe one keeps its failure to itself. */
  datatype Cleanup = Cleanup(resource: Resource, safe: bool)

  function Reverse<T>(s: seq<T>): (r: seq<T>)
    ensures |r| == |s|
    ensures forall i :: 0 <= i < |s| ==> r[i] == s[|s| - 1 - i]
  {
    seq(|s|, i requires 0 <= i < |s| => s[|s| - 1 - i])
  }

  function Names(cleanups: seq<Cleanup>): (r: seq<Resource>)
    ensures |r| == |cleanups| && forall i :: 0 <= i < |r| ==> r[i] == cleanups[i].resource
  {
    seq(|cleanups|, i requires 0 <= i < |cleanups| => cleanups[i].resource)
  }

  /** What the stack raises in the end: the failure of the unsafe cleanup that
      was registered first, as it is the last to run. */
  function Escaping(cleanups: seq<Cleanup>, raises: set<Resource>): Option<Resource> {
    if cleanups == [] then None
    else if !cleanups[0].safe && cleanups[0].resource in raises then Some(cleanups[0].resource)
    else Escaping(cleanups[1..], raises)
  }

  /** The failures that the safe cleanups keep to themselves. */
  function Swallowed(cleanups: seq<Cleanup>, raises: set<Resource>): set<Resource> {
    set c | c in cleanups && c.safe && c.resource in raises :: c.resource
  }

  class ExitStack {
    var cleanups: seq<Cleanup>
    var cleaned: seq<Resource>
    var logged: set<Resource>

    constructor ()
      ensures cleanups == [] && cleaned == [] && logged == {}
    {
      cleanups, cleaned, logged := [], [], {};
    }

    method Push(resource: Resource, safe: bool)
      modifies this
      ensures cleanups == old(cleanups) + [Cleanup(resource, safe)]
      ensures cleaned == old(cleaned) && logged == old(logged)
    {
      cleanups := cleanups + [Cleanup(resource, safe)];
    }

    /** The cleanup registered last. A failure of an unsafe one replaces the one
        before. */
    method RunLast(raises: set<Resource>, error: Option<Resource>) returns (after: Option<Resource>)
      requires cleanups != []
      modifies this
      ensures cleanups == old(cleanups)[..|old(cleanups)| - 1]
      ensures var c := old(cleanups)[|old(cleanups)| - 1];
        && cleaned == old(cleaned) + [c.resource]
        && logged == old(logged) + (if c.safe && c.resource in raises then {c.resource} else {})
        && after == if !c.safe && c.resource in raises then Some(c.resource) else error
    {
      var c := cleanups[|cleanups| - 1];
      after := error;
      cleanups, cleaned := cleanups[..|cleanups| - 1], cleaned + [c.resource];
      if c.resource in raises {
        if c.safe {
          logged := logged + {c.resource};
        } else {
          after := Some(c.resource);
        }
      }
    }

    /** aclose, as far as it got when some cleanups are left: last in, first out,
        whichever raise. */
    method CloseDownTo(left: nat, raises: set<Resource>) returns (error: Option<Resource>)
      requires left <= |cleanups|
      modifies this
      ensures cleanups == old(cleanups)[..left] && cleaned == old(cleaned) + Reverse(Names(old(cleanups)[left..]))
      ensures error == Escaping(old(cleanups)[left..], raises)
      ensures logged == old(logged) + Swallowed(old(cleanups)[left..], raises)
    {
      hide Swallowed, Escaping, Reverse, Names;
      error := None;
      ghost var all, before, quiet := cleanups, cleaned, logged;
      NoneYet(raises);
      assert all[|all|..] == [] && all[..|all|] == all;
      while |cleanups| > left
        invariant left <= |cleanups| <= |all| && cleanups == all[..|cleanups|]
        invariant cleaned == before + Reverse(Names(all[|cleanups|..]))
        invariant error == Escaping(all[|cleanups|..], raises)
        invariant logged == quiet + Swallowed(all[|cleanups|..], raises)
        decreases |cleanups|
      {
        ghost var n := |cleanups| - 1;
        assert all[n..] == [all[n]] + all[n + 1..];
        OneMore(all[n], all[n + 1..], raises);
        error := RunLast(raises, error);
        assert all[..n + 1][..n] == all[..n];
      }
    }

    /** aclose: every one of them. */
    method Close(raises: set<Resource>) returns (error: Option<Resource>)
      modifies this
      ensures cleanups == [] && cleaned == old(cleaned) + Reverse(Names(old(cleanups)))
      ensures error == Escaping(old(cleanups), raises)
      ensures logged == old(logged) + Swallowed(old(cleanups), raises)
    {
      hide *;
      assert cleanups[0..] == cleanups && cleanups[..0] == [];
      error := CloseDownTo(0, raises);
    }
  }

  lemma NoneYet(raises: set<Resource>)
    ensures Reverse(Names([])) == [] && Escaping([], raises) == None && Swallowed([], raises) == {}
  {
  }

  lemma OneMore(c: Cleanup, done: seq<Cleanup>, raises: set<Resource>)
    ensures Reverse(Names([c] + done)) == Reverse(Names(done)) + [c.resource]
    ensures Swallowed([c] + done, raises) == Swallowed(done, raises) + if c.safe && c.resource in raises then {c.resource} else {}
    ensures Escaping([c] + done, raises) == if !c.safe && c.resource in raises then Some(c.resource) else Escaping(done, raises)
  {
    hide Swallowed, Escaping, Reverse;
    assert Names([c] + done) == [c.resource] + Names(done);
    ReverseCons(c.resource, Names(done));
    SwallowedOneMore(c, done, raises);
    EscapingOneMore(c, done, raises);
  }

  lemma SwallowedOneMore(c: Cleanup, done: seq<Cleanup>, raises: set<Resource>)
    ensures Swallowed([c] + done, raises) == Swallowed(done, raises) + if c.safe && c.resource in raises then {c.resource} else {}
  {
    assert forall x :: x in [c] + done <==> x == c || x in done;
  }

  lemma EscapingOneMore(c: Cleanup, done: seq<Cleanup>, raises: set<Resource>)
    ensures Escaping([c] + done, raises) == if !c.safe && c.resource in raises then Some(c.resource) else Escaping(done, raises)
  {
    assert ([c] + done)[1..] == done;
  }

  lemma ReverseCons<T>(x: T, s: seq<T>)
    ensures Reverse([x] + s) == Reverse(s) + [x]
  {
  }
}
