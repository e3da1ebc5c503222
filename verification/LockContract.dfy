/** The comparisons between locks in scripts/check_dependency_contract.py, and
    what their silence guarantees about all four locks. */
module LockContract {
  import opened NameOrder

  /** A parsed lock; equal versions have equal texts. */
  datatype Lock = Lock(filename: string, pins: map<string, string>, hashes: map<string, set<string>>)

  datatype Problem =
    | MissingPin(name: string, left: string, right: string)
    | SharedMismatch(name: string, left: string, right: string)
    | ContainerMissing(names: seq<string>) | ContainerExtra(names: seq<string>) | ContainerMismatch(name: string)
    | RequiredMissing(names: seq<string>) | ForbiddenPresent(names: seq<string>) | Unhashed(names: seq<string>)
    | ConstraintAbsent(name: string) | ConstraintMismatch(name: string, lock: string)

  const REQUIRED_CONTAINER_DEPENDENCIES: set<string> := {"cloakbrowser", "gpt-researcher", "playwright"}
  const FORBIDDEN_CONTAINER_DEV_DEPENDENCIES: set<string> :=
    {"httpx2", "pip-audit", "pip-tools", "pytest", "pytest-cov", "pytest-playwright", "ruff"}

  // ----- _validate_shared_pins -----

  /** What is wrong with this name of the left lock. */
  function SharedProblems(left: Lock, right: Lock, requireAllLeft: bool, name: string): seq<Problem>
    requires name in left.pins
  {
    if name !in right.pins then
      if requireAllLeft then [MissingPin(name, left.filename, right.filename)] else []
    else if right.pins[name] != left.pins[name] then [SharedMismatch(name, left.filename, right.filename)]
    else []
  }

  ghost predicate Agree(a: Lock, b: Lock) {
    forall n :: n in a.pins && n in b.pins ==> a.pins[n] == b.pins[n]
  }

  ghost predicate Contained(a: Lock, b: Lock) {
    forall n :: n in a.pins ==> n in b.pins && b.pins[n] == a.pins[n]
  }

  /** Appends, and only appends; nothing exactly if the pins agree. */
  method ValidateSharedPins(left: Lock, right: Lock, requireAllLeft: bool, errors: seq<Problem>) returns (r: seq<Problem>)
    ensures errors <= r
    ensures r == errors <==> if requireAllLeft then Contained(left, right) else Agree(left, right)
    ensures forall e :: e in r[|errors|..] <==> exists n :: n in left.pins && e in SharedProblems(left, right, requireAllLeft, n)
  {
    hide SharedProblems, Sorted;
    r := errors;
    var names := SortNames(left.pins.Keys);
    SortedMembers(left.pins.Keys);
    var i := 0;
    while i < |names|
      invariant i <= |names| && errors <= r
      invariant r == errors <==> forall n :: n in names[..i] ==> SharedProblems(left, right, requireAllLeft, n) == []
      invariant forall e :: e in r[|errors|..] <==> exists n :: n in names[..i] && e in SharedProblems(left, right, requireAllLeft, n)
    {
      var n := names[i];
      assert n in names;
      assert names[..i + 1] == names[..i] + [n];
      var more := SharedProblems(left, right, requireAllLeft, n);
      assert (r + more)[|errors|..] == r[|errors|..] + more;
      r := r + more;
      i := i + 1;
    }
    assert names[..i] == names;
    NoSharedProblems(left, right, requireAllLeft);
  }

  lemma NoSharedProblems(left: Lock, right: Lock, requireAllLeft: bool)
    ensures (forall n :: n in left.pins ==> SharedProblems(left, right, requireAllLeft, n) == []) <==>
      if requireAllLeft then Contained(left, right) else Agree(left, right)
  {
    assert forall n :: n in left.pins ==> (SharedProblems(left, right, requireAllLeft, n) == [] <==>
      if requireAllLeft then n in right.pins && right.pins[n] == left.pins[n] else n in right.pins ==> left.pins[n] == right.pins[n]);
  }

  // ----- _validate_container_lock -----

  /** One error for a set of names, if it has any. */
  method Complain(names: set<string>) returns (sorted: seq<string>)
    ensures sorted == Sorted(names)
    ensures sorted == [] <==> names == {}
  {
    sorted := SortNames(names);
    SortedMembers(names);
    assert names != {} ==> exists n :: n in names;
  }

  function UnhashedPins(lock: Lock): set<string> {
    set n | n in lock.pins && (n !in lock.hashes || lock.hashes[n] == {})
  }

  ghost predicate ContainerFine(research: Lock, container: Lock) {
    container.pins == research.pins && ContentsFine(container)
  }

  ghost predicate ContentsFine(container: Lock) {
    && REQUIRED_CONTAINER_DEPENDENCIES <= container.pins.Keys
    && FORBIDDEN_CONTAINER_DEV_DEPENDENCIES !! container.pins.Keys
    && forall n :: n in container.pins ==> n in container.hashes && container.hashes[n] != {}
  }

  predicate Differ(a: Lock, b: Lock, n: string) {
    n in a.pins && n in b.pins && a.pins[n] != b.pins[n]
  }

  /** The version comparison of _validate_container_lock. */
  method CompareVersions(research: Lock, container: Lock, errors: seq<Problem>) returns (r: seq<Problem>)
    ensures errors <= r
    ensures r == errors <==> forall n :: !Differ(research, container, n)
    ensures forall n :: ContainerMismatch(n) in r[|errors|..] <==> Differ(research, container, n)
  {
    var shared := SortNames(research.pins.Keys * container.pins.Keys);
    SortedMembers(research.pins.Keys * container.pins.Keys);
    var found := [];
    var i := 0;
    while i < |shared|
      invariant i <= |shared|
      invariant found == [] <==> forall n :: n in shared[..i] ==> !Differ(research, container, n)
      invariant forall n :: ContainerMismatch(n) in found <==> n in shared[..i] && Differ(research, container, n)
    {
      var name := shared[i];
      assert name in shared;
      assert forall n :: n in shared[..i + 1] <==> n in shared[..i] || n == name;
      if research.pins[name] != container.pins[name] {
        found := found + [ContainerMismatch(name)];
      }
      i := i + 1;
    }
    assert shared[..i] == shared;
    r := errors + found;
    assert r[|errors|..] == found;
  }

  /** The comparison of the two sets of names. */
  method CompareNames(research: Lock, container: Lock, errors: seq<Problem>) returns (r: seq<Problem>)
    ensures errors <= r
    ensures r == errors <==> research.pins.Keys == container.pins.Keys
    ensures forall names :: ContainerMissing(names) in r[|errors|..] <==>
      names == Sorted(research.pins.Keys - container.pins.Keys) && names != []
    ensures forall names :: ContainerExtra(names) in r[|errors|..] <==>
      names == Sorted(container.pins.Keys - research.pins.Keys) && names != []
  {
    hide Sorted;
    r := errors;
    var missing := Complain(research.pins.Keys - container.pins.Keys);
    if missing != [] {
      r := r + [ContainerMissing(missing)];
    }
    var extra := Complain(container.pins.Keys - research.pins.Keys);
    if extra != [] {
      r := r + [ContainerExtra(extra)];
    }
    assert r[|errors|..] == (if missing != [] then [ContainerMissing(missing)] else []) + (if extra != [] then [ContainerExtra(extra)] else []);
    SameKeys(research.pins.Keys, container.pins.Keys);
  }

  lemma SameKeys(a: set<string>, b: set<string>)
    ensures a == b <==> a - b == {} && b - a == {}
  {
    if a - b == {} && b - a == {} {
      forall n ensures n in a <==> n in b {
        assert n in a && n !in b ==> n in a - b;
        assert n in b && n !in a ==> n in b - a;
      }
    }
  }

  /** What the container must have, must not have, and must have hashes for. */
  method CheckContents(container: Lock, errors: seq<Problem>) returns (r: seq<Problem>)
    ensures errors <= r
    ensures r == errors <==> ContentsFine(container)
    ensures forall names :: RequiredMissing(names) in r[|errors|..] <==>
      names == Sorted(REQUIRED_CONTAINER_DEPENDENCIES - container.pins.Keys) && names != []
    ensures forall names :: ForbiddenPresent(names) in r[|errors|..] <==>
      names == Sorted(FORBIDDEN_CONTAINER_DEV_DEPENDENCIES * container.pins.Keys) && names != []
    ensures forall names :: Unhashed(names) in r[|errors|..] <==> names == Sorted(UnhashedPins(container)) && names != []
  {
    hide Sorted, UnhashedPins;
    var required := Complain(REQUIRED_CONTAINER_DEPENDENCIES - container.pins.Keys);
    var more := if required != [] then [RequiredMissing(required)] else [];
    var forbidden := Complain(FORBIDDEN_CONTAINER_DEV_DEPENDENCIES * container.pins.Keys);
    if forbidden != [] {
      more := more + [ForbiddenPresent(forbidden)];
    }
    var unhashed := Complain(UnhashedPins(container));
    if unhashed != [] {
      more := more + [Unhashed(unhashed)];
    }
    SetsFine(container);
    r := errors + more;
    assert r[|errors|..] == more;
  }

  method ValidateContainerLock(research: Lock, container: Lock, errors: seq<Problem>) returns (r: seq<Problem>)
    ensures errors <= r
    ensures r == errors <==> ContainerFine(research, container)
  {
    hide ContentsFine;
    r := CompareNames(research, container, errors);
    r := CompareVersions(research, container, r);
    r := CheckContents(container, r);
    SamePins(research, container);
  }

  lemma SamePins(research: Lock, container: Lock)
    ensures container.pins == research.pins <==>
      research.pins.Keys == container.pins.Keys && forall n :: !Differ(research, container, n)
  {
    if research.pins.Keys == container.pins.Keys && forall n :: !Differ(research, container, n) {
      forall n ensures n in research.pins <==> n in container.pins
        ensures n in research.pins ==> container.pins[n] == research.pins[n]
      {
        assert n in research.pins <==> n in research.pins.Keys;
        assert !Differ(research, container, n);
      }
    }
  }

  lemma SetsFine(lock: Lock)
    ensures REQUIRED_CONTAINER_DEPENDENCIES - lock.pins.Keys == {} <==> REQUIRED_CONTAINER_DEPENDENCIES <= lock.pins.Keys
    ensures FORBIDDEN_CONTAINER_DEV_DEPENDENCIES * lock.pins.Keys == {} <==> FORBIDDEN_CONTAINER_DEV_DEPENDENCIES !! lock.pins.Keys
    ensures UnhashedPins(lock) == {} <==> forall n :: n in lock.pins ==> n in lock.hashes && lock.hashes[n] != {}
  {
    var required, forbidden, keys := REQUIRED_CONTAINER_DEPENDENCIES, FORBIDDEN_CONTAINER_DEV_DEPENDENCIES, lock.pins.Keys;
    Disjointness(forbidden, keys);
    assert required - lock.pins.Keys == {} ==> forall n :: n in required ==> n !in required - lock.pins.Keys;
    assert UnhashedPins(lock) == {} ==> forall n :: n in lock.pins ==> n !in UnhashedPins(lock);
  }

  lemma Disjointness(a: set<string>, b: set<string>)
    ensures a * b == {} <==> a !! b
  {
    if a * b == {} {
      forall n | n in a ensures n !in b {
        assert n in b ==> n in a * b;
      }
    }
  }

  // ----- _validate_security_constraints, _validate_compatibility_constraints -----

  /** A security constraint fixes the version; a compatibility constraint has a
      specifier, about which the given predicate decides. */
  datatype Constraint = Exact(version: string) | Range(specifier: string)

  predicate Meets(version: string, c: Constraint, contains: (string, string) -> bool) {
    match c
    case Exact(fixed) => version == fixed
    case Range(specifier) => contains(specifier, version)
  }

  ghost predicate Respected(c: Constraint, locks: seq<Lock>, name: string, contains: (string, string) -> bool) {
    && (exists i :: 0 <= i < |locks| && name in locks[i].pins)
    && forall i :: 0 <= i < |locks| && name in locks[i].pins ==> Meets(locks[i].pins[name], c, contains)
  }

  ghost predicate AllRespected(constraints: map<string, Constraint>, locks: seq<Lock>, contains: (string, string) -> bool) {
    forall n :: n in constraints ==> Respected(constraints[n], locks, n, contains)
  }

  /** The errors of one constraint. */
  method ValidateConstraint(c: Constraint, locks: seq<Lock>, name: string, contains: (string, string) -> bool, errors: seq<Problem>)
    returns (r: seq<Problem>)
    ensures errors <= r
    ensures r == errors <==> Respected(c, locks, name, contains)
    ensures ConstraintAbsent(name) in r[|errors|..] <==> forall i :: 0 <= i < |locks| ==> name !in locks[i].pins
    ensures forall i :: 0 <= i < |locks| && name in locks[i].pins && !Meets(locks[i].pins[name], c, contains) ==>
      ConstraintMismatch(name, locks[i].filename) in r[|errors|..]
  {
    var found := [];
    var matching := false;
    var i := 0;
    while i < |locks|
      invariant i <= |locks|
      invariant matching <==> exists j :: 0 <= j < i && name in locks[j].pins
      invariant found == [] <==> forall j :: 0 <= j < i && name in locks[j].pins ==> Meets(locks[j].pins[name], c, contains)
      invariant forall j :: 0 <= j < i && name in locks[j].pins && !Meets(locks[j].pins[name], c, contains) ==>
        ConstraintMismatch(name, locks[j].filename) in found
      invariant ConstraintAbsent(name) !in found
    {
      if name in locks[i].pins {
        matching := true;
        if !Meets(locks[i].pins[name], c, contains) {
          found := found + [ConstraintMismatch(name, locks[i].filename)];
        }
      }
      i := i + 1;
    }
    if !matching {
      found := [ConstraintAbsent(name)];
    }
    r := errors + found;
    assert r[|errors|..] == found;
  }

  /** Both checks: every constrained name is in some lock, and its constraint is
      met in each that has it. */
  method ValidateConstraints(constraints: map<string, Constraint>, locks: seq<Lock>, contains: (string, string) -> bool, errors: seq<Problem>)
    returns (r: seq<Problem>)
    ensures errors <= r
    ensures r == errors <==> AllRespected(constraints, locks, contains)
  {
    hide Respected;
    r := errors;
    var names := SortNames(constraints.Keys);
    SortedMembers(constraints.Keys);
    var i := 0;
    while i < |names|
      invariant i <= |names| && errors <= r
      invariant r == errors <==> forall n :: n in names[..i] ==> n in constraints && Respected(constraints[n], locks, n, contains)
    {
      assert names[i] in names;
      assert names[..i + 1] == names[..i] + [names[i]];
      r := ValidateConstraint(constraints[names[i]], locks, names[i], contains, r);
      i := i + 1;
    }
    assert names[..i] == names;
  }

  // ----- The whole contract -----

  datatype Locks = Locks(runtime: Lock, dev: Lock, research: Lock, container: Lock) {
    function All(): seq<Lock> {
      [runtime, dev, research, container]
    }
  }

  /** The three comparisons of shared pins and the container's. */
  ghost predicate Compared(l: Locks) {
    && Contained(l.runtime, l.dev) && Contained(l.runtime, l.research)
    && Agree(l.dev, l.research) && ContainerFine(l.research, l.container)
  }

  /** What they are there for: the runtime closure is in every lock, any two of
      the four locks agree on every name they share, and the container lock
      pins what the research lock pins. */
  ghost predicate Consistent(l: Locks) {
    && (forall i :: 0 <= i < 4 ==> Contained(l.runtime, l.All()[i]))
    && (forall i, j :: 0 <= i < 4 && 0 <= j < 4 ==> Agree(l.All()[i], l.All()[j]))
    && ContainerFine(l.research, l.container)
  }

  /** Four comparisons instead of twelve suffice. */
  lemma FourComparisonsSuffice(l: Locks)
    ensures Compared(l) <==> Consistent(l)
  {
    var all := l.All();
    if Compared(l) {
      forall i, j | 0 <= i < 4 && 0 <= j < 4 ensures Agree(all[i], all[j]) {
        assert Agree(l.dev, l.container) && Agree(l.runtime, l.dev) && Agree(l.runtime, l.research);
      }
    }
    if Consistent(l) {
      assert Contained(l.runtime, all[1]) && Contained(l.runtime, all[2]) && Agree(all[1], all[2]);
    }
  }

  /** Whether the comparison at this place in their order succeeds. */
  ghost predicate ComparisonHolds(l: Locks, i: nat) {
    match i
    case 0 => Contained(l.runtime, l.dev)
    case 1 => Contained(l.runtime, l.research)
    case 2 => Agree(l.dev, l.research)
    case _ => ContainerFine(l.research, l.container)
  }

  function Hashed(filename: string, pins: map<string, string>): Lock {
    Lock(filename, pins, map n | n in pins :: {"sha256"})
  }

  /** Locks on which only the comparison at this place fails. */
  function OnlyFailing(i: nat): Locks {
    var full := map["cloakbrowser" := "1", "gpt-researcher" := "1", "playwright" := "1"];
    var one := map["playwright" := "1"];
    match i
    case 0 => Locks(Hashed("runtime", one), Hashed("dev", map[]), Hashed("research", full), Hashed("container", full))
    case 1 => Locks(Hashed("runtime", map["httpx" := "1"]), Hashed("dev", map["httpx" := "1"]), Hashed("research", full), Hashed("container", full))
    case 2 => Locks(Hashed("runtime", map[]), Hashed("dev", map["playwright" := "2"]), Hashed("research", full), Hashed("container", full))
    case _ => Locks(Hashed("runtime", one), Hashed("dev", one), Hashed("research", full), Hashed("container", one))
  }

  /** None of the four is more than needed: without it, some inconsistent locks
      would pass the other three. */
  lemma NoneIsSuperfluous(i: nat)
    requires i < 4
    ensures forall j: nat :: j < 4 ==> (ComparisonHolds(OnlyFailing(i), j) <==> j != i)
    ensures !Consistent(OnlyFailing(i))
  {
    OnlyContainerFails(i);
    OnlyPinsFail(i);
    hide Consistent, ContainerFine, Contained, Agree, OnlyFailing;
    assert !ComparisonHolds(OnlyFailing(i), i);
    FourComparisonsSuffice(OnlyFailing(i));
  }

  lemma OnlyContainerFails(i: nat)
    requires i < 4
    ensures ComparisonHolds(OnlyFailing(i), 3) <==> i != 3
  {
    if i == 3 {
      assert "cloakbrowser" in OnlyFailing(i).research.pins && "cloakbrowser" !in OnlyFailing(i).container.pins;
    }
  }

  lemma OnlyPinsFail(i: nat)
    requires i < 4
    ensures forall j: nat :: j < 3 ==> (ComparisonHolds(OnlyFailing(i), j) <==> j != i)
  {
    var l := OnlyFailing(i);
    hide ContainerFine;
    if i == 0 {
      assert "playwright" in l.runtime.pins;
    } else if i == 1 {
      assert "httpx" in l.runtime.pins && "httpx" !in l.research.pins;
    } else if i == 2 {
      assert "playwright" in l.dev.pins && "playwright" in l.research.pins;
    }
  }

  /** Under the contract a security constraint on a runtime dependency is
      enforced in all four locks, and no constrained name is only in the
      container lock. */
  lemma ConstraintsReachEveryLock(l: Locks, constraints: map<string, Constraint>, contains: (string, string) -> bool, name: string)
    requires Consistent(l) && AllRespected(constraints, l.All(), contains) && name in constraints && constraints[name].Exact?
    ensures name in l.runtime.pins ==>
      forall i :: 0 <= i < 4 ==> name in l.All()[i].pins && l.All()[i].pins[name] == constraints[name].version
    ensures name in l.research.pins <==> name in l.container.pins
    ensures exists i :: 0 <= i < 3 && name in l.All()[i].pins && l.All()[i].pins[name] == constraints[name].version
  {
    assert Respected(constraints[name], l.All(), name, contains);
    var i :| 0 <= i < 4 && name in l.All()[i].pins;
    var k := if i == 3 then 2 else i;
    assert name in l.All()[k].pins;
    if name in l.runtime.pins {
      forall j | 0 <= j < 4 ensures name in l.All()[j].pins && l.All()[j].pins[name] == constraints[name].version {
        assert Contained(l.runtime, l.All()[j]);
      }
    }
  }

  /** The lock comparisons of collect_dependency_contract_errors, in order: they
      are silent exactly if the four locks are consistent and every security and
      compatibility constraint is respected in each lock that has its name. */
  method CompareLocks(l: Locks, security: map<string, Constraint>, compatibility: map<string, Constraint>,
                      contains: (string, string) -> bool, errors: seq<Problem>)
    returns (r: seq<Problem>)
    ensures errors <= r
    ensures r == errors <==>
      Consistent(l) && AllRespected(security, l.All(), contains) && AllRespected(compatibility, l.All(), contains)
  {
    hide Consistent, AllRespected, ContainerFine, Contained, Agree;
    r := ValidateSharedPins(l.runtime, l.dev, true, errors);
    r := ValidateSharedPins(l.runtime, l.research, true, r);
    r := ValidateSharedPins(l.dev, l.research, false, r);
    r := ValidateContainerLock(l.research, l.container, r);
    r := ValidateConstraints(security, l.All(), contains, r);
    r := ValidateConstraints(compatibility, l.All(), contains, r);
    FourComparisonsSuffice(l);
  }
}
