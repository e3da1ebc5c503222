/** The link resolver of scripts/check_container_image.py against small-step
    pathname resolution (IEEE Std 1003.1-2017, XBD section 4.13). */
module ImageLinks {
  import opened Wrappers
  import opened ImagePaths
  import opened ImageOverlay

  const DYNAMIC_RUNTIME_ROOTS: set<string> := {
    "app/config", "app/db", "app/logs", "app/outputs",
    "dev", "proc", "run", "sys", "tmp"
  }

  predicate IsDynamic(path: string) {
    exists root | root in DYNAMIC_RUNTIME_ROOTS :: IsBeneath(path, root)
  }

  predicate IsLink(m: Entries, path: string) {
    path in m && (m[path].kind == Symlink || m[path].kind == Hardlink)
  }

  function LinkKeys(m: Entries): set<string> {
    set p | p in m && IsLink(m, p)
  }

  // ----- The resolver -----

  datatype Resolution = Found(at: seq<string>) | Dynamic | Cycle

  /** The loop of _resolve_runtime_path as a function of its three variables. */
  function Resolve(m: Entries, pending: seq<string>, resolved: seq<string>, visited: set<string>): Resolution
    decreases |LinkKeys(m) - visited|, |pending|
  {
    if pending == [] then Found(resolved)
    else
      var c, rest := pending[0], pending[1..];
      if c == "." then Resolve(m, rest, resolved, visited)
      else if c == ".." then Resolve(m, rest, Pop(resolved), visited)
      else
        var candidate := Join(resolved + [c]);
        if IsDynamic(candidate) then Dynamic
        else if !IsLink(m, candidate) then Resolve(m, rest, resolved + [c], visited)
        else if candidate in visited then Cycle
        else
          VisitingShrinks(m, candidate, visited);
          Resolve(m, Parts(m[candidate].linkTarget) + rest, [], visited + {candidate})
  }

  function Pop(resolved: seq<string>): seq<string> {
    if resolved == [] then [] else resolved[..|resolved| - 1]
  }

  lemma VisitingShrinks(m: Entries, candidate: string, visited: set<string>)
    requires IsLink(m, candidate) && candidate !in visited
    ensures |LinkKeys(m) - (visited + {candidate})| < |LinkKeys(m) - visited|
  {
    var after, before := LinkKeys(m) - (visited + {candidate}), LinkKeys(m) - visited;
    assert candidate in before;
    assert after + {candidate} == before;
  }

  datatype LinkError = IntoDynamicRoot | LinkCycle

  function ResolvedEntry(m: Entries, r: Resolution): Result<Option<FileEntry>, LinkError> {
    match r
    case Found(at) => Success(Get(m, Join(at)))
    case Dynamic => Failure(IntoDynamicRoot)
    case Cycle => Failure(LinkCycle)
  }

  /** _resolve_runtime_path: the loop ends on every table and path, because
      each round uses up a pending component or visits a new link. */
  method ResolveRuntimePath(path: string, m: Entries) returns (r: Result<Option<FileEntry>, LinkError>)
    ensures r == ResolvedEntry(m, Resolve(m, Parts(path), [], {}))
  {
    var pending, resolved: seq<string>, visited: set<string> := Parts(path), [], {};
    while pending != []
      invariant Resolve(m, pending, resolved, visited) == Resolve(m, Parts(path), [], {})
      decreases |LinkKeys(m) - visited|, |pending|
    {
      var c := pending[0];
      pending := pending[1..];
      if c == "." {
        continue;
      }
      if c == ".." {
        resolved := Pop(resolved);
        continue;
      }
      var candidate := Join(resolved + [c]);
      if IsDynamic(candidate) {
        return Failure(IntoDynamicRoot);
      }
      if !IsLink(m, candidate) {
        resolved := resolved + [c];
        continue;
      }
      if candidate in visited {
        return Failure(LinkCycle);
      }
      VisitingShrinks(m, candidate, visited);
      visited := visited + {candidate};
      pending := Parts(m[candidate].linkTarget) + pending;
      resolved := [];
    }
    return Success(Get(m, Join(resolved)));
  }

  // ----- Reference resolution: one component at a time, no memory of links -----

  datatype Walk = Walking(pending: seq<string>, resolved: seq<string>) | Arrived(at: seq<string>) | Escaped

  function Step(m: Entries, w: Walk): Walk {
    match w
    case Arrived(_) => w
    case Escaped => w
    case Walking(pending, resolved) =>
      if pending == [] then Arrived(resolved)
      else
        var c, rest := pending[0], pending[1..];
        if c == "." then Walking(rest, resolved)
        else if c == ".." then Walking(rest, Pop(resolved))
        else
          var candidate := Join(resolved + [c]);
          if IsDynamic(candidate) then Escaped
          else if !IsLink(m, candidate) then Walking(rest, resolved + [c])
          else Walking(Parts(m[candidate].linkTarget) + rest, [])
  }

  function Run(m: Entries, w: Walk, n: nat): Walk
    decreases n
  {
    if n == 0 then w else Run(m, Step(m, w), n - 1)
  }

  function Start(path: string): Walk {
    Walking(Parts(path), [])
  }

  ghost predicate Diverges(m: Entries, w: Walk) {
    forall n: nat :: Run(m, w, n).Walking?
  }

  /** w is about to expand link c, with rest still to walk afterwards. */
  predicate AtLink(m: Entries, w: Walk, c: string, rest: seq<string>) {
    && w.Walking? && w.pending != [] && w.pending[0] != "." && w.pending[0] != ".."
    && Join(w.resolved + [w.pending[0]]) == c && !IsDynamic(c) && IsLink(m, c)
    && rest == w.pending[1..]
  }

  ghost predicate Expands(m: Entries, w: Walk, n: nat, c: string) {
    var at := Run(m, w, n);
    at.Walking? && at.pending != [] && AtLink(m, at, c, at.pending[1..])
  }

  /** The reference walk expands one link at two different steps. */
  ghost predicate Repeats(m: Entries, w: Walk) {
    exists i: nat, j: nat, c: string :: i < j && Expands(m, w, i, c) && Expands(m, w, j, c)
  }

  lemma {:induction false} RunSplit(m: Entries, w: Walk, i: nat, j: nat)
    ensures Run(m, w, i + j) == Run(m, Run(m, w, i), j)
    decreases i
  {
    if i > 0 {
      RunSplit(m, Step(m, w), i - 1, j);
    }
  }

  lemma {:induction false} Halted(m: Entries, w: Walk, n: nat)
    requires !w.Walking?
    ensures Run(m, w, n) == w
    decreases n
  {
    if n > 0 {
      Halted(m, w, n - 1);
    }
  }

  /** A walk has one outcome. */
  lemma OneOutcome(m: Entries, w: Walk, i: nat, j: nat)
    requires !Run(m, w, i).Walking? && !Run(m, w, j).Walking?
    ensures Run(m, w, i) == Run(m, w, j)
  {
    var n := if i > j then i else j;
    RunSplit(m, w, i, n - i);
    RunSplit(m, w, j, n - j);
    Halted(m, Run(m, w, i), n - i);
    Halted(m, Run(m, w, j), n - j);
  }

  lemma ExpandsLater(m: Entries, w: Walk, n: nat, c: string)
    ensures Expands(m, w, n + 1, c) == Expands(m, Step(m, w), n, c)
  {
  }

  /** What each outcome of the resolver says about the reference walk, seen
      from any point of the loop. */
  ghost predicate Explains(m: Entries, w: Walk, visited: set<string>, r: Resolution, n: nat) {
    match r
    case Found(at) => Run(m, w, n) == Arrived(at) && FreshUpTo(m, w, visited)
    case Dynamic => Run(m, w, n) == Escaped && FreshUpTo(m, w, visited)
    case Cycle => RepeatSeen(m, w, visited, n)
  }

  lemma {:induction false} ResolveMeans(m: Entries, pending: seq<string>, resolved: seq<string>, visited: set<string>)
    returns (n: nat)
    ensures Explains(m, Walking(pending, resolved), visited, Resolve(m, pending, resolved, visited), n)
    decreases |LinkKeys(m) - visited|, |pending|
  {
    var w := Walking(pending, resolved);
    if pending == [] {
      n := HaltsAtOnce(m, w, visited);
      return;
    }
    var c, rest := pending[0], pending[1..];
    if c == "." {
      n := ResolveMeans(m, rest, resolved, visited);
      Prepend(m, w, visited, n);
      n := n + 1;
    } else if c == ".." {
      n := ResolveMeans(m, rest, Pop(resolved), visited);
      Prepend(m, w, visited, n);
      n := n + 1;
    } else {
      var candidate := Join(resolved + [c]);
      if IsDynamic(candidate) {
        n := HaltsAtOnce(m, w, visited);
      } else if !IsLink(m, candidate) {
        n := ResolveMeans(m, rest, resolved + [c], visited);
        Prepend(m, w, visited, n);
        n := n + 1;
      } else if candidate in visited {
        n := 0;
        assert Expands(m, w, 0, candidate);
      } else {
        VisitingShrinks(m, candidate, visited);
        n := ResolveMeans(m, Parts(m[candidate].linkTarget) + rest, [], visited + {candidate});
        PrependLink(m, w, visited, candidate, n);
        n := n + 1;
      }
    }
  }

  lemma HaltsAtOnce(m: Entries, w: Walk, visited: set<string>) returns (n: nat)
    requires w.Walking? && !Step(m, w).Walking?
    ensures Run(m, w, n) == Step(m, w) && FreshUpTo(m, w, visited)
  {
    n := 1;
    assert Run(m, w, 1) == Run(m, Step(m, w), 0);
    forall k: nat, c | Expands(m, w, k, c) ensures false {
      if k > 0 {
        Halted(m, Step(m, w), k - 1);
      }
    }
  }

  /** Every expansion of w's walk is of a link outside visited, and no link is
      expanded twice. */
  ghost predicate FreshUpTo(m: Entries, w: Walk, visited: set<string>) {
    && (forall k: nat, c: string :: Expands(m, w, k, c) ==> c !in visited)
    && !Repeats(m, w)
  }

  ghost predicate RepeatSeen(m: Entries, w: Walk, visited: set<string>, n: nat) {
    exists c :: Expands(m, w, n, c) && (c in visited || exists i: nat :: i < n && Expands(m, w, i, c))
  }

  /** A step that expands nothing changes neither verdict. */
  lemma Prepend(m: Entries, w: Walk, visited: set<string>, n: nat)
    requires w.Walking? && forall c :: !Expands(m, w, 0, c)
    ensures Run(m, w, n + 1) == Run(m, Step(m, w), n)
    ensures FreshUpTo(m, Step(m, w), visited) ==> FreshUpTo(m, w, visited)
    ensures RepeatSeen(m, Step(m, w), visited, n) ==> RepeatSeen(m, w, visited, n + 1)
  {
    forall k: nat, c | Expands(m, w, k, c) ensures k > 0 && Expands(m, Step(m, w), k - 1, c) {
      ExpandsLater(m, w, k - 1, c);
    }
    if RepeatSeen(m, Step(m, w), visited, n) {
      var c :| Expands(m, Step(m, w), n, c) && (c in visited || exists i: nat :: i < n && Expands(m, Step(m, w), i, c));
      ExpandsLater(m, w, n, c);
      if i: nat :| i < n && Expands(m, Step(m, w), i, c) {
        ExpandsLater(m, w, i, c);
      }
    }
    if FreshUpTo(m, Step(m, w), visited) && Repeats(m, w) {
      var i: nat, j: nat, c :| i < j && Expands(m, w, i, c) && Expands(m, w, j, c);
      assert Expands(m, Step(m, w), i - 1, c) && Expands(m, Step(m, w), j - 1, c);
      assert Repeats(m, Step(m, w));
    }
  }

  lemma PrependLink(m: Entries, w: Walk, visited: set<string>, link: string, n: nat)
    requires Expands(m, w, 0, link) && link !in visited
    ensures Run(m, w, n + 1) == Run(m, Step(m, w), n)
    ensures FreshUpTo(m, Step(m, w), visited + {link}) ==> FreshUpTo(m, w, visited)
    ensures RepeatSeen(m, Step(m, w), visited + {link}, n) ==> RepeatSeen(m, w, visited, n + 1)
  {
    forall k: nat, c | Expands(m, w, k, c) ensures (k == 0 && c == link) || (k > 0 && Expands(m, Step(m, w), k - 1, c)) {
      if k > 0 {
        ExpandsLater(m, w, k - 1, c);
      }
    }
    if RepeatSeen(m, Step(m, w), visited + {link}, n) {
      var c :| Expands(m, Step(m, w), n, c) && (c in visited + {link} || exists i: nat :: i < n && Expands(m, Step(m, w), i, c));
      ExpandsLater(m, w, n, c);
      if i: nat :| i < n && Expands(m, Step(m, w), i, c) {
        ExpandsLater(m, w, i, c);
      }
    }
    if FreshUpTo(m, Step(m, w), visited + {link}) && Repeats(m, w) {
      var i: nat, j: nat, c :| i < j && Expands(m, w, i, c) && Expands(m, w, j, c);
      assert Expands(m, Step(m, w), j - 1, c);
      if i > 0 {
        assert Expands(m, Step(m, w), i - 1, c);
        assert Repeats(m, Step(m, w));
      }
    }
  }

  ghost predicate Ends(m: Entries, w: Walk, end: Walk) {
    !end.Walking? && exists n: nat :: Run(m, w, n) == end
  }

  /** The resolver decides the reference walk of a path: it arrives where the
      walk arrives and reports a dynamic root where the walk enters one,
      unless the walk expands some link twice; then, and only then, it
      reports a cycle. */
  lemma ResolverDecides(m: Entries, path: string)
    ensures var r, w := Resolve(m, Parts(path), [], {}), Start(path);
      && (r == Cycle <==> Repeats(m, w))
      && (forall at :: r == Found(at) <==> !Repeats(m, w) && Ends(m, w, Arrived(at)))
      && (r == Dynamic <==> !Repeats(m, w) && Ends(m, w, Escaped))
  {
    var r, w := Resolve(m, Parts(path), [], {}), Start(path);
    var n := ResolveMeans(m, Parts(path), [], {});
    if r != Cycle {
      assert Ends(m, w, Run(m, w, n));
      forall end | Ends(m, w, end) ensures end == Run(m, w, n) {
        var k: nat :| Run(m, w, k) == end;
        OneOutcome(m, w, k, n);
      }
    }
  }

  /** A walk that never ends is reported as a cycle. */
  lemma DivergenceIsReported(m: Entries, path: string)
    requires Diverges(m, Start(path))
    ensures Resolve(m, Parts(path), [], {}) == Cycle
  {
    var n := ResolveMeans(m, Parts(path), [], {});
    assert Run(m, Start(path), n).Walking?;
  }

  // ----- What a resolved path looks like -----

  /** Plain components, none of whose prefixes is a link or dynamic. */
  ghost predicate Settled(m: Entries, resolved: seq<string>) {
    && AllPlain(resolved)
    && forall k :: 0 < k <= |resolved| ==> !IsLink(m, Join(resolved[..k])) && !IsDynamic(Join(resolved[..k]))
  }

  ghost predicate PiecesOk(pending: seq<string>) {
    forall i :: 0 <= i < |pending| ==> pending[i] != "" && '/' !in pending[i]
  }

  lemma PartsArePieces(path: string)
    ensures PiecesOk(Parts(path))
  {
    var parts := NonEmpty(Split(path));
    forall i | 0 <= i < |parts| ensures parts[i] != "" && '/' !in parts[i] {
      assert parts[i] in parts;
    }
  }

  lemma SettledSnoc(m: Entries, resolved: seq<string>, c: string)
    requires Settled(m, resolved) && Plain(c)
    requires !IsLink(m, Join(resolved + [c])) && !IsDynamic(Join(resolved + [c]))
    ensures Settled(m, resolved + [c])
  {
    forall k | 0 < k <= |resolved| + 1
      ensures !IsLink(m, Join((resolved + [c])[..k])) && !IsDynamic(Join((resolved + [c])[..k]))
    {
      if k <= |resolved| {
        assert (resolved + [c])[..k] == resolved[..k];
      } else {
        assert (resolved + [c])[..k] == resolved + [c];
      }
    }
  }

  lemma SettledPop(m: Entries, resolved: seq<string>)
    requires Settled(m, resolved)
    ensures Settled(m, Pop(resolved))
  {
    if resolved != [] {
      var popped := Pop(resolved);
      forall k | 0 < k <= |popped| ensures popped[..k] == resolved[..k] {
      }
    }
  }

  /** Every state of the walk keeps the resolved part free of links and of
      dynamic roots. */
  lemma StepKeepsSettled(m: Entries, w: Walk)
    requires w.Walking? && PiecesOk(w.pending) && Settled(m, w.resolved)
    ensures var next := Step(m, w);
      match next
      case Walking(pending, resolved) => PiecesOk(pending) && Settled(m, resolved)
      case Arrived(at) => Settled(m, at)
      case Escaped => true
  {
    if w.pending != [] {
      var c, rest := w.pending[0], w.pending[1..];
      if c == ".." {
        SettledPop(m, w.resolved);
      } else if c != "." {
        var candidate := Join(w.resolved + [c]);
        if !IsDynamic(candidate) {
          if IsLink(m, candidate) {
            PartsArePieces(m[candidate].linkTarget);
          } else {
            SettledSnoc(m, w.resolved, c);
          }
        }
      }
    }
  }

  lemma {:induction false} RunKeepsSettled(m: Entries, w: Walk, n: nat)
    requires w.Walking? && PiecesOk(w.pending) && Settled(m, w.resolved)
    ensures var next := Run(m, w, n);
      match next
      case Walking(pending, resolved) => PiecesOk(pending) && Settled(m, resolved)
      case Arrived(at) => Settled(m, at)
      case Escaped => true
    decreases n
  {
    if n > 0 {
      StepKeepsSettled(m, w);
      if Step(m, w).Walking? {
        RunKeepsSettled(m, Step(m, w), n - 1);
      } else {
        Halted(m, Step(m, w), n - 1);
      }
    }
  }

  /** A path the resolver accepts leads to a place with no link and no dynamic
      root on the way, so resolving that place again leads nowhere else. */
  lemma FoundIsSettled(m: Entries, path: string)
    requires Resolve(m, Parts(path), [], {}).Found?
    ensures Settled(m, Resolve(m, Parts(path), [], {}).at)
  {
    var n := ResolveMeans(m, Parts(path), [], {});
    PartsArePieces(path);
    RunKeepsSettled(m, Start(path), n);
  }

  lemma {:induction false} RewalkSettled(m: Entries, at: seq<string>, k: nat, rest: seq<string>)
    requires Settled(m, at) && k <= |at|
    ensures Run(m, Walking(at[k..] + rest, at[..k]), |at| - k) == Walking(rest, at)
    decreases |at| - k
  {
    if k == |at| {
      assert at[k..] + rest == rest && at[..k] == at;
    } else {
      var w := Walking(at[k..] + rest, at[..k]);
      assert at[..k] + [at[k]] == at[..k + 1];
      assert w.pending[0] == at[k] && w.pending[1..] == at[k + 1..] + rest;
      assert Step(m, w) == Walking(at[k + 1..] + rest, at[..k + 1]);
      RewalkSettled(m, at, k + 1, rest);
    }
  }

  // ----- Relative targets: the code restarts from the root, POSIX does not -----

  /** One step of resolution on the targets as the archive gives them: a
      relative symlink continues from the directory that holds it. */
  function PosixStep(m: Entries, raw: map<string, string>, w: Walk): Walk
    requires LinkKeys(m) <= raw.Keys
  {
    match w
    case Arrived(_) => w
    case Escaped => w
    case Walking(pending, resolved) =>
      if pending == [] then Arrived(resolved)
      else
        var c, rest := pending[0], pending[1..];
        if c == "." then Walking(rest, resolved)
        else if c == ".." then Walking(rest, Pop(resolved))
        else
          var candidate := Join(resolved + [c]);
          if IsDynamic(candidate) then Escaped
          else if !IsLink(m, candidate) then Walking(rest, resolved + [c])
          else
            var target := raw[candidate];
            var fromRoot := m[candidate].kind == Hardlink || (target != "" && target[0] == '/');
            Walking(Parts(target) + rest, if fromRoot then [] else resolved)
  }

  function PosixRun(m: Entries, raw: map<string, string>, w: Walk, n: nat): Walk
    requires LinkKeys(m) <= raw.Keys
    decreases n
  {
    if n == 0 then w else PosixRun(m, raw, PosixStep(m, raw, w), n - 1)
  }

  /** The table holds the normalized form of each link's archived target. */
  ghost predicate TargetsFrom(m: Entries, raw: map<string, string>) {
    && LinkKeys(m) <= raw.Keys
    && forall p :: IsLink(m, p) ==>
         NormalizedLinkTarget(p, raw[p], m[p].kind == Hardlink) == Success(m[p].linkTarget)
  }

  lemma ParentOf(resolved: seq<string>, c: string)
    requires AllPlain(resolved) && Plain(c)
    ensures ParentParts(Join(resolved + [c])) == resolved
    ensures Parts(ParentText(Join(resolved + [c]))) == if resolved == [] then ["."] else resolved
  {
    SplitJoin(resolved + [c]);
    if resolved == [] {
      SplitPiece(".");
      assert NonEmpty(["."]) == ["."];
    } else {
      PartsOfJoin(resolved);
    }
  }

  lemma SlashParts(text: string)
    ensures Parts("/" + text) == Parts(text)
  {
    PartsOfJoin([]);
    PartsConcat("", text);
    assert "" + "/" + text == "/" + text;
  }

  lemma NormalizedTargetParts(resolved: seq<string>, c: string, target: string, hardlink: bool)
    requires AllPlain(resolved) && Plain(c)
    requires NormalizedLinkTarget(Join(resolved + [c]), target, hardlink).Success?
    ensures var parts := Parts(NormalizedLinkTarget(Join(resolved + [c]), target, hardlink).value);
      parts == if hardlink || target[0] == '/' then Parts(target)
               else (if resolved == [] then ["."] else resolved) + Parts(target)
  {
    var path := Join(resolved + [c]);
    ParentOf(resolved, c);
    var parent := ParentText(path);
    hide Parts, Split, Join, ParentText, AllPlain, Plain, LStripSlash;
    var candidate :=
      if target[0] == '/' then target
      else if hardlink then "/" + target
      else "/" + parent + "/" + target;
    PartsLStrip(candidate);
    SlashParts(LStripSlash(candidate));
    if target[0] != '/' {
      if hardlink {
        SlashParts(target);
      } else {
        PartsConcat("/" + parent, target);
        SlashParts(parent);
        assert ("/" + parent) + "/" + target == candidate;
      }
    }
  }

  /** After a relative link the walker first repeats the way to its directory. */
  lemma RelativeRewalk(m: Entries, w: Walk, next: seq<string>) returns (k: nat)
    requires w.Walking? && Settled(m, w.resolved)
    requires Step(m, w) == Walking((if w.resolved == [] then ["."] else w.resolved) + next, [])
    ensures k >= 1 && Run(m, w, k) == Walking(next, w.resolved)
  {
    hide Join, Parts, IsDynamic, IsLink;
    if w.resolved == [] {
      k := 2;
      var again := Walking(["."] + next, []);
      assert (["."] + next)[1..] == next;
      assert Step(m, again) == Walking(next, []);
      hide Step;
      assert Run(m, w, 2) == Run(m, Step(m, w), 1) == Run(m, Step(m, again), 0);
    } else {
      hide Step;
      RewalkSettled(m, w.resolved, 0, next);
      assert w.resolved[0..] == w.resolved && w.resolved[..0] == [];
      k := |w.resolved| + 1;
    }
  }

  lemma OneStep(m: Entries, w: Walk)
    ensures Run(m, w, 1) == Step(m, w)
  {
    hide Step;
    assert Run(m, w, 1) == Run(m, Step(m, w), 0);
  }

  /** One POSIX step is one or more steps of the code's walk. */
  lemma PosixStepSimulated(m: Entries, raw: map<string, string>, w: Walk) returns (k: nat)
    requires TargetsFrom(m, raw)
    requires w.Walking? && PiecesOk(w.pending) && Settled(m, w.resolved)
    ensures k >= 1 && Run(m, w, k) == PosixStep(m, raw, w)
  {
    hide Join, Parts, IsDynamic, Run;
    k := 1;
    assert Run(m, w, 1) == Step(m, w) by { OneStep(m, w); }
    if w.pending != [] && w.pending[0] != "." && w.pending[0] != ".." {
      var c, rest := w.pending[0], w.pending[1..];
      var candidate := Join(w.resolved + [c]);
      if !IsDynamic(candidate) && IsLink(m, candidate) {
        var target, hardlink := raw[candidate], m[candidate].kind == Hardlink;
        NormalizedTargetParts(w.resolved, c, target, hardlink);
        if !(hardlink || target[0] == '/') {
          var next := Parts(target) + rest;
          var lead := if w.resolved == [] then ["."] else w.resolved;
          assert Step(m, w) == Walking(lead + next, []) by {
            assert lead + Parts(target) + rest == lead + next;
          }
          k := RelativeRewalk(m, w, next);
        }
      }
    }
  }

  lemma {:induction false} PosixRunSimulated(m: Entries, raw: map<string, string>, w: Walk, n: nat) returns (k: nat)
    requires TargetsFrom(m, raw)
    requires w.Walking? && PiecesOk(w.pending) && Settled(m, w.resolved)
    ensures k >= n && Run(m, w, k) == PosixRun(m, raw, w, n)
    decreases n
  {
    if n == 0 {
      k := 0;
    } else {
      var k1 := PosixStepSimulated(m, raw, w);
      var next := PosixStep(m, raw, w);
      RunKeepsSettled(m, w, k1);
      if next.Walking? {
        var k2 := PosixRunSimulated(m, raw, next, n - 1);
        RunSplit(m, w, k1, k2);
        k := k1 + k2;
      } else {
        k := k1 + n;
        RunSplit(m, w, k1, n);
        Halted(m, next, n);
        PosixHalted(m, raw, next, n - 1);
      }
    }
  }

  lemma {:induction false} PosixHalted(m: Entries, raw: map<string, string>, w: Walk, n: nat)
    requires LinkKeys(m) <= raw.Keys && !w.Walking?
    ensures PosixRun(m, raw, w, n) == w
    decreases n
  {
    if n > 0 {
      PosixHalted(m, raw, w, n - 1);
    }
  }

  ghost predicate PosixEnds(m: Entries, raw: map<string, string>, w: Walk, end: Walk)
    requires LinkKeys(m) <= raw.Keys
  {
    !end.Walking? && exists n: nat :: PosixRun(m, raw, w, n) == end
  }

  lemma PosixEndIsEnd(m: Entries, raw: map<string, string>, path: string, end: Walk)
    requires TargetsFrom(m, raw) && PosixEnds(m, raw, Start(path), end)
    ensures Ends(m, Start(path), end)
  {
    PartsArePieces(path);
    var n: nat :| PosixRun(m, raw, Start(path), n) == end;
    var k := PosixRunSimulated(m, raw, Start(path), n);
  }

  lemma EndIsPosixEnd(m: Entries, raw: map<string, string>, path: string, end: Walk)
    requires TargetsFrom(m, raw) && Ends(m, Start(path), end)
    ensures PosixEnds(m, raw, Start(path), end)
  {
    PartsArePieces(path);
    var n: nat :| Run(m, Start(path), n) == end;
    var k := PosixRunSimulated(m, raw, Start(path), n);
    RunSplit(m, Start(path), n, k - n);
    Halted(m, end, k - n);
    assert PosixRun(m, raw, Start(path), n) == end;
  }

  ghost predicate PosixDiverges(m: Entries, raw: map<string, string>, w: Walk)
    requires LinkKeys(m) <= raw.Keys
  {
    forall n: nat :: PosixRun(m, raw, w, n).Walking?
  }

  /** Absolute normalized targets lose nothing: from every path, the walk of
      the code and POSIX resolution of the archived targets arrive at the same
      place or enter a dynamic root together, and one runs forever exactly when
      the other does. */
  lemma NormalizedWalkIsPosix(m: Entries, raw: map<string, string>, path: string)
    requires TargetsFrom(m, raw)
    ensures forall end: Walk :: PosixEnds(m, raw, Start(path), end) <==> Ends(m, Start(path), end)
    ensures PosixDiverges(m, raw, Start(path)) <==> Diverges(m, Start(path))
  {
    var w := Start(path);
    forall end: Walk ensures PosixEnds(m, raw, w, end) <==> Ends(m, w, end) {
      if PosixEnds(m, raw, w, end) {
        PosixEndIsEnd(m, raw, path, end);
      } else if Ends(m, w, end) {
        EndIsPosixEnd(m, raw, path, end);
      }
    }
    if !PosixDiverges(m, raw, w) {
      var n: nat :| !PosixRun(m, raw, w, n).Walking?;
      assert PosixEnds(m, raw, w, PosixRun(m, raw, w, n));
      var k: nat :| Run(m, w, k) == PosixRun(m, raw, w, n);
      assert !Run(m, w, k).Walking?;
    }
    if !Diverges(m, w) {
      var n: nat :| !Run(m, w, n).Walking?;
      assert Ends(m, w, Run(m, w, n));
      var k: nat :| PosixRun(m, raw, w, k) == Run(m, w, n);
      assert !PosixRun(m, raw, w, k).Walking?;
    }
  }
}
