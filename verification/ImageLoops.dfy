/** When the resolver's "link cycle" is a real loop.

    The code remembers every link it has expanded. A link met again inside its
    own expansion makes resolution run forever; a link met again afterwards
    does not. Evaluate keeps only the links whose expansion is still open.
 */
module ImageLoops {
  import opened Wrappers
  import opened ImagePaths
  import opened ImageOverlay
  import opened ImageLinks

  datatype Verdict = Ended(at: seq<string>) | Out | Loops

  function Evaluate(m: Entries, pending: seq<string>, resolved: seq<string>, open: set<string>): Verdict
    decreases |LinkKeys(m) - open|, |pending|
  {
    if pending == [] then Ended(resolved)
    else
      var c, rest := pending[0], pending[1..];
      if c == "." then Evaluate(m, rest, resolved, open)
      else if c == ".." then Evaluate(m, rest, Pop(resolved), open)
      else
        var candidate := Join(resolved + [c]);
        if IsDynamic(candidate) then Out
        else if !IsLink(m, candidate) then Evaluate(m, rest, resolved + [c], open)
        else if candidate in open then Loops
        else
          VisitingShrinks(m, candidate, open);
          match Evaluate(m, Parts(m[candidate].linkTarget), [], open + {candidate})
          case Ended(at) => Evaluate(m, rest, at, open)
          case Out => Out
          case Loops => Loops
  }

  /** The walk consumes p from r in n steps and ends at `at`, whatever follows. */
  ghost predicate Passes(m: Entries, p: seq<string>, r: seq<string>, n: nat, at: seq<string>) {
    forall y: seq<string> :: Run(m, Walking(p + y, r), n) == Walking(y, at)
  }

  ghost predicate LeavesAfter(m: Entries, p: seq<string>, r: seq<string>, n: nat) {
    forall y: seq<string> :: Run(m, Walking(p + y, r), n) == Escaped
  }

  /** The walk of p from r comes to link c after n steps, having consumed
      nothing of what follows p. */
  ghost predicate LeadsTo(m: Entries, p: seq<string>, r: seq<string>, c: string, n: nat, x: seq<string>) {
    forall y: seq<string> :: AtLink(m, Run(m, Walking(p + y, r), n), c, x + y)
  }

  /** Expanding c leads back to c before its expansion is used up. */
  ghost predicate SelfLoop(m: Entries, c: string) {
    && IsLink(m, c)
    && exists n: nat, x :: LeadsTo(m, Parts(m[c].linkTarget), [], c, n, x)
  }

  ghost predicate StepsTo(m: Entries, p: seq<string>, r: seq<string>, p': seq<string>, r': seq<string>) {
    forall y: seq<string> :: Step(m, Walking(p + y, r)) == Walking(p' + y, r')
  }

  lemma FirstStep(m: Entries, pending: seq<string>, resolved: seq<string>)
    requires pending != []
    ensures var c, rest := pending[0], pending[1..];
      if c == "." then StepsTo(m, pending, resolved, rest, resolved)
      else if c == ".." then StepsTo(m, pending, resolved, rest, Pop(resolved))
      else
        var candidate := Join(resolved + [c]);
        if IsDynamic(candidate) then LeavesAfter(m, pending, resolved, 1)
        else if !IsLink(m, candidate) then StepsTo(m, pending, resolved, rest, resolved + [c])
        else StepsTo(m, pending, resolved, Parts(m[candidate].linkTarget) + rest, [])
             && LeadsTo(m, pending, resolved, candidate, 0, rest)
  {
    var c, rest := pending[0], pending[1..];
    forall y: seq<string>
      ensures (pending + y)[0] == c && (pending + y)[1..] == rest + y
      ensures Run(m, Walking(pending + y, resolved), 1) == Step(m, Walking(pending + y, resolved))
    {
      assert Run(m, Walking(pending + y, resolved), 1) == Run(m, Step(m, Walking(pending + y, resolved)), 0);
    }
    if c != "." && c != ".." && IsLink(m, Join(resolved + [c])) {
      var target := Parts(m[Join(resolved + [c])].linkTarget);
      forall y: seq<string> ensures target + (rest + y) == (target + rest) + y {
      }
    }
  }

  lemma PassAfterStep(m: Entries, p: seq<string>, r: seq<string>, p': seq<string>, r': seq<string>, n: nat)
    requires StepsTo(m, p, r, p', r')
    ensures forall at :: Passes(m, p', r', n, at) ==> Passes(m, p, r, n + 1, at)
    ensures LeavesAfter(m, p', r', n) ==> LeavesAfter(m, p, r, n + 1)
    ensures forall c, x :: LeadsTo(m, p', r', c, n, x) ==> LeadsTo(m, p, r, c, n + 1, x)
  {
    forall y: seq<string>
      ensures Run(m, Walking(p + y, r), n + 1) == Run(m, Walking(p' + y, r'), n)
    {
      assert Step(m, Walking(p + y, r)) == Walking(p' + y, r');
    }
  }

  lemma PassInSequence(m: Entries, p: seq<string>, r: seq<string>, n: nat, at: seq<string>, q: seq<string>, k: nat)
    requires Passes(m, p, r, n, at)
    ensures forall end :: Passes(m, q, at, k, end) ==> Passes(m, p + q, r, n + k, end)
    ensures LeavesAfter(m, q, at, k) ==> LeavesAfter(m, p + q, r, n + k)
    ensures forall c, x :: LeadsTo(m, q, at, c, k, x) ==> LeadsTo(m, p + q, r, c, n + k, x)
  {
    forall y: seq<string>
      ensures Run(m, Walking((p + q) + y, r), n + k) == Run(m, Walking(q + y, at), k)
    {
      assert (p + q) + y == p + (q + y);
      assert Run(m, Walking(p + (q + y), r), n) == Walking(q + y, at);
      RunSplit(m, Walking(p + (q + y), r), n, k);
    }
  }

  lemma InsidePass(m: Entries, p: seq<string>, r: seq<string>, n: nat, q: seq<string>)
    ensures LeavesAfter(m, p, r, n) ==> LeavesAfter(m, p + q, r, n)
    ensures forall c, x :: LeadsTo(m, p, r, c, n, x) ==> LeadsTo(m, p + q, r, c, n, x + q)
  {
    forall y: seq<string>
      ensures (p + q) + y == p + (q + y)
    {
    }
    forall c, x | LeadsTo(m, p, r, c, n, x) ensures LeadsTo(m, p + q, r, c, n, x + q) {
      forall y: seq<string> ensures AtLink(m, Run(m, Walking((p + q) + y, r), n), c, (x + q) + y) {
        assert (p + q) + y == p + (q + y);
        assert (x + q) + y == x + (q + y);
        assert AtLink(m, Run(m, Walking(p + (q + y), r), n), c, x + (q + y));
      }
    }
    if LeavesAfter(m, p, r, n) {
      forall y: seq<string> ensures Run(m, Walking((p + q) + y, r), n) == Escaped {
        assert (p + q) + y == p + (q + y);
        assert Run(m, Walking(p + (q + y), r), n) == Escaped;
      }
    }
  }

  lemma NothingPasses(m: Entries, r: seq<string>)
    ensures Passes(m, [], r, 0, r)
  {
    assert forall y: seq<string> :: [] + y == y;
  }

  ghost predicate Stretch(m: Entries, p: seq<string>, r: seq<string>, v: Verdict, n: nat) {
    match v
    case Ended(at) => Passes(m, p, r, n, at)
    case Out => LeavesAfter(m, p, r, n)
    case Loops => true
  }

  /** An evaluation that ends is a stretch of the walk. */
  lemma {:induction false} EvaluateEnds(m: Entries, pending: seq<string>, resolved: seq<string>, open: set<string>) returns (n: nat)
    ensures Stretch(m, pending, resolved, Evaluate(m, pending, resolved, open), n)
    decreases |LinkKeys(m) - open|, |pending|
  {
    hide Passes, LeavesAfter, LeadsTo, StepsTo, Join, Parts, IsDynamic;
    if pending == [] {
      n := 0;
      NothingPasses(m, resolved);
      return;
    }
    FirstStep(m, pending, resolved);
    var c, rest := pending[0], pending[1..];
    if c == "." {
      n := EvaluateEnds(m, rest, resolved, open);
      PassAfterStep(m, pending, resolved, rest, resolved, n);
      n := n + 1;
    } else if c == ".." {
      n := EvaluateEnds(m, rest, Pop(resolved), open);
      PassAfterStep(m, pending, resolved, rest, Pop(resolved), n);
      n := n + 1;
    } else if IsDynamic(Join(resolved + [c])) {
      n := 1;
    } else if !IsLink(m, Join(resolved + [c])) {
      n := EvaluateEnds(m, rest, resolved + [c], open);
      PassAfterStep(m, pending, resolved, rest, resolved + [c], n);
      n := n + 1;
    } else if Join(resolved + [c]) in open {
      n := 0;
    } else {
      var candidate := Join(resolved + [c]);
      VisitingShrinks(m, candidate, open);
      var target := Parts(m[candidate].linkTarget);
      n := EvaluateEnds(m, target, [], open + {candidate});
      match Evaluate(m, target, [], open + {candidate}) {
        case Loops =>
        case Out => InsidePass(m, target, [], n, rest);
        case Ended(at) =>
          var k := EvaluateEnds(m, rest, at, open);
          PassInSequence(m, target, [], n, at, rest, k);
          n := n + k;
      }
      PassAfterStep(m, pending, resolved, target + rest, [], n);
      n := n + 1;
    }
  }

  /** An evaluation that loops leads to a link that is still open, or to one
      that leads back to itself. */
  lemma {:induction false} EvaluateLoops(m: Entries, pending: seq<string>, resolved: seq<string>, open: set<string>)
    returns (c: string, n: nat, x: seq<string>)
    requires Evaluate(m, pending, resolved, open) == Loops
    ensures LeadsTo(m, pending, resolved, c, n, x)
    ensures c in open || SelfLoop(m, c)
    decreases |LinkKeys(m) - open|, |pending|, 1
  {
    hide Passes, LeavesAfter, LeadsTo, StepsTo;
    FirstStep(m, pending, resolved);
    var head, rest := pending[0], pending[1..];
    if head == "." {
      c, n, x := EvaluateLoops(m, rest, resolved, open);
      PassAfterStep(m, pending, resolved, rest, resolved, n);
      n := n + 1;
    } else if head == ".." {
      c, n, x := EvaluateLoops(m, rest, Pop(resolved), open);
      PassAfterStep(m, pending, resolved, rest, Pop(resolved), n);
      n := n + 1;
    } else {
      var candidate := Join(resolved + [head]);
      if !IsLink(m, candidate) {
        c, n, x := EvaluateLoops(m, rest, resolved + [head], open);
        PassAfterStep(m, pending, resolved, rest, resolved + [head], n);
        n := n + 1;
      } else if candidate in open {
        c, n, x := candidate, 0, rest;
      } else {
        c, n, x := EvaluateLoopsAtLink(m, pending, resolved, open, candidate);
      }
    }
  }

  lemma {:induction false} EvaluateLoopsAtLink(m: Entries, pending: seq<string>, resolved: seq<string>, open: set<string>, candidate: string)
    returns (c: string, n: nat, x: seq<string>)
    requires Evaluate(m, pending, resolved, open) == Loops
    requires pending != [] && pending[0] != "." && pending[0] != ".." && candidate == Join(resolved + [pending[0]])
    requires IsLink(m, candidate) && candidate !in open
    ensures LeadsTo(m, pending, resolved, c, n, x)
    ensures c in open || SelfLoop(m, c)
    decreases |LinkKeys(m) - open|, |pending|, 0
  {
    hide Passes, LeavesAfter, LeadsTo, StepsTo, Join, Parts, IsDynamic;
    FirstStep(m, pending, resolved);
    var rest := pending[1..];
    VisitingShrinks(m, candidate, open);
    var target := Parts(m[candidate].linkTarget);
    match Evaluate(m, target, [], open + {candidate}) {
      case Loops =>
        c, n, x := EvaluateLoops(m, target, [], open + {candidate});
        if c == candidate {
          n, x := 0, rest;
        } else {
          InsidePass(m, target, [], n, rest);
          PassAfterStep(m, pending, resolved, target + rest, [], n);
          n, x := n + 1, x + rest;
        }
      case Ended(at) =>
        var k := EvaluateEnds(m, target, [], open + {candidate});
        c, n, x := EvaluateLoops(m, rest, at, open);
        PassInSequence(m, target, [], k, at, rest, n);
        PassAfterStep(m, pending, resolved, target + rest, [], k + n);
        n := k + n + 1;
    }
  }

  lemma ComesBack(m: Entries, c: string, w: Walk, rest: seq<string>) returns (k: nat, rest': seq<string>)
    requires SelfLoop(m, c) && AtLink(m, w, c, rest)
    ensures k >= 1 && w.Walking? && AtLink(m, Run(m, w, k), c, rest')
  {
    hide Parts, Join, IsDynamic;
    var target := Parts(m[c].linkTarget);
    var n: nat, x :| LeadsTo(m, target, [], c, n, x);
    var next := Walking(target + rest, []);
    assert Step(m, w) == next;
    k, rest' := n + 1, x + rest;
    assert AtLink(m, Run(m, next, n), c, rest');
    assert Run(m, w, n + 1) == Run(m, next, n);
  }

  /** From a link that leads back to itself the walk comes back again and again. */
  lemma {:induction false} SelfLoopReturns(m: Entries, c: string, w: Walk, rest: seq<string>, count: nat) returns (n: nat)
    requires SelfLoop(m, c) && AtLink(m, w, c, rest)
    ensures n >= count && Run(m, w, n).Walking?
    decreases count
  {
    hide AtLink, SelfLoop;
    var k, rest' := ComesBack(m, c, w, rest);
    n := 0;
    if count > 0 {
      var more := SelfLoopReturns(m, c, Run(m, w, k), rest', count - 1);
      RunSplit(m, w, k, more);
      n := k + more;
    }
  }

  lemma StillWalking(m: Entries, w: Walk, n: nat, c: string, x: seq<string>, k: nat)
    requires AtLink(m, Run(m, w, n), c, x) && SelfLoop(m, c)
    ensures Run(m, w, k).Walking?
  {
    hide SelfLoop, AtLink;
    var later := SelfLoopReturns(m, c, Run(m, w, n), x, k);
    RunSplit(m, w, n, later);
    if !Run(m, w, k).Walking? {
      RunSplit(m, w, k, n + later - k);
      Halted(m, Run(m, w, k), n + later - k);
    }
  }

  lemma LoopsDiverges(m: Entries, path: string)
    requires Evaluate(m, Parts(path), [], {}) == Loops
    ensures Diverges(m, Start(path))
  {
    var p, w := Parts(path), Start(path);
    assert p + [] == p;
    var c, n, x := EvaluateLoops(m, p, [], {});
    var at := Run(m, w, n);
    assert Walking(p + [], []) == w && AtLink(m, at, c, x + []);
    assert x + [] == x;
    forall k: nat ensures Run(m, w, k).Walking? {
      StillWalking(m, w, n, c, x, k);
    }
  }

  /** Resolution of a path runs forever exactly when some link is met again
      inside its own expansion. */
  lemma LoopsMeansDivergence(m: Entries, path: string)
    ensures Evaluate(m, Parts(path), [], {}) == Loops <==> Diverges(m, Start(path))
  {
    var p, w := Parts(path), Start(path);
    assert p + [] == p;
    if Evaluate(m, p, [], {}) == Loops {
      LoopsDiverges(m, path);
    } else {
      var n := EvaluateEnds(m, p, [], {});
      assert Walking(p + [], []) == w;
      if Evaluate(m, p, [], {}) == Out {
        assert !Run(m, w, n).Walking?;
      } else {
        EndOfStretch(m, p, n, Evaluate(m, p, [], {}).at);
        var k: nat :| !Run(m, w, k).Walking?;
      }
    }
  }

  /** The resolver's cycle report is a false alarm exactly when the walk
      expands some link twice, yet never inside its own expansion; in that case
      resolution has an answer that the code does not give. */
  lemma FalseAlarms(m: Entries, path: string)
    ensures Resolve(m, Parts(path), [], {}) == Cycle && !Diverges(m, Start(path)) <==>
            Repeats(m, Start(path)) && Evaluate(m, Parts(path), [], {}) != Loops
  {
    ResolverDecides(m, path);
    LoopsMeansDivergence(m, path);
  }

  /** Every divergence is reported: the code is safe, if not exact. */
  lemma RealLoopsAreReported(m: Entries, path: string)
    requires Evaluate(m, Parts(path), [], {}) == Loops
    ensures Resolve(m, Parts(path), [], {}) == Cycle
  {
    LoopsMeansDivergence(m, path);
    DivergenceIsReported(m, path);
  }

  function LinkTo(target: string): FileEntry {
    FileEntry(Symlink, 0x1FF, 0, 0, 0, "", target)
  }

  /** Two links that answer each other without looping: a leads to b, and
      x inside b leads back to a. The path a/x/y resolves to b/y, but the code
      calls it a cycle, whatever links came before. */
  lemma FalseAlarmShape(m: Entries, a: string, b: string, x: string, y: string, seen: set<string>)
    requires Plain(a) && Plain(b) && Plain(x) && Plain(y)
    requires !IsDynamic(Join([a])) && IsLink(m, Join([a])) && Parts(m[Join([a])].linkTarget) == [b]
    requires !IsDynamic(Join([b])) && !IsLink(m, Join([b]))
    requires !IsDynamic(Join([b, x])) && IsLink(m, Join([b, x])) && Parts(m[Join([b, x])].linkTarget) == [a]
    requires !IsDynamic(Join([b, y])) && !IsLink(m, Join([b, y]))
    requires Join([b, x]) != Join([a]) && Join([a]) !in seen && Join([b, x]) !in seen
    ensures Resolve(m, [a, x, y], [], seen) == Cycle
    ensures Evaluate(m, [a, x, y], [], seen) == Ended([b, y])
  {
    hide Join, Parts, IsDynamic, IsLink;
    var la, lx, none: seq<string> := Join([a]), Join([b, x]), [];
    assert none + [a] == [a] && none + [b] == [b] && [b] + [x] == [b, x] && [b] + [y] == [b, y];
    assert [a, x, y][1..] == [x, y] && [b, x, y][1..] == [x, y] && [x, y][1..] == [y] && [a, y][1..] == [y];
    assert [b] + [x, y] == [b, x, y] && [a] + [y] == [a, y];
    assert Resolve(m, [a, x, y], none, seen) == Resolve(m, [b, x, y], none, seen + {la});
    assert Resolve(m, [b, x, y], none, seen + {la}) == Resolve(m, [x, y], [b], seen + {la});
    assert Resolve(m, [x, y], [b], seen + {la}) == Resolve(m, [a, y], none, seen + {la} + {lx});
    assert Evaluate(m, [b], none, seen + {la}) == Ended([b]);
    assert Evaluate(m, [b], none, seen + {lx} + {la}) == Ended([b]);
    assert Evaluate(m, [a], none, seen + {lx}) == Ended([b]);
    assert Evaluate(m, [y], [b], seen) == Ended([b, y]);
    assert Evaluate(m, [x, y], [b], seen) == Ended([b, y]);
  }

  lemma LinkIsListed(m: Entries, path: string)
    requires IsLink(m, path)
    ensures path in m
  {
  }

  /** A link that lies in plain directories is entered with what it points to. */
  lemma {:induction false} EnterLink(m: Entries, p: seq<string>, k: nat)
    requires AllPlain(p) && k < |p|
    requires forall j :: 0 < j <= |p| ==> !IsDynamic(Join(p[..j]))
    requires forall j :: 0 < j < |p| ==> !IsLink(m, Join(p[..j]))
    requires IsLink(m, Join(p))
    ensures var link, target := Join(p), Parts(m[Join(p)].linkTarget);
      && Resolve(m, p[k..], p[..k], {}) == Resolve(m, target, [], {link})
      && (Evaluate(m, target, [], {link}).Ended? ==> Evaluate(m, p[k..], p[..k], {}) == Evaluate(m, target, [], {link}))
    decreases |p| - k
  {
    hide Join, Parts, IsDynamic, IsLink;
    var none: set<string> := {};
    assert p[..k] + [p[k]] == p[..k + 1] && p[k..][1..] == p[k + 1..];
    assert Plain(p[k]);
    if k + 1 < |p| {
      EnterLink(m, p, k + 1);
    } else {
      assert Join(p) in m by { LinkIsListed(m, Join(p)); }
      var link, target := Join(p), Parts(m[Join(p)].linkTarget);
      assert p[..k + 1] == p && p[k..] == [p[k]] && target + [] == target && none + {link} == {link};
      assert Resolve(m, p[k..], p[..k], {}) == Resolve(m, target + [], [], none + {link});
    }
  }

  lemma AbsoluteParts(c: string)
    requires Plain(c)
    ensures Parts("/" + c) == [c]
  {
    PartsConcat("", c);
    assert "" + "/" + c == "/" + c;
    PartsOfJoin([]);
    PartsOfJoin([c]);
  }

  lemma EndOfStretch(m: Entries, p: seq<string>, n: nat, at: seq<string>)
    requires Passes(m, p, [], n, at)
    ensures Ends(m, Walking(p, []), Arrived(at))
  {
    var w := Walking(p, []);
    assert p + [] == p;
    assert Run(m, Walking(p + [], []), n) == Walking([], at);
    RunSplit(m, w, n, 1);
    assert Run(m, Walking([], at), 1) == Run(m, Step(m, Walking([], at)), 0);
    assert Run(m, w, n + 1) == Arrived(at);
  }
}
