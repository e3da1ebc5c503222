/** What acceptance by scripts/check_container_image.py means for an image,
    across the loader, the layer scan, the resolver and the validators. */
module ImageAccepted {
  import opened Wrappers
  import opened ImagePaths
  import opened ImageSearch
  import opened ImageOverlay
  import opened ImageLinks
  import opened ImageContract
  import opened ImageAllowlist
  import opened ImageAudit

  ghost predicate Accepted(layers: seq<seq<Member>>, policy: Policy) {
    LayersClean(layers, policy) && ContractHolds(Replay(LayersOf(layers, policy)), policy.allow)
  }

  ghost function FinalTable(layers: seq<seq<Member>>, policy: Policy): Entries
    requires LayersClean(layers, policy)
  {
    Replay(LayersOf(layers, policy))
  }

  /** A write of e at p survives: no later write of its layer and no higher
      layer's write or whiteout hides it. */
  ghost predicate Written(layers: seq<Layer>, p: string, e: FileEntry) {
    exists l: nat, k: nat :: Survives(layers, p, l, k) && layers[l].writes[k].entry == e
  }

  /** m holds exactly the surviving writes. */
  ghost predicate Shows(layers: seq<Layer>, m: Entries) {
    forall p, e :: Written(layers, p, e) <==> p in m && m[p] == e
  }

  /** The code's table is the one that shows the surviving writes. */
  lemma ReplayIsSurvivors(layers: seq<Layer>, m: Entries)
    ensures Shows(layers, m) <==> m == Replay(layers)
  {
    hide Replay, Survives;
    var table := Replay(layers);
    forall p, e ensures Written(layers, p, e) <==> p in table && table[p] == e {
      ReplayHoldsSurvivors(layers, p, e);
    }
    hide Written;
    if Shows(layers, m) {
      forall p ensures p in m <==> p in table
        ensures p in m ==> m[p] == table[p]
      {
        assert p in m ==> Written(layers, p, m[p]);
        assert p in table ==> Written(layers, p, table[p]);
      }
    }
  }

  lemma ImageIsSurvivors(layers: seq<seq<Member>>, policy: Policy, m: Entries)
    requires LayersClean(layers, policy)
    ensures Shows(LayersOf(layers, policy), m) <==> m == FinalTable(layers, policy)
  {
    hide Replay, LayersOf, Shows;
    ReplayIsSurvivors(LayersOf(layers, policy), m);
  }

  /** Member i makes write k of its layer. */
  ghost predicate Makes(members: seq<Member>, policy: Policy, i: nat, k: nat)
    requires AllClean(members, policy)
  {
    && i < |members| && k < |LayerOf(members, policy).writes|
    && |LayerOf(members[..i], policy).writes| == k
    && Verdict(members[i], policy) == Success(Ordinary(LayerOf(members, policy).writes[k]))
  }

  /** Every write of a scanned layer is made by one of its members. */
  lemma {:induction false} WriteHasMember(members: seq<Member>, policy: Policy, k: nat) returns (i: nat)
    requires AllClean(members, policy) && k < |LayerOf(members, policy).writes|
    ensures Makes(members, policy, i, k)
  {
    hide Verdict;
    var last := |members| - 1;
    var before := LayerOf(members[..last], policy);
    if k < |before.writes| {
      i := WriteHasMember(members[..last], policy, k);
      assert members[..last][..i] == members[..i];
    } else {
      i := last;
    }
  }

  lemma OrdinaryFacts(member: Member, policy: Policy, w: Write)
    requires Verdict(member, policy) == Success(Ordinary(w))
    ensures w.path != "" && AllPlain(Parts(w.path)) && w.path == Join(Parts(w.path))
    ensures IsBeneath(w.path, APP_ROOT) ==> IsAllowedAppPath(w.path, policy.allow)
  {
    NormalizedIsPlain(member.name);
  }

  /** Everything in the final table was written by a clean member. */
  lemma TableFacts(layers: seq<seq<Member>>, policy: Policy, p: string)
    requires LayersClean(layers, policy) && p in FinalTable(layers, policy)
    ensures p != "" && AllPlain(Parts(p)) && p == Join(Parts(p))
    ensures IsBeneath(p, APP_ROOT) ==> IsAllowedAppPath(p, policy.allow)
  {
    hide LayerOf, Verdict, IsAllowedAppPath, AllClean, Parts, Join;
    var l, k := KeysWereWritten(LayersOf(layers, policy), p);
    assert AllClean(layers[l], policy);
    var i := WriteHasMember(layers[l], policy, k);
    hide LayersOf;
    OrdinaryFacts(layers[l][i], policy, LayerOf(layers[l], policy).writes[k]);
  }

  /** Outside the fixed paths, the application tree of an accepted image is
      exactly the allowlist: nothing more, nothing less, each with its kind. */
  lemma ApplicationTreeIsAllowlist(layers: seq<seq<Member>>, policy: Policy)
    requires Accepted(layers, policy)
    requires forall p :: p in policy.allow ==> IsBeneath(p, APP_ROOT)
    ensures var m := FinalTable(layers, policy);
      && (forall p :: p !in ALLOWED_APP_EXACT_PATHS ==> (p in m && IsBeneath(p, APP_ROOT) <==> p in policy.allow))
      && (forall p :: p in policy.allow ==> p in m && m[p].kind == policy.allow[p])
      && (forall p :: p in policy.allow && p !in ALLOWED_APP_EXACT_PATHS ==>
            forall k :: 2 <= k < |CleanParts(p)| ==> !ForbiddenPart(CleanParts(p)[k]))
  {
    hide CleanParts, ForbiddenPart, Parts, Join, Payload, RequiredHold, PermissionsHold;
    var m := FinalTable(layers, policy);
    assert SourcesHold(m, policy.allow);
    forall p | p in m && IsBeneath(p, APP_ROOT) ensures IsAllowedAppPath(p, policy.allow) {
      TableFacts(layers, policy, p);
    }
  }

  /** In every layer of an accepted image, hidden by a later one or not: no
      sentinel in any content or metadata, and no forbidden application path. */
  lemma EveryLayerIsClean(layers: seq<seq<Member>>, policy: Policy, l: nat, i: nat)
    requires Accepted(layers, policy) && l < |layers| && i < |layers[l]|
    ensures var member := layers[l][i];
      && !MetadataHit(member, policy.sentinels) && !ContentHit(member, policy.sentinels)
      && NormalizedTarPath(member.name).Success?
      && var path := NormalizedTarPath(member.name).value;
         path != "" && WhiteoutTarget(path) == Success(None) && IsBeneath(path, APP_ROOT) ==> IsAllowedAppPath(path, policy.allow)
  {
    hide IsAllowedAppPath, Replay, ContractHolds, WhiteoutTarget, NormalizedTarPath;
    assert AllClean(layers[l], policy);
    assert Verdict(layers[l][i], policy).Success?;
  }

  /** The linkname of the member that made write k of layer l, which survives
      at p. */
  ghost predicate ArchivedBy(layers: seq<seq<Member>>, policy: Policy, p: string, target: string, l: nat, k: nat, i: nat)
    requires LayersClean(layers, policy)
  {
    && Survives(LayersOf(layers, policy), p, l, k)
    && Makes(layers[l], policy, i, k) && target == layers[l][i].linkname
  }

  ghost predicate ArchivedTarget(layers: seq<seq<Member>>, policy: Policy, p: string, target: string)
    requires LayersClean(layers, policy)
  {
    exists l: nat, k: nat, i: nat :: ArchivedBy(layers, policy, p, target, l, k, i)
  }

  /** raw gives, for each link of m, the target that the archive gave it. */
  ghost predicate Archived(layers: seq<seq<Member>>, policy: Policy, m: Entries, raw: map<string, string>)
    requires LayersClean(layers, policy)
  {
    raw.Keys == LinkKeys(m) && forall p :: p in raw ==> ArchivedTarget(layers, policy, p, raw[p])
  }

  /** What a surviving member that is a link left in the table. */
  lemma LinkOfMember(member: Member, policy: Policy, w: Write)
    requires Verdict(member, policy) == Success(Ordinary(w)) && (w.entry.kind == Symlink || w.entry.kind == Hardlink)
    ensures NormalizedLinkTarget(w.path, member.linkname, w.entry.kind == Hardlink) == Success(w.entry.linkTarget)
  {
    hide NormalizedLinkTarget, IsAllowedAppPath, WhiteoutTarget, NormalizedTarPath;
  }

  /** The archive gave every link of the final table one target, and the table
      holds its normalized form. */
  lemma LinkHasTarget(layers: seq<seq<Member>>, policy: Policy, p: string) returns (target: string)
    requires LayersClean(layers, policy) && IsLink(FinalTable(layers, policy), p)
    ensures ArchivedTarget(layers, policy, p, target)
  {
    hide LayerOf, AllClean, Replay, LayersOf, Verdict;
    var e := FinalTable(layers, policy)[p];
    ReplayHoldsSurvivors(LayersOf(layers, policy), p, e);
    var l: nat, k: nat :| Survives(LayersOf(layers, policy), p, l, k) && LayersOf(layers, policy)[l].writes[k].entry == e;
    var i := WriteHasMember(layers[l], policy, k);
    target := layers[l][i].linkname;
    assert ArchivedBy(layers, policy, p, target, l, k, i);
  }

  lemma ArchivedIsNormalized(layers: seq<seq<Member>>, policy: Policy, p: string, target: string)
    requires LayersClean(layers, policy) && IsLink(FinalTable(layers, policy), p) && ArchivedTarget(layers, policy, p, target)
    ensures var e := FinalTable(layers, policy)[p];
      NormalizedLinkTarget(p, target, e.kind == Hardlink) == Success(e.linkTarget)
  {
    hide LayerOf, AllClean, Replay, Verdict, NormalizedLinkTarget;
    var l: nat, k: nat, i: nat :| ArchivedBy(layers, policy, p, target, l, k, i);
    var w := LayersOf(layers, policy)[l].writes[k];
    ReplayHoldsSurvivors(LayersOf(layers, policy), p, w.entry);
    LinkOfMember(layers[l][i], policy, w);
  }

  /** The archive gives no path two targets. */
  lemma ArchivedTargetUnique(layers: seq<seq<Member>>, policy: Policy, p: string, target: string, other: string)
    requires LayersClean(layers, policy) && ArchivedTarget(layers, policy, p, target) && ArchivedTarget(layers, policy, p, other)
    ensures target == other
  {
    hide LayerOf, AllClean, Verdict, LayersOf;
    var l: nat, k: nat, i: nat :| ArchivedBy(layers, policy, p, target, l, k, i);
    var l': nat, k': nat, i': nat :| ArchivedBy(layers, policy, p, other, l', k', i');
    SurvivorUnique(LayersOf(layers, policy), p, l, k, l', k');
    OneMaker(layers[l], policy, i, i', k);
  }

  lemma OneMaker(members: seq<Member>, policy: Policy, i: nat, j: nat, k: nat)
    requires AllClean(members, policy) && Makes(members, policy, i, k) && Makes(members, policy, j, k)
    ensures i == j
  {
    hide Verdict;
    if i < j {
      WritesGrow(members, policy, i, j);
    } else if j < i {
      WritesGrow(members, policy, j, i);
    }
  }

  /** A member that makes a write makes the list of writes longer. */
  lemma {:induction false} WritesGrow(members: seq<Member>, policy: Policy, i: nat, j: nat)
    requires AllClean(members, policy) && i < j <= |members| && Verdict(members[i], policy).value.Ordinary?
    ensures |LayerOf(members[..i], policy).writes| < |LayerOf(members[..j], policy).writes|
    decreases j
  {
    hide Verdict;
    assert members[..j][..j - 1] == members[..j - 1];
    if i < j - 1 {
      WritesGrow(members, policy, i, j - 1);
    }
  }

  /** The archive's targets of all links: there is exactly one such map, and the
      table holds their normalized forms. */
  lemma ArchivedTargets(layers: seq<seq<Member>>, policy: Policy) returns (raw: map<string, string>)
    requires LayersClean(layers, policy)
    ensures Archived(layers, policy, FinalTable(layers, policy), raw)
    ensures TargetsFrom(FinalTable(layers, policy), raw)
    ensures forall other :: Archived(layers, policy, FinalTable(layers, policy), other) ==> other == raw
  {
    hide FinalTable, ArchivedTarget;
    var m := FinalTable(layers, policy);
    var left: set<string> := LinkKeys(m);
    raw := map[];
    while left != {}
      invariant left <= LinkKeys(m) && LinkKeys(m) - left == raw.Keys
      invariant forall p :: p in raw ==> ArchivedTarget(layers, policy, p, raw[p])
      decreases left
    {
      var p :| p in left;
      var target := LinkHasTarget(layers, policy, p);
      raw := raw[p := target];
      left := left - {p};
    }
    ArchivedAreTargets(layers, policy, raw);
    forall other | Archived(layers, policy, m, other) ensures other == raw {
      forall p | p in raw ensures other[p] == raw[p] {
        ArchivedTargetUnique(layers, policy, p, raw[p], other[p]);
      }
    }
  }

  lemma ArchivedAreTargets(layers: seq<seq<Member>>, policy: Policy, raw: map<string, string>)
    requires LayersClean(layers, policy) && Archived(layers, policy, FinalTable(layers, policy), raw)
    ensures TargetsFrom(FinalTable(layers, policy), raw)
  {
    hide FinalTable, ArchivedTarget, NormalizedLinkTarget;
    var m := FinalTable(layers, policy);
    forall p | IsLink(m, p) ensures NormalizedLinkTarget(p, raw[p], m[p].kind == Hardlink) == Success(m[p].linkTarget) {
      assert p in LinkKeys(m);
      ArchivedIsNormalized(layers, policy, p, raw[p]);
    }
  }

  /** m holds the surviving writes of the layers, and raw, for each link of m,
      the linkname of the member that made it. */
  ghost predicate ImageOf(layers: seq<seq<Member>>, policy: Policy, m: Entries, raw: map<string, string>)
    requires LayersClean(layers, policy)
  {
    Shows(LayersOf(layers, policy), m) && Archived(layers, policy, m, raw)
  }

  /** POSIX resolution of p ends at a place that is neither a link nor inside a
      writable or dynamic root, and the code's resolver finds it. */
  ghost predicate LeadsToRest(m: Entries, raw: map<string, string>, p: string, at: seq<string>) {
    && LinkKeys(m) <= raw.Keys && PosixEnds(m, raw, Start(p), Arrived(at)) && Settled(m, at)
    && Resolve(m, Parts(p), [], {}) == Found(at)
  }

  lemma ResolvedLeadsToRest(m: Entries, raw: map<string, string>, p: string) returns (at: seq<string>)
    requires TargetsFrom(m, raw) && LeadsSomewhere(m, p)
    ensures LeadsToRest(m, raw, p, at)
  {
    hide TargetsFrom, Settled, PosixEnds;
    at := Resolve(m, Parts(p), [], {}).at;
    ResolverDecides(m, p);
    FoundIsSettled(m, p);
    NormalizedWalkIsPosix(m, raw, p);
    TargetsCoverLinks(m, raw);
  }

  lemma TargetsCoverLinks(m: Entries, raw: map<string, string>)
    requires TargetsFrom(m, raw)
    ensures LinkKeys(m) <= raw.Keys
  {
  }

  lemma ProtectedLinkResolves(m: Entries, allow: Allowlist, p: string)
    requires ContractHolds(m, allow) && IsLink(m, p) && IsTracked(p)
    ensures LeadsSomewhere(m, p) && !IsBeneath(p, APP_ROOT)
  {
    hide Payload, RequiredHold, SourcesHold, LeadsSomewhere;
    assert EntryPermitted(p, m[p]);
  }

  /** Every protected link of an accepted image leads, by POSIX resolution of
      the targets its archive gave, to a place at rest. */
  lemma ProtectedLinksLeadToRest(layers: seq<seq<Member>>, policy: Policy, m: Entries, raw: map<string, string>, p: string)
    returns (at: seq<string>)
    requires Accepted(layers, policy) && ImageOf(layers, policy, m, raw)
    requires IsLink(m, p) && IsTracked(p)
    ensures LeadsToRest(m, raw, p, at) && !IsBeneath(p, APP_ROOT)
  {
    hide ContractHolds, IsTracked, LayersOf, Shows, LayersClean, Archived, LeadsSomewhere, IsLink, Replay, LeadsToRest;
    ImageIsSurvivors(layers, policy, m);
    ArchivedAreTargets(layers, policy, raw);
    ProtectedLinkResolves(m, policy.allow, p);
    at := ResolvedLeadsToRest(m, raw, p);
  }

  // ----- The application tree is a tree -----

  lemma JoinOne(c: string)
    ensures Join([c]) == c
  {
  }

  lemma PartsOfTwo(a: string, b: string)
    requires Plain(a) && Plain(b)
    ensures Parts(a + "/" + b) == [a, b] && Join([a, b]) == a + "/" + b
  {
    hide Parts;
    assert [a, b][1..] == [b];
    PartsOfJoin([a, b]);
  }

  lemma PartsOfThree(a: string, b: string, c: string)
    requires Plain(a) && Plain(b) && Plain(c)
    ensures Parts(a + "/" + b + "/" + c) == [a, b, c]
  {
    hide Parts;
    assert [a, b, c][1..] == [b, c];
    PartsOfTwo(b, c);
    assert Join([a, b, c]) == a + "/" + (b + "/" + c) == a + "/" + b + "/" + c;
    PartsOfJoin([a, b, c]);
  }

  lemma PartsOfOne(a: string)
    requires Plain(a)
    ensures Parts(a) == [a]
  {
    JoinOne(a);
    PartsOfJoin([a]);
  }

  lemma AppChildAncestors(name: string, k: nat)
    requires Plain(name) && 0 < k < |Parts("app/" + name)|
    ensures Join(Parts("app/" + name)[..k]) == "app"
  {
    hide Parts, Join;
    PartsOfTwo("app", name);
    assert "app" + "/" + name == "app/" + name;
    assert ["app", name][..1] == ["app"];
    JoinOne("app");
  }

  lemma ChildName(p: string) returns (name: string)
    requires p in APP_EXACT_CHILDREN
    ensures p == "app/" + name && Plain(name)
  {
    assert |p| >= 6 && p[4] != '.' && forall i :: 4 <= i < |p| ==> p[i] != '/';
    name := p[4..];
  }

  lemma AppGrandchildAncestors(dir: string, name: string, k: nat)
    requires Plain(dir) && Plain(name) && 0 < k < |Parts("app/" + dir + "/" + name)|
    ensures Join(Parts("app/" + dir + "/" + name)[..k]) in {"app", "app/" + dir}
  {
    hide Parts, Join;
    PartsOfThree("app", dir, name);
    assert "app" + "/" + dir + "/" + name == "app/" + dir + "/" + name;
    assert ["app", dir, name][..1] == ["app"] && ["app", dir, name][..2] == ["app", dir];
    JoinOne("app");
    PartsOfTwo("app", dir);
    assert "app" + "/" + dir == "app/" + dir;
  }

  /** The fixed paths need no directory that the contract does not require. */
  lemma ExactAncestors(p: string, k: nat)
    requires p in ALLOWED_APP_EXACT_PATHS && 0 < k < |Parts(p)|
    ensures Join(Parts(p)[..k]) in REQUIRED_DIRECTORIES
  {
    hide Parts, Join;
    if p == "app" {
      PartsOfOne("app");
    } else if p == "app/examples/free-tier-providers.md" {
      ExampleAncestors(k);
    } else if p == "app/outputs/images" {
      OutputAncestors(k);
    } else {
      assert p in APP_EXACT_CHILDREN;
      ChildAncestors(p, k);
    }
  }

  lemma ExampleAncestors(k: nat)
    requires 0 < k < |Parts("app/examples/free-tier-providers.md")|
    ensures Join(Parts("app/examples/free-tier-providers.md")[..k]) in REQUIRED_DIRECTORIES
  {
    hide Parts, Join;
    assert "app/examples/free-tier-providers.md" == "app/" + "examples" + "/" + "free-tier-providers.md";
    AppGrandchildAncestors("examples", "free-tier-providers.md", k);
    assert "app/" + "examples" == "app/examples";
  }

  lemma OutputAncestors(k: nat)
    requires 0 < k < |Parts("app/outputs/images")|
    ensures Join(Parts("app/outputs/images")[..k]) in REQUIRED_DIRECTORIES
  {
    hide Parts, Join;
    assert "app/outputs/images" == "app/" + "outputs" + "/" + "images";
    AppGrandchildAncestors("outputs", "images", k);
    assert "app/" + "outputs" == "app/outputs";
  }

  lemma ChildAncestors(p: string, k: nat)
    requires p in APP_EXACT_CHILDREN && 0 < k < |Parts(p)|
    ensures Join(Parts(p)[..k]) in REQUIRED_DIRECTORIES
  {
    hide Parts, Join;
    var name := ChildName(p);
    AppChildAncestors(name, k);
  }

  lemma UnderAppParts(q: string)
    requires AllPlain(Parts("app/" + q))
    ensures Parts("app/" + q) == ["app"] + CleanParts(q)
  {
    hide Parts;
    PartsConcat("app", q);
    PartsOfOne("app");
    assert "app" + "/" + q == "app/" + q;
    var parts := Parts("app/" + q);
    forall i | 0 <= i < |Parts(q)| ensures Parts(q)[i] != "." {
      assert Parts(q)[i] == parts[i + 1];
    }
    WithoutDotsIdentity(Parts(q));
  }

  /** A closed source listing holds the ancestors of a path it lists. */
  lemma ListedAncestors(known: map<string, Kind>, q: string, k: nat)
    requires Closed(known) && q in known && AllPlain(Parts("app/" + q))
    requires 1 < k < |Parts("app/" + q)|
    ensures Join(Parts("app/" + q)[..k]) in UnderApp(known) && UnderApp(known)[Join(Parts("app/" + q)[..k])] == Directory
  {
    hide Parts, Join, CleanParts, AllPlain, UnderApp;
    UnderAppParts(q);
    UnderAppMembers(known);
    var parts := CleanParts(q);
    assert ParentsKnown(known, q);
    var parent := Join(parts[..k - 1]);
    assert parent in known && known[parent] == Directory;
    assert Parts("app/" + q)[..k] == ["app"] + parts[..k - 1];
    JoinAppend(["app"], parts[..k - 1]);
    JoinOne("app");
    assert "app" + "/" + parent == "app/" + parent;
  }

  lemma FirstAncestor(q: string)
    requires AllPlain(Parts("app/" + q)) && 1 < |Parts("app/" + q)|
    ensures Join(Parts("app/" + q)[..1]) == "app"
  {
    hide Parts, Join, CleanParts, AllPlain;
    UnderAppParts(q);
    assert Parts("app/" + q)[..1] == ["app"];
    JoinOne("app");
  }

  /** In an accepted image every ancestor of every application path is a
      directory of the image, although the layer replay itself never looks at
      parents: the loader's closure and the fixed sets carry it. */
  lemma ApplicationAncestorsAreDirectories(layers: seq<seq<Member>>, policy: Policy, known: map<string, Kind>, p: string, k: nat)
    requires Accepted(layers, policy)
    requires policy.allow == UnderApp(known) && Closed(known)
    requires p in FinalTable(layers, policy) && IsBeneath(p, APP_ROOT) && 0 < k < |Parts(p)|
    ensures var m := FinalTable(layers, policy);
      Join(Parts(p)[..k]) in m && m[Join(Parts(p)[..k])].kind == Directory
  {
    hide Parts, Join, CleanParts, Payload, PermissionsHold, ForbiddenPart, UnderApp, Closed, ParentsKnown;
    var m := FinalTable(layers, policy);
    TableFacts(layers, policy, p);
    if p in ALLOWED_APP_EXACT_PATHS {
      ExactAncestors(p, k);
    } else {
      UnderAppMembers(known);
      var q := p[4..];
      assert p == "app/" + q;
      if k == 1 {
        FirstAncestor(q);
      } else {
        ListedAncestors(known, q, k);
      }
    }
  }
}
