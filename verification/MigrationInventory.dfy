/** inventory_tree of docker/_systemd_migration_fs.py: the sorted listing of
    all files of a tree, and when two trees have the same one. */
module MigrationInventory {
  import opened Wrappers
  import opened MigrationModel
  import opened NameOrder

  type Rel = seq<string>

  /** A directory tree by relative path; its root is []. */
  type Tree = map<Rel, Node>

  /** One manifest line; size and digest are those of the content. */
  datatype Entry = Entry(path: Rel, content: Content, mtime: int, mode: bv16)

  // ----- The listing -----

  function Kids(t: Tree, d: Rel, skip: Option<string>): set<string> {
    (set p | p in t && |p| == |d| + 1 && p[..|d|] == d :: p[|d|]) -
    (if d == [] && skip.Some? then {skip.value} else {})
  }

  lemma KidsMembers(t: Tree, d: Rel, skip: Option<string>)
    ensures forall n :: n in Kids(t, d, skip) <==> d + [n] in t && !(d == [] && skip == Some(n))
  {
    forall n | d + [n] in t && !(d == [] && skip == Some(n)) ensures n in Kids(t, d, skip) {
      var p := d + [n];
      assert p[..|d|] == d && p[|d|] == n;
    }
    forall n | n in Kids(t, d, skip) ensures d + [n] in t {
      var p :| p in t && |p| == |d| + 1 && p[..|d|] == d && p[|d|] == n;
      assert p == d + [n];
    }
  }

  function Below(t: Tree, d: Rel): set<Rel> {
    set p | p in t && d < p
  }

  lemma BelowShrinks(t: Tree, d: Rel, p: Rel)
    requires p in t && d < p
    ensures |Below(t, p)| < |Below(t, d)|
  {
    forall q | q in Below(t, p) ensures q in Below(t, d) {
      assert d < p < q;
    }
    assert p in Below(t, d) && p !in Below(t, p);
    SubsetSmaller(Below(t, p), Below(t, d), p);
  }

  lemma SubsetSmaller<T>(a: set<T>, b: set<T>, x: T)
    requires a <= b && x in b && x !in a
    ensures |a| < |b|
  {
    assert a + (b - a) == b;
  }

  function NormalMode(mode: bv16): bv16 {
    if mode & 0x49 != 0 then RUNTIME_DIRECTORY_MODE else RUNTIME_FILE_MODE
  }

  function EntryOf(p: Rel, node: Node): Entry
    requires node.File?
  {
    Entry(p, node.content, node.mtime, NormalMode(node.mode))
  }

  /** The files below d, directories entered where their name sorts. */
  ghost function Listing(t: Tree, d: Rel, skip: Option<string>): seq<Entry>
    decreases |Below(t, d)|, 1, 0
  {
    ListNames(t, d, Sorted(Kids(t, d, skip)), skip)
  }

  ghost function ListNames(t: Tree, d: Rel, names: seq<string>, skip: Option<string>): seq<Entry>
    decreases |Below(t, d)|, 0, |names|
  {
    if names == [] then []
    else
      var p := d + [names[0]];
      (if p !in t then []
       else
         match t[p]
         case Dir(_, _, _) => (BelowShrinks(t, d, p); Listing(t, p, skip))
         case File(_, _, _, _, _, _, _) => [EntryOf(p, t[p])]
         case Link => []
         case Other => [])
      + ListNames(t, d, names[1..], skip)
  }

  /** What one child adds to the listing of its directory. */
  ghost function Share(t: Tree, p: Rel, skip: Option<string>): seq<Entry> {
    if p !in t then []
    else if t[p].Dir? then Listing(t, p, skip)
    else if t[p].File? then [EntryOf(p, t[p])]
    else []
  }

  lemma ListNamesStep(t: Tree, d: Rel, names: seq<string>, skip: Option<string>)
    requires names != []
    ensures ListNames(t, d, names, skip) == Share(t, d + [names[0]], skip) + ListNames(t, d, names[1..], skip)
  {
  }

  /** Names that add nothing may be listed or not. */
  lemma {:induction false} IdleNames(t: Tree, d: Rel, some: set<string>, all: set<string>, skip: Option<string>)
    requires some <= all && forall n :: n in all && n !in some ==> Share(t, d + [n], skip) == []
    ensures ListNames(t, d, Sorted(some), skip) == ListNames(t, d, Sorted(all), skip)
    decreases |all|
  {
    if all != {} {
      var m := Min(all);
      ListNamesStep(t, d, Sorted(all), skip);
      assert Sorted(all)[1..] == Sorted(all - {m});
      if m in some {
        MinUnique(m, Min(some), some);
        ListNamesStep(t, d, Sorted(some), skip);
        assert Sorted(some)[1..] == Sorted(some - {m});
        IdleNames(t, d, some - {m}, all - {m}, skip);
      } else {
        IdleNames(t, d, some, all - {m}, skip);
      }
    }
  }

  lemma {:induction false} SameShares(t: Tree, u: Tree, d: Rel, names: seq<string>, skip: Option<string>)
    requires forall n :: n in names ==> Share(t, d + [n], skip) == Share(u, d + [n], skip)
    ensures ListNames(t, d, names, skip) == ListNames(u, d, names, skip)
    decreases |names|
  {
    if names != [] {
      ListNamesStep(t, d, names, skip);
      ListNamesStep(u, d, names, skip);
      assert names[0] in names;
      SameShares(t, u, d, names[1..], skip);
    }
  }

  // ----- What a listing contains -----

  /** Every entry but the root sits in a directory of the tree. */
  ghost predicate Rooted(t: Tree) {
    && [] in t && t[[]].Dir?
    && forall p :: p in t && p != [] ==> p[..|p| - 1] in t && t[p[..|p| - 1]].Dir?
  }

  lemma {:induction false} AncestorsThere(t: Tree, p: Rel, k: nat)
    requires Rooted(t) && p in t && k < |p|
    ensures p[..k] in t && t[p[..k]].Dir?
    decreases |p|
  {
    var parent := p[..|p| - 1];
    if k < |parent| {
      AncestorsThere(t, parent, k);
      assert parent[..k] == p[..k];
    }
  }

  predicate Skipped(p: Rel, skip: Option<string>) {
    p != [] && skip == Some(p[0])
  }

  ghost predicate FileBelow(t: Tree, d: Rel, p: Rel, skip: Option<string>) {
    p in t && t[p].File? && d < p && !(d == [] && Skipped(p, skip))
  }

  ghost predicate Listed(t: Tree, d: Rel, names: seq<string>, e: Entry) {
    && e.path in t && t[e.path].File? && e == EntryOf(e.path, t[e.path])
    && d < e.path && e.path[|d|] in names
  }

  lemma {:induction false} ListNamesFacts(t: Tree, d: Rel, names: seq<string>, skip: Option<string>)
    ensures forall e :: e in ListNames(t, d, names, skip) ==> Listed(t, d, names, e)
    decreases |Below(t, d)|, |names|
  {
    if names != [] {
      var p := d + [names[0]];
      var share, rest := Share(t, p, skip), ListNames(t, d, names[1..], skip);
      ListNamesStep(t, d, names, skip);
      ListNamesFacts(t, d, names[1..], skip);
      forall e | e in share ensures Listed(t, d, names, e) {
        assert p[|d|] == names[0] && d < p;
        if t[p].Dir? {
          BelowShrinks(t, d, p);
          ListNamesFacts(t, p, Sorted(Kids(t, p, skip)), skip);
          assert share == ListNames(t, p, Sorted(Kids(t, p, skip)), skip);
          assert Listed(t, p, Sorted(Kids(t, p, skip)), e);
          assert e.path[|d|] == p[|d|];
        }
      }
      forall e | e in rest ensures Listed(t, d, names, e) {
        assert Listed(t, d, names[1..], e);
      }
    }
  }

  lemma {:induction false} EveryFileListed(t: Tree, d: Rel, p: Rel, names: seq<string>, skip: Option<string>)
    requires Rooted(t) && p in t && t[p].File? && d < p && p[|d|] in names
    ensures EntryOf(p, t[p]) in ListNames(t, d, names, skip)
    decreases |Below(t, d)|, |names|
  {
    hide Rooted, Kids, ListNames, Sorted;
    ListNamesStep(t, d, names, skip);
    if p[|d|] == names[0] {
      var q := d + [names[0]];
      assert q == p[..|d| + 1];
      if |p| == |d| + 1 {
        assert p == q;
      } else {
        AncestorsThere(t, p, |d| + 1);
        BelowShrinks(t, d, q);
        KidListed(t, q, p, skip);
        EveryFileListed(t, q, p, Sorted(Kids(t, q, skip)), skip);
      }
      assert EntryOf(p, t[p]) in Share(t, q, skip);
    } else {
      assert p[|d|] in names[1..];
      EveryFileListed(t, d, p, names[1..], skip);
    }
  }

  lemma KidListed(t: Tree, d: Rel, p: Rel, skip: Option<string>)
    requires Rooted(t) && p in t && d < p && !(d == [] && Skipped(p, skip))
    ensures p[|d|] in Sorted(Kids(t, d, skip))
  {
    AncestorsThere2(t, p, |d|);
    assert d + [p[|d|]] == p[..|d| + 1];
    KidsMembers(t, d, skip);
    SortedMembers(Kids(t, d, skip));
  }

  lemma AncestorsThere2(t: Tree, p: Rel, k: nat)
    requires Rooted(t) && p in t && k < |p|
    ensures p[..k + 1] in t
  {
    if k + 1 < |p| {
      AncestorsThere(t, p, k + 1);
    } else {
      assert p[..k + 1] == p;
    }
  }

  /** A listing holds the files of the tree, all of them and nothing else. */
  lemma ListingIsFiles(t: Tree, d: Rel, skip: Option<string>, e: Entry)
    requires Rooted(t)
    ensures e in Listing(t, d, skip) <==> FileBelow(t, d, e.path, skip) && e == EntryOf(e.path, t[e.path])
  {
    KidsMembers(t, d, skip);
    SortedMembers(Kids(t, d, skip));
    ListNamesFacts(t, d, Sorted(Kids(t, d, skip)), skip);
    if FileBelow(t, d, e.path, skip) && e == EntryOf(e.path, t[e.path]) {
      KidListed(t, d, e.path, skip);
      EveryFileListed(t, d, e.path, Sorted(Kids(t, d, skip)), skip);
    }
  }

  // ----- When two listings agree -----

  /** Below d the two trees have the same files, up to what a listing records. */
  ghost predicate SameFiles(t: Tree, u: Tree, d: Rel, skip: Option<string>) {
    && (forall p :: FileBelow(t, d, p, skip) <==> FileBelow(u, d, p, skip))
    && forall p :: FileBelow(t, d, p, skip) ==> EntryOf(p, t[p]) == EntryOf(p, u[p])
  }

  /** Listings agree as soon as the files do: directories without files, and
      everything about directories, leave no trace in them, not even in their
      order. */
  lemma {:induction false} SameFilesSameListing(t: Tree, u: Tree, d: Rel, skip: Option<string>)
    requires Rooted(t) && Rooted(u) && SameFiles(t, u, d, skip)
    ensures Listing(t, d, skip) == Listing(u, d, skip)
    decreases |Below(t, d)| + |Below(u, d)|
  {
    var a, b := Kids(t, d, skip), Kids(u, d, skip);
    KidsMembers(t, d, skip);
    KidsMembers(u, d, skip);
    SortedMembers(a + b);
    forall n | n in a + b ensures Share(t, d + [n], skip) == Share(u, d + [n], skip) {
      SameShare(t, u, d, n, skip);
    }
    IdleNames(t, d, a, a + b, skip);
    IdleNames(u, d, b, a + b, skip);
    SameShares(t, u, d, Sorted(a + b), skip);
  }

  lemma {:induction false} SameShare(t: Tree, u: Tree, d: Rel, n: string, skip: Option<string>)
    requires Rooted(t) && Rooted(u) && SameFiles(t, u, d, skip)
    requires !(d == [] && skip == Some(n)) && (d + [n] in t || d + [n] in u)
    ensures Share(t, d + [n], skip) == Share(u, d + [n], skip)
    decreases |Below(t, d)| + |Below(u, d)|, 0
  {
    var p := d + [n];
    assert d < p && p[|d|] == n;
    assert FileBelow(t, d, p, skip) <==> p in t && t[p].File?;
    assert FileBelow(u, d, p, skip) <==> p in u && u[p].File?;
    if (p in t && t[p].File?) || (p in u && u[p].File?) {
      assert FileBelow(t, d, p, skip) && FileBelow(u, d, p, skip);
    } else {
      forall q ensures FileBelow(t, p, q, skip) <==> FileBelow(u, p, q, skip)
        ensures FileBelow(t, p, q, skip) ==> EntryOf(q, t[q]) == EntryOf(q, u[q])
      {
        if p < q {
          assert q[|d|] == n && d < q;
          assert FileBelow(t, p, q, skip) <==> FileBelow(t, d, q, skip);
          assert FileBelow(u, p, q, skip) <==> FileBelow(u, d, q, skip);
        }
      }
      ShareOfDirectory(t, u, d, p, skip);
    }
  }

  lemma {:induction false} ShareOfDirectory(t: Tree, u: Tree, d: Rel, p: Rel, skip: Option<string>)
    requires Rooted(t) && Rooted(u) && SameFiles(t, u, p, skip) && d < p && (p in t || p in u)
    requires !(p in t && t[p].File?) && !(p in u && u[p].File?)
    ensures Share(t, p, skip) == Share(u, p, skip)
    decreases |Below(t, d)| + |Below(u, d)|, -1
  {
    assert |Below(t, p)| + |Below(u, p)| < |Below(t, d)| + |Below(u, d)| by {
      BelowLess(t, d, p);
      BelowLess(u, d, p);
    }
    SameFilesSameListing(t, u, p, skip);
    if !(p in t && t[p].Dir?) {
      NotDirectoryEmpty(t, p, skip);
    }
    if !(p in u && u[p].Dir?) {
      NotDirectoryEmpty(u, p, skip);
    }
  }

  lemma BelowLess(t: Tree, d: Rel, p: Rel)
    requires d < p
    ensures |Below(t, p)| <= |Below(t, d)| && (p in t ==> |Below(t, p)| < |Below(t, d)|)
  {
    if p in t {
      BelowShrinks(t, d, p);
    } else {
      assert Below(t, p) <= Below(t, d);
      assert Below(t, p) + (Below(t, d) - Below(t, p)) == Below(t, d);
    }
  }

  lemma NotDirectoryEmpty(t: Tree, p: Rel, skip: Option<string>)
    requires Rooted(t) && p != [] && !(p in t && t[p].Dir?)
    ensures Listing(t, p, skip) == []
  {
    KidsMembers(t, p, skip);
    forall n ensures p + [n] !in t {
      var q := p + [n];
      assert q[..|q| - 1] == p;
    }
    assert Kids(t, p, skip) == {};
  }
}
