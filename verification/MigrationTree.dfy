/** A cache directory of the file system as the tree that the inventory walks,
    and a tree put into the file system. */
module MigrationTree {
  import opened Wrappers
  import opened MigrationModel
  import opened MigrationHost
  import opened MigrationInventory
  import MigrationSqlite
  import MigrationCache

  function Names(rel: Rel): (p: Path)
    ensures |p| == |rel| && AllPlain(p)
  {
    seq(|rel|, i requires 0 <= i < |rel| => Plain(rel[i]))
  }

  predicate AllPlain(p: Path) {
    forall n | n in p :: n.Plain?
  }

  function Texts(p: Path): (rel: Rel)
    requires AllPlain(p)
    ensures |rel| == |p| && Names(rel) == p
  {
    var rel := seq(|p|, i requires 0 <= i < |p| => p[i].text);
    assert forall i :: 0 <= i < |p| ==> p[i] in p && Names(rel)[i] == p[i];
    rel
  }

  lemma TextsOfNames(rel: Rel)
    ensures Texts(Names(rel)) == rel
  {
  }

  /** A walk from root comes to p: every directory on the way is one. */
  predicate Reached(fs: FileSystem, root: Path, p: Path) {
    && root <= p && p in fs && AllPlain(p[|root|..])
    && forall k | |root| <= k < |p| :: p[..k] in fs && fs[p[..k]].Dir?
  }

  /** What is at root, as a tree. */
  function TreeAt(fs: FileSystem, root: Path): Option<Tree> {
    if root !in fs then None
    else
      Some(map rel | rel in (set p | p in fs && Reached(fs, root, p) :: Texts(p[|root|..])) :: NodeAt(fs, root + Names(rel)))
  }

  function NodeAt(fs: FileSystem, p: Path): Node {
    if p in fs then fs[p] else Other
  }

  lemma TreeMembers(fs: FileSystem, root: Path, rel: Rel)
    requires root in fs
    ensures rel in TreeAt(fs, root).value <==> Reached(fs, root, root + Names(rel))
    ensures rel in TreeAt(fs, root).value ==> TreeAt(fs, root).value[rel] == fs[root + Names(rel)]
  {
    var p := root + Names(rel);
    assert p[|root|..] == Names(rel);
    TextsOfNames(rel);
    if rel in TreeAt(fs, root).value {
      var q :| q in fs && Reached(fs, root, q) && Texts(q[|root|..]) == rel;
      assert q == q[..|root|] + q[|root|..] == p;
    }
  }

  lemma ReachedParent(fs: FileSystem, root: Path, p: Path)
    requires Reached(fs, root, p) && root != p
    ensures p != [] && root <= Parent(p) && Reached(fs, root, Parent(p)) && fs[Parent(p)].Dir?
  {
    var up := Parent(p);
    assert forall k :: 0 <= k <= |up| ==> up[..k] == p[..k];
    assert p[..|p| - 1] == up && |root| <= |p| - 1;
    forall n | n in up[|root|..] ensures n in p[|root|..] {
      var i :| 0 <= i < |up[|root|..]| && up[|root|..][i] == n;
      assert p[|root|..][i] == n;
    }
  }

  lemma NamesPrefix(rel: Rel)
    requires rel != []
    ensures Names(rel) != [] && Parent(Names(rel)) == Names(rel[..|rel| - 1])
  {
  }

  lemma ParentOfJoined(root: Path, rel: Rel)
    requires rel != []
    ensures Parent(root + Names(rel)) == root + Names(rel[..|rel| - 1])
  {
    NamesPrefix(rel);
  }

  /** A walk only sees a tree, whatever else lies beneath the root. */
  lemma TreeAtIsTree(fs: FileSystem, root: Path)
    requires root in fs
    ensures MigrationCache.IsTree(TreeAt(fs, root).value)
    ensures TreeAt(fs, root).value[[]] == fs[root]
  {
    var t := TreeAt(fs, root).value;
    TreeMembers(fs, root, []);
    assert root + Names([]) == root;
    forall rel | rel in t && rel != [] ensures rel[..|rel| - 1] in t && t[rel[..|rel| - 1]].Dir? {
      var up := rel[..|rel| - 1];
      TreeMembers(fs, root, rel);
      TreeMembers(fs, root, up);
      ParentOfJoined(root, rel);
      ReachedParent(fs, root, root + Names(rel));
    }
  }

  // ----- When two file systems show the same tree -----

  ghost predicate SameBeneath(a: FileSystem, b: FileSystem, root: Path) {
    forall p :: root < p ==> Get(a, p) == Get(b, p)
  }

  lemma ReachedSame(a: FileSystem, b: FileSystem, root: Path, p: Path)
    requires SameBeneath(a, b, root) && root in a && root in b && a[root].Dir? == b[root].Dir?
    ensures Reached(a, root, p) == Reached(b, root, p)
    ensures Reached(a, root, p) && p != root ==> a[p] == b[p]
  {
    if root <= p {
      forall k | |root| <= k <= |p| ensures p[..k] in a <==> p[..k] in b
        ensures p[..k] in a ==> a[p[..k]].Dir? == b[p[..k]].Dir?
      {
        if k == |root| {
          assert p[..k] == root;
        } else {
          assert root < p[..k];
          assert Get(a, p[..k]) == Get(b, p[..k]);
        }
      }
      assert p[..|p|] == p;
      assert root != p ==> Get(a, p) == Get(b, p);
    }
  }

  /** The same entries beneath and the same kind of root: the same tree but
      for the root. */
  lemma TreeSameButRoot(a: FileSystem, b: FileSystem, root: Path)
    requires SameBeneath(a, b, root) && root in a && root in b && a[root].Dir? == b[root].Dir?
    ensures TreeAt(b, root) == Some(TreeAt(a, root).value[[] := b[root]])
  {
    SomeTree(a, root);
    SomeTree(b, root);
    hide TreeAt, Reached;
    var t, u := TreeAt(a, root).value, TreeAt(b, root).value;
    TreeAtIsTree(a, root);
    TreeAtIsTree(b, root);
    forall rel ensures rel in t <==> rel in u
      ensures rel in t && rel != [] ==> t[rel] == u[rel]
    {
      TreeMembers(a, root, rel);
      TreeMembers(b, root, rel);
      ReachedSame(a, b, root, root + Names(rel));
      assert rel != [] ==> |root + Names(rel)| > |root|;
    }
    assert u == t[[] := b[root]];
  }

  lemma SomeTree(fs: FileSystem, root: Path)
    ensures TreeAt(fs, root).Some? <==> root in fs
  {
  }

  lemma TreeSame(a: FileSystem, b: FileSystem, root: Path)
    requires SameBeneath(a, b, root) && Get(a, root) == Get(b, root)
    ensures TreeAt(a, root) == TreeAt(b, root)
  {
    hide Reached;
    if root in a {
      TreeSameButRoot(a, b, root);
      TreeAtIsTree(a, root);
      assert TreeAt(a, root).value[[] := b[root]] == TreeAt(a, root).value;
    }
  }

  // ----- A tree put into the file system -----

  /** t at root; an entry that is already there stays. */
  function Graft(fs: FileSystem, root: Path, t: Tree): FileSystem {
    map p | p in fs.Keys + (set rel | rel in t :: root + Names(rel)) ::
      if p in fs then fs[p] else if Grafted(p, root, t) then t[Texts(p[|root|..])] else Other
  }

  predicate Grafted(p: Path, root: Path, t: Tree) {
    root <= p && AllPlain(p[|root|..]) && Texts(p[|root|..]) in t
  }

  lemma GraftedAt(root: Path, t: Tree, rel: Rel)
    ensures Grafted(root + Names(rel), root, t) <==> rel in t
    ensures (root + Names(rel))[|root|..] == Names(rel) && Texts(Names(rel)) == rel
  {
    assert (root + Names(rel))[|root|..] == Names(rel);
    TextsOfNames(rel);
  }

  lemma GraftMembers(fs: FileSystem, root: Path, t: Tree, p: Path)
    ensures p in Graft(fs, root, t) <==> p in fs || Grafted(p, root, t)
    ensures p in fs ==> Graft(fs, root, t)[p] == fs[p]
    ensures p !in fs && Grafted(p, root, t) ==> Graft(fs, root, t)[p] == t[Texts(p[|root|..])]
  {
    if p in Graft(fs, root, t) && p !in fs {
      var rel :| rel in t && p == root + Names(rel);
      GraftedAt(root, t, rel);
    }
    if Grafted(p, root, t) {
      var rel := Texts(p[|root|..]);
      assert p == p[..|root|] + p[|root|..] == root + Names(rel);
    }
  }

  lemma GraftKeeps(fs: FileSystem, root: Path, t: Tree)
    ensures Kept(fs, Graft(fs, root, t))
    ensures forall p :: p in Graft(fs, root, t) && p !in fs ==> root <= p
  {
    hide Graft, Grafted;
    forall p ensures p in fs ==> p in Graft(fs, root, t) && Graft(fs, root, t)[p] == fs[p]
      ensures p in Graft(fs, root, t) && p !in fs ==> root <= p
    {
      GraftMembers(fs, root, t, p);
      GraftedIsBeneath(p, root, t);
    }
  }

  lemma GraftedIsBeneath(p: Path, root: Path, t: Tree)
    ensures Grafted(p, root, t) ==> root <= p
  {
  }

  ghost predicate NothingAt(fs: FileSystem, root: Path) {
    forall p :: p in fs ==> !(root <= p)
  }

  /** In a well-formed file system nothing lies beneath what is not there. */
  lemma {:induction false} NothingBeneath(fs: FileSystem, root: Path, p: Path)
    requires WellFormed(fs) && root !in fs && root <= p
    ensures p !in fs
    decreases |p|
  {
    if p in fs {
      assert p != root && root <= Parent(p);
      NothingBeneath(fs, root, Parent(p));
    }
  }

  lemma GraftRemoved(fs: FileSystem, root: Path, t: Tree)
    requires NothingAt(fs, root)
    ensures MigrationSqlite.Removed(Graft(fs, root, t), root) == fs
  {
    GraftKeeps(fs, root, t);
  }

  lemma {:induction false} GraftReached(fs: FileSystem, root: Path, t: Tree, rel: Rel)
    requires NothingAt(fs, root) && MigrationCache.IsTree(t)
    ensures rel in t <==> Reached(Graft(fs, root, t), root, root + Names(rel))
    ensures rel in t ==> Graft(fs, root, t)[root + Names(rel)] == t[rel]
    decreases |rel|
  {
    hide Graft, Grafted;
    var p := root + Names(rel);
    assert root <= p;
    GraftedAt(root, t, rel);
    GraftMembers(fs, root, t, p);
    if rel in t {
      if rel == [] {
        assert p == root;
      } else {
        ParentOfJoined(root, rel);
        GraftReached(fs, root, t, rel[..|rel| - 1]);
        ReachedOneMore(Graft(fs, root, t), root, p);
      }
    }
  }

  lemma ReachedOneMore(fs: FileSystem, root: Path, p: Path)
    requires root < p && p in fs && AllPlain(p[|root|..]) && Reached(fs, root, Parent(p)) && fs[Parent(p)].Dir?
    ensures Reached(fs, root, p)
  {
    forall k | |root| <= k < |p| ensures p[..k] in fs && fs[p[..k]].Dir? {
      if k < |p| - 1 {
        assert Parent(p)[..k] == p[..k];
      } else {
        assert p[..k] == Parent(p);
      }
    }
  }

  /** What is put there is what a walk finds there. */
  lemma GraftRoundTrip(fs: FileSystem, root: Path, t: Tree)
    requires NothingAt(fs, root) && MigrationCache.IsTree(t)
    ensures TreeAt(Graft(fs, root, t), root) == Some(t)
  {
    hide Graft, TreeAt, Reached;
    var after := Graft(fs, root, t);
    GraftReached(fs, root, t, []);
    assert root + Names([]) == root;
    ReachedIsThere(after, root, root);
    SomeTree(after, root);
    var u := TreeAt(after, root).value;
    forall rel ensures rel in t <==> rel in u
      ensures rel in t ==> t[rel] == u[rel]
    {
      GraftReached(fs, root, t, rel);
      TreeMembers(after, root, rel);
    }
    assert u == t;
  }

  lemma ReachedIsThere(fs: FileSystem, root: Path, p: Path)
    ensures Reached(fs, root, p) ==> p in fs
  {
  }

}
