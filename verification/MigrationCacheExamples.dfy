/** Caches that are planned and cannot be migrated: too many files for the
    manifest, and a name that only the copy refuses. */
module MigrationCacheExamples {
  import opened Wrappers
  import opened MigrationModel
  import opened MigrationInventory
  import opened MigrationCache
  import opened MigrationCachePublish

  const SOURCE_ROOT: Node := Dir(0, 0, 0x1ED)
  const SOURCE_FILE: Node := File(1, [], 0, 0, 0x1A4, 1, 0)

  // ----- A tree with files in its root only -----

  function Paths(names: set<string>): set<Rel> {
    set n | n in names :: [n]
  }

  /** Files with these names, and nothing else. */
  function Flat(names: set<string>): Tree {
    (map p | p in Paths(names) :: SOURCE_FILE)[[] := SOURCE_ROOT]
  }

  lemma FlatMembers(names: set<string>, p: Rel)
    ensures p in Flat(names) <==> p == [] || (|p| == 1 && p[0] in names)
    ensures p in Flat(names) ==> Flat(names)[p] == if p == [] then SOURCE_ROOT else SOURCE_FILE
  {
    assert |p| == 1 ==> p == [p[0]];
  }

  lemma FlatIsPlanned(names: set<string>, own: Ownership, codec: Codec)
    requires CACHE_MANIFEST_FILENAME !in names
    ensures Rooted(Flat(names)) && ManifestPath !in Flat(names)
    ensures PlannedFrom(Flat(names), Listing(Flat(names), [], None), own)
    ensures CachePlanned(None, Some(Flat(names)), own, codec) == Success(Ready(Listing(Flat(names), [], None)))
  {
    hide Flat, Listing;
    var t := Flat(names);
    forall p ensures p in t <==> p == [] || (|p| == 1 && p[0] in names)
      ensures p in t ==> t[p] == if p == [] then SOURCE_ROOT else SOURCE_FILE
    {
      FlatMembers(names, p);
    }
    assert forall p :: p in t && p != [] ==> p[..|p| - 1] == [];
  }

  lemma FlatListing(names: set<string>, n: string)
    requires n in names
    ensures EntryOf([n], SOURCE_FILE) in Listing(Flat(names), [], None)
  {
    var t := Flat(names);
    FlatMembers(names, [n]);
    forall p | p in t && p != [] ensures p[..|p| - 1] in t && t[p[..|p| - 1]].Dir? {
      FlatMembers(names, p);
      FlatMembers(names, []);
      assert p[..|p| - 1] == [];
    }
    ListingIsFiles(t, [], None, EntryOf([n], SOURCE_FILE));
  }

  lemma FlatEntries(names: set<string>, e: Entry)
    requires CACHE_MANIFEST_FILENAME !in names && e in Listing(Flat(names), [], None)
    ensures |e.path| == 1 && e.path[0] in names
  {
    var own: Ownership := Ownership(0, 0, 0);
    var t := Flat(names);
    FlatIsPlanned(names, own, Codec((m: seq<Entry>) => [], (c: Content) => None));
    ListingIsFiles(t, [], None, e);
    FlatMembers(names, e.path);
  }

  // ----- Too many files -----

  /** The binary digits of i. */
  function Numeral(i: nat): (s: string)
    ensures s != "" && forall c :: c in s ==> c == '0' || c == '1'
    ensures i >= 2 ==> |s| > 1
  {
    if i < 2 then (if i == 0 then "0" else "1") else Numeral(i / 2) + (if i % 2 == 0 then "0" else "1")
  }

  lemma {:induction false} NumeralsDiffer(i: nat, j: nat)
    requires Numeral(i) == Numeral(j)
    ensures i == j
  {
    if i >= 2 && j >= 2 {
      var a, b := Numeral(i), Numeral(j);
      assert a[..|a| - 1] == Numeral(i / 2) && b[..|b| - 1] == Numeral(j / 2);
      assert a[|a| - 1] == (if i % 2 == 0 then '0' else '1') && b[|b| - 1] == (if j % 2 == 0 then '0' else '1');
      NumeralsDiffer(i / 2, j / 2);
    }
  }

  function Numerals(n: nat): set<string> {
    set i | 0 <= i < n :: Numeral(i)
  }

  lemma NumeralsAreSafe(n: nat, own: Ownership)
    ensures CACHE_MANIFEST_FILENAME !in Numerals(n)
    ensures NamesSafe(Listing(Flat(Numerals(n)), [], None))
  {
    assert CACHE_MANIFEST_FILENAME[0] == '.' && CACHE_MANIFEST_FILENAME[0] in CACHE_MANIFEST_FILENAME;
    forall name | name in Numerals(n) ensures name != "" && forall c :: c in name ==> c == '0' || c == '1' {
      var i :| 0 <= i < n && name == Numeral(i);
    }
    hide Numerals, Listing;
    forall e | e in Listing(Flat(Numerals(n)), [], None) ensures SafeRelative(e.path) {
      FlatEntries(Numerals(n), e);
      assert e.path[0][0] in e.path[0];
    }
  }

  /** n different files make at least n manifest lines. */
  lemma {:induction false} LinesAtLeast(entries: seq<Entry>, n: nat)
    requires forall i :: 0 <= i < n ==> EntryOf([Numeral(i)], SOURCE_FILE) in entries
    ensures |entries| >= n
    decreases n
  {
    if n > 0 {
      var last := EntryOf([Numeral(n - 1)], SOURCE_FILE);
      var k :| 0 <= k < |entries| && entries[k] == last;
      var rest := entries[..k] + entries[k + 1..];
      forall i | 0 <= i < n - 1 ensures EntryOf([Numeral(i)], SOURCE_FILE) in rest {
        var e := EntryOf([Numeral(i)], SOURCE_FILE);
        var m :| 0 <= m < |entries| && entries[m] == e;
        if m == k {
          assert e.path[0] == last.path[0];
          NumeralsDiffer(i, n - 1);
        }
        assert rest[if m < k then m else m - 1] == e;
      }
      LinesAtLeast(rest, n - 1);
    }
  }

  /** The manifest takes at least this many bytes for each of its lines. */
  ghost predicate BytesPerLine(codec: Codec, bytes: nat) {
    bytes > 0 && forall m :: |codec.encode(m)| >= bytes * |m|
  }

  /** Enough files for a manifest over the limit. */
  function TooMany(bytes: nat): nat
    requires bytes > 0
  {
    MAX_CACHE_MANIFEST_BYTES / bytes + 1
  }

  lemma TooManyLines(codec: Codec, bytes: nat)
    requires BytesPerLine(codec, bytes)
    ensures |codec.encode(Listing(Flat(Numerals(TooMany(bytes))), [], None))| > MAX_CACHE_MANIFEST_BYTES
  {
    var n := TooMany(bytes);
    var entries := Listing(Flat(Numerals(n)), [], None);
    forall i | 0 <= i < n ensures EntryOf([Numeral(i)], SOURCE_FILE) in entries {
      assert Numeral(i) in Numerals(n);
      FlatListing(Numerals(n), Numeral(i));
    }
    LinesAtLeast(entries, n);
    Product(bytes, n, |entries|);
    assert bytes * n > MAX_CACHE_MANIFEST_BYTES by { Quotient(bytes); }
  }

  lemma Product(a: nat, b: nat, c: nat)
    requires b <= c
    ensures a * b <= a * c
  {
  }

  lemma Quotient(bytes: nat)
    requires bytes > 0
    ensures bytes * (MAX_CACHE_MANIFEST_BYTES / bytes + 1) > MAX_CACHE_MANIFEST_BYTES
  {
  }

  /** A cache with that many files is planned and published, and then neither
      this migration nor any later plan succeeds. */
  method OversizedCache(own: Ownership, codec: Codec, bytes: nat, parent: Node)
    returns (before: Result<CachePlan, Reason>, r: Result<Status, Reason>, after: Result<CachePlan, Reason>, published: bool)
    requires codec.Valid() && BytesPerLine(codec, bytes) && TrustedParent(parent, own.envUid)
    ensures before.Success? && before.value.Ready? && published && r.Failure? && after.Failure?
  {
    hide Flat, Listing, NamesSafe, TooMany, Numerals, PlannedFrom, Rooted, FineBelow, CacheValid;
    var names := Numerals(TooMany(bytes));
    NumeralsAreSafe(TooMany(bytes), own);
    FlatIsPlanned(names, own, codec);
    TooManyLines(codec, bytes);
    var h := new CacheHost(None, None, parent, [], 0);
    before, r, after := MigrateCache(h, Flat(names), own, codec);
    published := h.target.Some?;
  }

  // ----- A name that the planner takes and the copy refuses -----

  lemma BackslashIsUnsafe(own: Ownership, codec: Codec)
    ensures CACHE_MANIFEST_FILENAME !in {"a\\b"}
    ensures PlannedFrom(Flat({"a\\b"}), Listing(Flat({"a\\b"}), [], None), own)
    ensures !NamesSafe(Listing(Flat({"a\\b"}), [], None))
  {
    assert CACHE_MANIFEST_FILENAME[0] == '.' && "a\\b"[0] == 'a' && "a\\b"[1] == '\\';
    FlatIsPlanned({"a\\b"}, own, codec);
    FlatListing({"a\\b"}, "a\\b");
    var e := EntryOf(["a\\b"], SOURCE_FILE);
    assert e.path[0] in e.path && '\\' in e.path[0];
    assert !SafeRelative(e.path);
  }

  /** A cache of one file whose name has a backslash is planned every time and
      published never. */
  method BackslashCache(own: Ownership, codec: Codec, parent: Node)
    returns (before: Result<CachePlan, Reason>, r: Result<Status, Reason>, after: Result<CachePlan, Reason>, published: bool)
    requires codec.Valid() && TrustedParent(parent, own.envUid)
    ensures before.Success? && before.value.Ready? && r.Failure? && !published && after == before
  {
    hide Flat, Listing, NamesSafe, PlannedFrom, Rooted, FineBelow, CacheValid;
    BackslashIsUnsafe(own, codec);
    FlatIsPlanned({"a\\b"}, own, codec);
    var h := new CacheHost(None, None, parent, [], 0);
    before, r, after := MigrateCache(h, Flat({"a\\b"}), own, codec);
    published := h.target.Some?;
  }
}
