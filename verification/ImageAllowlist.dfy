/** _load_exact_source_allowlist of scripts/check_container_image.py: from the
    lines of .dockerignore to a closed set of application paths. */
module ImageAllowlist {
  import opened Wrappers
  import opened ImagePaths
  import opened ImageOverlay
  import opened ImageContract

  const SOURCE_CONTEXT_ROOTS: seq<string> := ["llm_gateway_core", "static"]

  /** What the checkout has at a relative path. */
  datatype Found = Missing | IsDirectory | IsFile | IsSymlink | IsOther

  datatype AllowlistError =
    | NotExact | Invalid | BadTarget | MissingGuard | MissingRoot | MissingParent

  function Relative(pattern: string): string {
    if "!" <= pattern then pattern[1..] else pattern
  }

  /** A line that re-includes something below a source root. */
  predicate IsSourceLine(pattern: string) {
    && "!" <= pattern
    && exists root | root in SOURCE_CONTEXT_ROOTS :: (root + "/") <= Relative(pattern)
  }

  function RStripSlash(s: string): string {
    if s != "" && s[|s| - 1] == '/' then RStripSlash(s[..|s| - 1]) else s
  }

  function Normalized(pattern: string): string {
    RStripSlash(Relative(pattern))
  }

  function LineKind(pattern: string): Kind {
    if EndsWith(Relative(pattern), "/") then Directory else RegularFile
  }

  predicate HasGlob(s: string) {
    '*' in s || '?' in s || '[' in s || '\\' in s
  }

  /** The checks on one source line, in the order the code makes them. */
  function LineProblem(patterns: seq<string>, i: nat, known: map<string, Kind>, project: string -> Found): Option<AllowlistError>
    requires i < |patterns|
  {
    var relative, path := Relative(patterns[i]), Normalized(patterns[i]);
    var parts := CleanParts(path);
    if HasGlob(relative) then Some(NotExact)
    else if path == "" || path[0] == '/' || ".." in parts || parts == [] || parts[0] !in SOURCE_CONTEXT_ROOTS
            || path in known then Some(Invalid)
    else if project(Join(parts)) != (if LineKind(patterns[i]) == Directory then IsDirectory else IsFile) then Some(BadTarget)
    else if i + 1 == |patterns| || patterns[i + 1] != path + "/*" then Some(MissingGuard)
    else None
  }

  /** What the loader demands of a source line: no glob, a clean path below a
      source root that no earlier source line has, the kind the checkout has
      there, and the guard of its descendants on the next line. */
  ghost predicate ExactLine(patterns: seq<string>, i: nat, project: string -> Found)
    requires i < |patterns|
  {
    var relative, path := Relative(patterns[i]), Normalized(patterns[i]);
    var parts := CleanParts(path);
    && !HasGlob(relative)
    && path != "" && path[0] != '/' && ".." !in parts
    && parts != [] && parts[0] in SOURCE_CONTEXT_ROOTS
    && (forall j :: 0 <= j < i && IsSourceLine(patterns[j]) ==> Normalized(patterns[j]) != path)
    && project(Join(parts)) == (if LineKind(patterns[i]) == Directory then IsDirectory else IsFile)
    && i + 1 < |patterns| && patterns[i + 1] == path + "/*"
  }

  ghost predicate AllExact(patterns: seq<string>, project: string -> Found) {
    forall i :: 0 <= i < |patterns| && IsSourceLine(patterns[i]) ==> ExactLine(patterns, i, project)
  }

  /** Every proper ancestor of path is known to be a directory. */
  predicate ParentsKnown(known: map<string, Kind>, path: string) {
    var parts := CleanParts(path);
    forall k :: 0 < k < |parts| ==> Join(parts[..k]) in known && known[Join(parts[..k])] == Directory
  }

  /** What a loaded allowlist promises about the lines it came from. */
  ghost predicate ReadFrom(known: map<string, Kind>, patterns: seq<string>, count: nat) {
    && count <= |patterns|
    && (forall p :: p in known <==> exists i :: 0 <= i < count && IsSourceLine(patterns[i]) && Normalized(patterns[i]) == p)
    && (forall i :: 0 <= i < count && IsSourceLine(patterns[i]) ==>
          && Normalized(patterns[i]) in known && known[Normalized(patterns[i])] == LineKind(patterns[i])
          && i + 1 < |patterns| && patterns[i + 1] == Normalized(patterns[i]) + "/*")
    && (forall p :: p in known ==> CleanParts(p) != [] && CleanParts(p)[0] in SOURCE_CONTEXT_ROOTS && ".." !in CleanParts(p))
  }

  ghost predicate Closed(known: map<string, Kind>) {
    && (forall k :: 0 <= k < |SOURCE_CONTEXT_ROOTS| ==>
          SOURCE_CONTEXT_ROOTS[k] in known && known[SOURCE_CONTEXT_ROOTS[k]] == Directory)
    && (forall p :: p in known ==> ParentsKnown(known, p))
  }

  /** The loaded lines as image paths. */
  function UnderApp(known: map<string, Kind>): Allowlist {
    map q | q in (set p | p in known :: "app/" + p) :: known[q[4..]]
  }

  lemma UnderAppMembers(known: map<string, Kind>)
    ensures forall p :: p in known ==> "app/" + p in UnderApp(known) && UnderApp(known)["app/" + p] == known[p]
    ensures forall q :: q in UnderApp(known) ==> "app/" <= q && q[4..] in known && UnderApp(known)[q] == known[q[4..]]
  {
    assert forall p: string :: ("app/" + p)[4..] == p;
  }

  /** The lines read so far leave no choice of what is known. */
  lemma ReadFromUnique(known: map<string, Kind>, other: map<string, Kind>, patterns: seq<string>, count: nat)
    requires ReadFrom(known, patterns, count) && ReadFrom(other, patterns, count)
    ensures known == other
  {
    hide IsSourceLine, Normalized, LineKind, CleanParts;
    forall p | p in known ensures p in other && known[p] == other[p] {
      var i :| 0 <= i < count && IsSourceLine(patterns[i]) && Normalized(patterns[i]) == p;
    }
  }

  lemma NoProblemIsExact(patterns: seq<string>, i: nat, known: map<string, Kind>, project: string -> Found)
    requires i < |patterns| && ReadFrom(known, patterns, i)
    ensures LineProblem(patterns, i, known, project) == None <==> ExactLine(patterns, i, project)
  {
    hide IsSourceLine, Normalized, LineKind, Relative, CleanParts, HasGlob, Join;
    var path := Normalized(patterns[i]);
    assert path in known <==> exists j :: 0 <= j < i && IsSourceLine(patterns[j]) && Normalized(patterns[j]) == path;
  }

  lemma ReadOneMore(known: map<string, Kind>, patterns: seq<string>, i: nat, project: string -> Found)
    requires i < |patterns| && ReadFrom(known, patterns, i)
    requires IsSourceLine(patterns[i]) ==> LineProblem(patterns, i, known, project) == None
    ensures ReadFrom(if IsSourceLine(patterns[i]) then known[Normalized(patterns[i]) := LineKind(patterns[i])] else known,
                     patterns, i + 1)
  {
    hide IsSourceLine, Normalized, LineKind, Relative, CleanParts, HasGlob;
  }

  /** One path's ancestors, walked upwards. */
  method AncestorsListed(source: map<string, Kind>, p: string) returns (ok: bool)
    ensures ok <==> ParentsKnown(source, p)
  {
    hide CleanParts, Join;
    var parts := CleanParts(p);
    var k := |parts| - 1;
    while k > 0
      invariant k < |parts| || parts == []
      invariant forall j :: 0 < j < |parts| && k < j ==>
        Join(parts[..j]) in source && source[Join(parts[..j])] == Directory
    {
      if Get(source, Join(parts[..k])) != Some(Directory) {
        return false;
      }
      k := k - 1;
    }
    return true;
  }

  /** The loader succeeds exactly when every source line is exact and the lines
      are closed under ancestors, and then the allowlist is what the lines
      say. The error is that of the first line that is not exact, or one of
      the two for lines that are not closed. */
  method LoadExactSourceAllowlist(patterns: seq<string>, project: string -> Found)
    returns (r: Result<Allowlist, AllowlistError>)
    ensures r.Success? <==>
      AllExact(patterns, project) && exists known :: ReadFrom(known, patterns, |patterns|) && Closed(known)
    ensures r.Success? ==> exists known :: r.value == UnderApp(known) && ReadFrom(known, patterns, |patterns|) && Closed(known)
    ensures r.Failure? && !AllExact(patterns, project) ==>
      exists i, before :: 0 <= i < |patterns| && ReadFrom(before, patterns, i) && IsSourceLine(patterns[i])
        && (forall j :: 0 <= j < i && IsSourceLine(patterns[j]) ==> ExactLine(patterns, j, project))
        && LineProblem(patterns, i, before, project) == Some(r.error)
    ensures r.Failure? && AllExact(patterns, project) ==> r.error in {MissingRoot, MissingParent}
  {
    hide ExactLine;
    hide LineProblem, IsSourceLine, Normalized, LineKind, ReadFrom, ParentsKnown;
    var source: map<string, Kind> := map[];
    assert ReadFrom(source, patterns, 0) by { NothingRead(patterns); }
    var i := 0;
    while i < |patterns|
      invariant i <= |patterns|
      invariant ReadFrom(source, patterns, i)
      invariant forall j :: 0 <= j < i && IsSourceLine(patterns[j]) ==> ExactLine(patterns, j, project)
    {
      NoProblemIsExact(patterns, i, source, project);
      if IsSourceLine(patterns[i]) {
        var problem := LineProblem(patterns, i, source, project);
        if problem.Some? {
          return Failure(problem.value);
        }
      }
      ReadOneMore(source, patterns, i, project);
      if IsSourceLine(patterns[i]) {
        source := source[Normalized(patterns[i]) := LineKind(patterns[i])];
      }
      i := i + 1;
    }
    forall known | ReadFrom(known, patterns, |patterns|) ensures known == source {
      ReadFromUnique(known, source, patterns, |patterns|);
    }
    for k := 0 to |SOURCE_CONTEXT_ROOTS|
      invariant forall j :: 0 <= j < k ==>
        SOURCE_CONTEXT_ROOTS[j] in source && source[SOURCE_CONTEXT_ROOTS[j]] == Directory
    {
      if Get(source, SOURCE_CONTEXT_ROOTS[k]) != Some(Directory) {
        return Failure(MissingRoot);
      }
    }
    var left := source.Keys;
    while left != {}
      invariant left <= source.Keys
      invariant forall p :: p in source && p !in left ==> ParentsKnown(source, p)
      decreases left
    {
      var p :| p in left;
      var ok := AncestorsListed(source, p);
      if !ok {
        return Failure(MissingParent);
      }
      left := left - {p};
    }
    return Success(UnderApp(source));
  }

  lemma NothingRead(patterns: seq<string>)
    ensures ReadFrom(map[], patterns, 0)
  {
  }
}
