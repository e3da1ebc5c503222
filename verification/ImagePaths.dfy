/** Archive paths of scripts/check_container_image.py: splitting, joining, the
    beneath relation, tar-name normalization, link targets and whiteout names.

    Paths stay strings, as in the source; the lemmas at the end tie the string
    tests to the component lists they stand for.
 */
module ImagePaths {
  import opened Wrappers

  datatype PathError = AbsolutePath | UnsafePath | BadLinkTarget | BadWhiteoutName

  /** str.split("/") */
  function Split(s: string): (parts: seq<string>)
    ensures |parts| > 0
    ensures forall i :: 0 <= i < |parts| ==> '/' !in parts[i]
  {
    if s == "" then [""]
    else if s[0] == '/' then [""] + Split(s[1..])
    else
      var rest := Split(s[1..]);
      [[s[0]] + rest[0]] + rest[1..]
  }

  /** "/".join(parts) */
  function Join(parts: seq<string>): string {
    if |parts| == 0 then ""
    else if |parts| == 1 then parts[0]
    else parts[0] + "/" + Join(parts[1..])
  }

  function NonEmpty(parts: seq<string>): (kept: seq<string>)
    ensures forall c :: c in kept ==> c in parts && c != ""
  {
    if parts == [] then []
    else if parts[0] == "" then NonEmpty(parts[1..])
    else [parts[0]] + NonEmpty(parts[1..])
  }

  function WithoutDots(parts: seq<string>): (kept: seq<string>)
    ensures forall c :: c in kept ==> c in parts && c != "."
  {
    if parts == [] then []
    else if parts[0] == "." then WithoutDots(parts[1..])
    else [parts[0]] + WithoutDots(parts[1..])
  }

  /** The parts of a path the resolver walks: every non-empty piece. */
  function Parts(path: string): seq<string> {
    NonEmpty(Split(path))
  }

  predicate Plain(c: string) {
    c != "" && c != "." && c != ".." && '/' !in c
  }

  ghost predicate AllPlain(parts: seq<string>) {
    forall i :: 0 <= i < |parts| ==> Plain(parts[i])
  }

  ghost predicate AllSlashFree(parts: seq<string>) {
    forall i :: 0 <= i < |parts| ==> parts[i] != "" && '/' !in parts[i]
  }

  /** _is_beneath */
  predicate IsBeneath(path: string, root: string) {
    path == root || (root + "/") <= path
  }

  /** _normalized_tar_path; "" is the archive root. */
  function NormalizedTarPath(raw: string): Result<string, PathError> {
    if raw != "" && raw[0] == '/' then Failure(AbsolutePath)
    else
      var parts := WithoutDots(NonEmpty(Split(raw)));
      if parts == [] then Success("")
      else if ".." in parts then Failure(UnsafePath)
      else Success(Join(parts))
  }

  function ParentParts(path: string): seq<string> {
    var parts := Split(path);
    parts[..|parts| - 1]
  }

  function Name(path: string): string {
    var parts := Split(path);
    parts[|parts| - 1]
  }

  /** str(PurePosixPath(path).parent) of a normalized path. */
  function ParentText(path: string): string {
    if ParentParts(path) == [] then "." else Join(ParentParts(path))
  }

  function LStripSlash(s: string): (r: string)
    ensures r != "" ==> r[0] != '/'
  {
    if s != "" && s[0] == '/' then LStripSlash(s[1..]) else s
  }

  /** _normalized_link_target */
  function NormalizedLinkTarget(path: string, target: string, hardlink: bool): Result<string, PathError> {
    if target == "" || '\0' in target then Failure(BadLinkTarget)
    else
      var candidate :=
        if target[0] == '/' then target
        else if hardlink then "/" + target
        else "/" + ParentText(path) + "/" + target;
      Success("/" + LStripSlash(candidate))
  }

  const WHITEOUT_PREFIX := ".wh."
  const OPAQUE_NAME := ".wh..wh..opq"

  /** What one whiteout marker removes from the layers below. */
  datatype Whiteout = Whiteout(target: string, isOpaque: bool)

  /** _whiteout_target. Removing the prefix can leave "" or ".", names that
      PurePosixPath.with_name refuses with an exception. */
  function WhiteoutTarget(path: string): Result<Option<Whiteout>, PathError> {
    var name := Name(path);
    if name == OPAQUE_NAME then Success(Some(Whiteout(Join(ParentParts(path)), true)))
    else if !(WHITEOUT_PREFIX <= name) then Success(None)
    else
      var hidden := name[|WHITEOUT_PREFIX|..];
      if hidden == "" || hidden == "." then Failure(BadWhiteoutName)
      else Success(Some(Whiteout(Join(ParentParts(path) + [hidden]), false)))
  }

  // ----- Splitting and joining are inverse -----

  lemma {:induction false} SplitPiece(c: string)
    requires '/' !in c
    ensures Split(c) == [c]
  {
    if c != "" {
      SplitPiece(c[1..]);
      assert c == [c[0]] + c[1..];
    }
  }

  lemma {:induction false} SplitAtSlash(c: string, rest: string)
    requires '/' !in c
    ensures Split(c + "/" + rest) == [c] + Split(rest)
  {
    var s := c + "/" + rest;
    if c == "" {
      assert s[0] == '/' && s[1..] == rest;
    } else {
      assert s[0] == c[0] && s[1..] == c[1..] + "/" + rest;
      SplitAtSlash(c[1..], rest);
      assert c == [c[0]] + c[1..];
    }
  }

  /** Splitting undoes joining for slash-free components. */
  lemma {:induction false} SplitJoin(parts: seq<string>)
    requires parts != []
    requires forall i :: 0 <= i < |parts| ==> '/' !in parts[i]
    ensures Split(Join(parts)) == parts
  {
    if |parts| == 1 {
      SplitPiece(parts[0]);
      assert parts == [parts[0]];
    } else {
      SplitJoin(parts[1..]);
      SplitAtSlash(parts[0], Join(parts[1..]));
      assert parts == [parts[0]] + parts[1..];
    }
  }

  lemma JoinLonger(c: char, parts: seq<string>)
    requires parts != []
    ensures Join([[c] + parts[0]] + parts[1..]) == [c] + Join(parts)
  {
    var longer := [[c] + parts[0]] + parts[1..];
    assert longer[1..] == parts[1..];
    if |parts| > 1 {
      var tail := Join(parts[1..]);
      assert [c] + parts[0] + "/" + tail == [c] + (parts[0] + "/" + tail);
    }
  }

  /** Joining undoes splitting, for every string. */
  lemma {:induction false} JoinSplit(s: string)
    ensures Join(Split(s)) == s
  {
    if s == "" {
    } else if s[0] == '/' {
      JoinSplit(s[1..]);
      assert Split(s)[1..] == Split(s[1..]);
      assert s == [s[0]] + s[1..];
    } else {
      JoinSplit(s[1..]);
      var rest := Split(s[1..]);
      assert Split(s) == [[s[0]] + rest[0]] + rest[1..];
      assert s == [s[0]] + s[1..];
      JoinLonger(s[0], rest);
    }
  }

  lemma JoinInjective(p: seq<string>, q: seq<string>)
    requires AllSlashFree(p) && AllSlashFree(q)
    requires Join(p) == Join(q)
    ensures p == q
  {
    if p != [] && q != [] {
      SplitJoin(p);
      SplitJoin(q);
    } else if p != [] {
      JoinNonEmpty(p);
    } else if q != [] {
      JoinNonEmpty(q);
    }
  }

  lemma JoinNonEmpty(p: seq<string>)
    requires AllSlashFree(p) && p != []
    ensures Join(p) != ""
  {
  }

  lemma {:induction false} JoinAppend(p: seq<string>, q: seq<string>)
    requires p != [] && q != []
    ensures Join(p + q) == Join(p) + "/" + Join(q)
  {
    if |p| == 1 {
      assert (p + q)[1..] == q;
    } else {
      assert (p + q)[1..] == p[1..] + q;
      JoinAppend(p[1..], q);
      assert Join(p + q) == p[0] + "/" + (Join(p[1..]) + "/" + Join(q));
      assert p[0] + "/" + (Join(p[1..]) + "/" + Join(q)) == (p[0] + "/" + Join(p[1..])) + "/" + Join(q);
    }
  }

  lemma {:induction false} SplitConcat(s: string, t: string)
    ensures Split(s + "/" + t) == Split(s) + Split(t)
  {
    JoinSplit(s);
    JoinSplit(t);
    JoinAppend(Split(s), Split(t));
    SplitJoin(Split(s) + Split(t));
  }

  /** The string test of _is_beneath is the prefix test on components. */
  lemma BeneathIsPrefix(p: seq<string>, r: seq<string>)
    requires AllSlashFree(p) && AllSlashFree(r) && r != []
    ensures IsBeneath(Join(p), Join(r)) <==> r <= p
  {
    if r <= p {
      var rest := p[|r|..];
      assert p == r + rest;
      if rest == [] {
        assert p == r;
      } else {
        JoinAppend(r, rest);
      }
    }
    if IsBeneath(Join(p), Join(r)) {
      if Join(p) == Join(r) {
        JoinInjective(p, r);
      } else {
        var tail := Join(p)[|Join(r)| + 1..];
        assert Join(p) == Join(r) + "/" + tail;
        SplitConcat(Join(r), tail);
        SplitJoin(r);
        if p != [] {
          SplitJoin(p);
        }
      }
    }
  }

  lemma {:induction false} NonEmptyIdentity(parts: seq<string>)
    requires forall i :: 0 <= i < |parts| ==> parts[i] != ""
    ensures NonEmpty(parts) == parts
  {
    if parts != [] {
      NonEmptyIdentity(parts[1..]);
    }
  }

  lemma {:induction false} WithoutDotsIdentity(parts: seq<string>)
    requires forall i :: 0 <= i < |parts| ==> parts[i] != "."
    ensures WithoutDots(parts) == parts
  {
    if parts != [] {
      WithoutDotsIdentity(parts[1..]);
    }
  }

  lemma {:induction false} NonEmptyConcat(p: seq<string>, q: seq<string>)
    ensures NonEmpty(p + q) == NonEmpty(p) + NonEmpty(q)
  {
    if p == [] {
      assert p + q == q;
    } else {
      assert (p + q)[1..] == p[1..] + q;
      NonEmptyConcat(p[1..], q);
    }
  }

  lemma PartsOfJoin(parts: seq<string>)
    requires AllSlashFree(parts)
    ensures Parts(Join(parts)) == parts
  {
    if parts == [] {
      assert Split("") == [""];
      assert NonEmpty([""]) == [];
    } else {
      SplitJoin(parts);
      NonEmptyIdentity(parts);
    }
  }

  lemma PartsConcat(s: string, t: string)
    ensures Parts(s + "/" + t) == Parts(s) + Parts(t)
  {
    SplitConcat(s, t);
    NonEmptyConcat(Split(s), Split(t));
  }

  lemma {:induction false} PartsLStrip(s: string)
    ensures Parts(LStripSlash(s)) == Parts(s)
  {
    if s != "" && s[0] == '/' {
      PartsLStrip(s[1..]);
      PartsConcat("", s[1..]);
      assert s == "" + "/" + s[1..];
      assert Parts("") == [] by { PartsOfJoin([]); }
    }
  }

  /** A normalized name is the join of plain components, and normalizing it
      again changes nothing. */
  lemma NormalizedIsPlain(raw: string)
    requires NormalizedTarPath(raw).Success?
    ensures var path := NormalizedTarPath(raw).value;
      && AllPlain(Parts(path))
      && path == Join(Parts(path))
      && NormalizedTarPath(path) == Success(path)
  {
    var parts := WithoutDots(NonEmpty(Split(raw)));
    forall i | 0 <= i < |parts| ensures Plain(parts[i]) {
      assert parts[i] in parts;
      assert parts[i] in NonEmpty(Split(raw));
    }
    PartsOfJoin(parts);
    var path := Join(parts);
    if parts != [] {
      assert path[0] == parts[0][0];
      assert parts[0][0] in parts[0];
      WithoutDotsIdentity(parts);
    }
  }
}
