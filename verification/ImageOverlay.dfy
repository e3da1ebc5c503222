/** The path table that scripts/check_container_image.py builds from the
    layers, bottom layer first, and the declarative overlay lookup it equals.
 */
module ImageOverlay {
  import opened Wrappers
  import opened ImagePaths

  datatype Kind = RegularFile | Directory | Symlink | Hardlink | Special

  datatype FileEntry = FileEntry(kind: Kind, mode: bv32, uid: int, gid: int,
                                 size: nat, digest: string, linkTarget: string)

  type Entries = map<string, FileEntry>

  datatype Write = Write(path: string, entry: FileEntry)

  /** One layer after its tar has been read: markers apart from ordinary
      entries, each in tar order. */
  datatype Layer = Layer(whiteouts: seq<Whiteout>, writes: seq<Write>)

  // ----- The table as the code updates it -----

  /** _delete_path */
  function Without(m: Entries, path: string): Entries {
    map p | p in m && !IsBeneath(p, path) :: m[p]
  }

  /** What a marker hides. An opaque marker names a directory and keeps it. */
  predicate Covers(w: Whiteout, p: string) {
    if !w.isOpaque then IsBeneath(p, w.target)
    else if w.target == "" then p != ""
    else (w.target + "/") <= p
  }

  function ApplyWhiteout(m: Entries, w: Whiteout): Entries {
    map p | p in m && !Covers(w, p) :: m[p]
  }

  function ApplyWrite(m: Entries, w: Write): Entries {
    (if w.entry.kind != Directory then Without(m, w.path) else m)[w.path := w.entry]
  }

  function ApplyWhiteouts(m: Entries, ws: seq<Whiteout>): Entries {
    if ws == [] then m else ApplyWhiteout(ApplyWhiteouts(m, ws[..|ws| - 1]), ws[|ws| - 1])
  }

  function ApplyWrites(m: Entries, ws: seq<Write>): Entries {
    if ws == [] then m else ApplyWrite(ApplyWrites(m, ws[..|ws| - 1]), ws[|ws| - 1])
  }

  function ApplyLayer(m: Entries, layer: Layer): Entries {
    ApplyWrites(ApplyWhiteouts(m, layer.whiteouts), layer.writes)
  }

  function Replay(layers: seq<Layer>): Entries {
    if layers == [] then map[]
    else ApplyLayer(Replay(layers[..|layers| - 1]), layers[|layers| - 1])
  }

  // ----- The overlay, read from the top -----

  /** A write settles p when it is at p, or replaces a proper ancestor of p by
      something that is not a directory. */
  predicate Settles(w: Write, p: string) {
    p == w.path || (w.entry.kind != Directory && IsBeneath(p, w.path))
  }

  predicate AnyCovers(ws: seq<Whiteout>, p: string) {
    exists k :: 0 <= k < |ws| && Covers(ws[k], p)
  }

  /** What the writes of one layer say about p: nothing, or the last word. */
  function LastWord(ws: seq<Write>, p: string): Option<Option<FileEntry>> {
    if ws == [] then None
    else
      var w := ws[|ws| - 1];
      if w.path == p then Some(Some(w.entry))
      else if Settles(w, p) then Some(None)
      else LastWord(ws[..|ws| - 1], p)
  }

  /** Overlay lookup, from the top layer down. */
  function TopDown(layers: seq<Layer>, p: string): Option<FileEntry> {
    if layers == [] then None
    else
      var top := layers[|layers| - 1];
      match LastWord(top.writes, p)
      case Some(word) => word
      case None => if AnyCovers(top.whiteouts, p) then None else TopDown(layers[..|layers| - 1], p)
  }

  /** Write i of layer l is at p and nothing later hides it: no later write of
      its layer settles p, and no higher layer covers or settles p. */
  ghost predicate Survives(layers: seq<Layer>, p: string, l: nat, i: nat) {
    && l < |layers| && i < |layers[l].writes|
    && layers[l].writes[i].path == p
    && (forall j :: i < j < |layers[l].writes| ==> !Settles(layers[l].writes[j], p))
    && (forall h :: l < h < |layers| ==> Silent(layers[h], p))
  }

  ghost predicate Silent(layer: Layer, p: string) {
    && !AnyCovers(layer.whiteouts, p)
    && forall j :: 0 <= j < |layer.writes| ==> !Settles(layer.writes[j], p)
  }

  // ----- Refinement -----

  lemma {:induction false} WhiteoutsLookup(m: Entries, ws: seq<Whiteout>, p: string)
    ensures Get(ApplyWhiteouts(m, ws), p) == if AnyCovers(ws, p) then None else Get(m, p)
  {
    if ws != [] {
      var last := |ws| - 1;
      WhiteoutsLookup(m, ws[..last], p);
      assert AnyCovers(ws, p) <==> AnyCovers(ws[..last], p) || Covers(ws[last], p) by {
        if k :| 0 <= k < |ws| && Covers(ws[k], p) {
          assert k < last ==> Covers(ws[..last][k], p);
        }
        if k :| 0 <= k < last && Covers(ws[..last][k], p) {
          assert Covers(ws[k], p);
        }
      }
    }
  }

  lemma {:induction false} WritesLookup(m: Entries, ws: seq<Write>, p: string)
    ensures Get(ApplyWrites(m, ws), p) ==
            match LastWord(ws, p) case Some(word) => word case None => Get(m, p)
  {
    if ws != [] {
      WritesLookup(m, ws[..|ws| - 1], p);
    }
  }

  /** The table built bottom-up is the overlay read top-down. */
  lemma {:induction false} ReplayIsTopDown(layers: seq<Layer>, p: string)
    ensures Get(Replay(layers), p) == TopDown(layers, p)
  {
    if layers != [] {
      var below, top := layers[..|layers| - 1], layers[|layers| - 1];
      ReplayIsTopDown(below, p);
      WhiteoutsLookup(Replay(below), top.whiteouts, p);
      WritesLookup(ApplyWhiteouts(Replay(below), top.whiteouts), top.writes, p);
    }
  }

  lemma LastAtSnoc(ws: seq<Write>, p: string, i: nat)
    requires ws != [] && i < |ws| - 1
    ensures LastAt(ws, p, i) <==> LastAt(ws[..|ws| - 1], p, i) && !Settles(ws[|ws| - 1], p)
  {
    hide Settles;
    var init := ws[..|ws| - 1];
    assert forall j :: 0 <= j < |init| ==> init[j] == ws[j];
    if LastAt(init, p, i) && !Settles(ws[|ws| - 1], p) {
      forall j | i < j < |ws| ensures !Settles(ws[j], p) {
        assert j < |init| ==> init[j] == ws[j];
      }
    }
  }

  lemma {:induction false} LastWordCases(ws: seq<Write>, p: string)
    ensures LastWord(ws, p) == None <==> forall j :: 0 <= j < |ws| ==> !Settles(ws[j], p)
    ensures LastWord(ws, p).Some? && LastWord(ws, p).value.Some? ==>
              exists i :: 0 <= i < |ws| && LastAt(ws, p, i) && LastWord(ws, p).value.value == ws[i].entry
    ensures forall i :: 0 <= i < |ws| && LastAt(ws, p, i) ==> LastWord(ws, p) == Some(Some(ws[i].entry))
  {
    if ws != [] {
      var init, last := ws[..|ws| - 1], |ws| - 1;
      assert forall j :: 0 <= j < last ==> init[j] == ws[j];
      LastWordCases(init, p);
      assert ws[last].path == p ==> Settles(ws[last], p);
      hide Settles;
      assert Settles(ws[last], p) ==> LastWord(ws, p) == Some(if ws[last].path == p then Some(ws[last].entry) else None);
      assert !Settles(ws[last], p) ==> LastWord(ws, p) == LastWord(init, p);
      assert LastAt(ws, p, last) <==> ws[last].path == p;
      hide LastWord;
      forall i | 0 <= i < last ensures LastAt(ws, p, i) <==> LastAt(init, p, i) && !Settles(ws[last], p) {
        LastAtSnoc(ws, p, i);
      }
      hide LastAt;
    }
  }

  ghost predicate LastAt(ws: seq<Write>, p: string, i: nat) {
    && i < |ws| && ws[i].path == p
    && forall j :: i < j < |ws| ==> !Settles(ws[j], p)
  }

  /** A surviving write decides the lookup. */
  lemma {:induction false} SurvivorDecides(layers: seq<Layer>, p: string, l: nat, i: nat)
    requires Survives(layers, p, l, i)
    ensures TopDown(layers, p) == Some(layers[l].writes[i].entry)
  {
    var last := |layers| - 1;
    LastWordCases(layers[last].writes, p);
    if l == last {
      assert LastAt(layers[l].writes, p, i);
    } else {
      assert Silent(layers[last], p);
      assert Survives(layers[..last], p, l, i);
      SurvivorDecides(layers[..last], p, l, i);
    }
  }

  /** A path that is found has a surviving write. */
  lemma {:induction false} FoundHasSurvivor(layers: seq<Layer>, p: string) returns (l: nat, i: nat)
    requires TopDown(layers, p).Some?
    ensures Survives(layers, p, l, i)
  {
    var last := |layers| - 1;
    var top := layers[last];
    LastWordCases(top.writes, p);
    if LastWord(top.writes, p).Some? {
      l := last;
      i :| 0 <= i < |top.writes| && LastAt(top.writes, p, i);
    } else {
      l, i := FoundHasSurvivor(layers[..last], p);
      assert Silent(top, p);
      forall h | l < h < |layers| ensures Silent(layers[h], p) {
        assert h < last ==> layers[..last][h] == layers[h];
      }
    }
  }

  /** The table holds p exactly when some write at p survives, and holds that
      write's entry: a marker never hides a write of its own layer, and only a
      later write or a higher layer can. */
  lemma ReplayHoldsSurvivors(layers: seq<Layer>, p: string, e: FileEntry)
    ensures p in Replay(layers) && Replay(layers)[p] == e <==>
            exists l: nat, i: nat :: Survives(layers, p, l, i) && layers[l].writes[i].entry == e
  {
    ReplayIsTopDown(layers, p);
    if p in Replay(layers) {
      var l, i := FoundHasSurvivor(layers, p);
      SurvivorDecides(layers, p, l, i);
    }
    if l: nat, i: nat :| Survives(layers, p, l, i) && layers[l].writes[i].entry == e {
      SurvivorDecides(layers, p, l, i);
    }
  }

  /** At most one write of a path survives. */
  lemma SurvivorUnique(layers: seq<Layer>, p: string, l: nat, i: nat, l': nat, i': nat)
    requires Survives(layers, p, l, i) && Survives(layers, p, l', i')
    ensures l == l' && i == i'
  {
    if l < l' {
      assert Silent(layers[l'], p) && Settles(layers[l'].writes[i'], p);
    } else if l' < l {
      assert Silent(layers[l], p) && Settles(layers[l].writes[i], p);
    } else if i < i' {
      assert Settles(layers[l].writes[i'], p);
    } else if i' < i {
      assert Settles(layers[l].writes[i], p);
    }
  }

  function MarkerSet(ws: seq<Whiteout>): set<Whiteout> {
    set w | w in ws
  }

  /** Layers that differ only in the order and repetition of markers. */
  ghost predicate SameButMarkers(a: seq<Layer>, b: seq<Layer>) {
    && |a| == |b|
    && forall l :: 0 <= l < |a| ==>
         a[l].writes == b[l].writes && MarkerSet(a[l].whiteouts) == MarkerSet(b[l].whiteouts)
  }

  lemma MarkersAsSet(a: seq<Whiteout>, b: seq<Whiteout>, p: string)
    requires MarkerSet(a) == MarkerSet(b)
    ensures AnyCovers(a, p) ==> AnyCovers(b, p)
  {
    if k :| 0 <= k < |a| && Covers(a[k], p) {
      assert a[k] in MarkerSet(b);
      var j :| 0 <= j < |b| && b[j] == a[k];
      assert Covers(b[j], p);
    }
  }

  /** Where the markers stand in a layer's tar, and how often one is repeated,
      does not change the table. */
  lemma {:induction false} MarkerOrderIrrelevant(a: seq<Layer>, b: seq<Layer>)
    requires SameButMarkers(a, b)
    ensures Replay(a) == Replay(b)
  {
    if a != [] {
      var last := |a| - 1;
      assert SameButMarkers(a[..last], b[..last]);
      MarkerOrderIrrelevant(a[..last], b[..last]);
      var m := Replay(a[..last]);
      var x, y := ApplyWhiteouts(m, a[last].whiteouts), ApplyWhiteouts(m, b[last].whiteouts);
      forall p ensures Get(x, p) == Get(y, p) {
        WhiteoutsLookup(m, a[last].whiteouts, p);
        WhiteoutsLookup(m, b[last].whiteouts, p);
        MarkersAsSet(a[last].whiteouts, b[last].whiteouts, p);
        MarkersAsSet(b[last].whiteouts, a[last].whiteouts, p);
      }
      SameLookups(x, y);
      assert x == y;
    }
  }

  lemma SameLookups(x: Entries, y: Entries)
    requires forall p :: Get(x, p) == Get(y, p)
    ensures x == y
  {
    forall p ensures p in x <==> p in y
      ensures p in x ==> x[p] == y[p]
    {
      assert Get(x, p) == Get(y, p);
    }
  }

  /** A table key is always the path of some write. */
  lemma KeysWereWritten(layers: seq<Layer>, p: string) returns (l: nat, i: nat)
    requires p in Replay(layers)
    ensures l < |layers| && i < |layers[l].writes|
    ensures layers[l].writes[i] == Write(p, Replay(layers)[p])
  {
    ReplayIsTopDown(layers, p);
    l, i := FoundHasSurvivor(layers, p);
    SurvivorDecides(layers, p, l, i);
  }
}
