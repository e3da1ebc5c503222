/** The lines of a pip-compile lock, the grammar of their sequence, and what
    a grammatical sequence means (scripts/dependency_lock_parser.py). */
module LockGrammar {
  import opened Wrappers

  datatype PinLine = PinLine(name: string, version: string, active: bool)

  /** One line, once classified. A backslash at its end leaves it open. */
  datatype Token =
    | Blank
    | OptionLine
    | BadHash
    | Hash(digest: string, open: bool)
    | BadPin
    | Pin(pin: PinLine, open: bool)

  datatype Block =
    | Filler
    | Options
    | Bare(pin: PinLine)
    | Continued(pin: PinLine, digests: seq<string>)
  {
    predicate Valid() {
      Continued? ==> digests != []
    }

    predicate Active() {
      (Bare? || Continued?) && pin.active
    }
  }

  function Closing(digests: seq<string>): seq<Token> {
    seq(|digests|, i requires 0 <= i < |digests| => Hash(digests[i], i < |digests| - 1))
  }

  function Opening(digests: seq<string>): seq<Token> {
    seq(|digests|, i requires 0 <= i < |digests| => Hash(digests[i], true))
  }

  function TokensOf(b: Block): (ts: seq<Token>)
    ensures ts != []
  {
    match b
    case Filler => [Blank]
    case Options => [OptionLine]
    case Bare(pin) => [Pin(pin, false)]
    case Continued(pin, digests) => [Pin(pin, true)] + Closing(digests)
  }

  function Flatten(blocks: seq<Block>): seq<Token> {
    if blocks == [] then [] else TokensOf(blocks[0]) + Flatten(blocks[1..])
  }

  /** A block that has begun and not ended yet. */
  datatype Partial = Partial(pin: PinLine, digests: seq<string>)

  function OpenTokens(partial: Option<Partial>): seq<Token> {
    match partial
    case None => []
    case Some(p) => [Pin(p.pin, true)] + Opening(p.digests)
  }

  ghost predicate DistinctActive(blocks: seq<Block>) {
    forall i, j :: 0 <= i < j < |blocks| && blocks[i].Active() && blocks[j].Active() ==> blocks[i].pin.name != blocks[j].pin.name
  }

  /** The token sequence is these blocks, with distinct active names. */
  ghost predicate Parses(ts: seq<Token>, blocks: seq<Block>) {
    ts == Flatten(blocks) && AllValid(blocks) && DistinctActive(blocks)
  }

  ghost predicate Grammatical(ts: seq<Token>) {
    exists blocks :: Parses(ts, blocks)
  }

  // ----- What blocks mean -----

  function PinsIn(blocks: seq<Block>): map<string, string> {
    if blocks == [] then map[]
    else
      var b := blocks[|blocks| - 1];
      var before := PinsIn(blocks[..|blocks| - 1]);
      if b.Active() then before[b.pin.name := b.pin.version] else before
  }

  function DigestsOf(b: Block): set<string> {
    if b.Continued? then set d | d in b.digests else {}
  }

  function HashesIn(blocks: seq<Block>): map<string, set<string>> {
    if blocks == [] then map[]
    else
      var b := blocks[|blocks| - 1];
      var before := HashesIn(blocks[..|blocks| - 1]);
      if b.Active() then before[b.pin.name := DigestsOf(b)] else before
  }

  /** The pins and hashes are those of the active blocks, one name each. */
  lemma {:induction false} MeaningIsActive(blocks: seq<Block>, n: string)
    requires DistinctActive(blocks)
    ensures n in PinsIn(blocks) <==> exists b :: b in blocks && b.Active() && b.pin.name == n
    ensures n in PinsIn(blocks) <==> n in HashesIn(blocks)
    ensures forall b :: b in blocks && b.Active() && b.pin.name == n ==>
      n in PinsIn(blocks) && PinsIn(blocks)[n] == b.pin.version && n in HashesIn(blocks) && HashesIn(blocks)[n] == DigestsOf(b)
  {
    if blocks != [] {
      var last := blocks[|blocks| - 1];
      var before := blocks[..|blocks| - 1];
      MeaningIsActive(before, n);
      assert blocks == before + [last];
      MeaningSnoc(before, last);
      forall b | b in blocks && b.Active() && b.pin.name == n
        ensures n in PinsIn(blocks) && PinsIn(blocks)[n] == b.pin.version && n in HashesIn(blocks) && HashesIn(blocks)[n] == DigestsOf(b)
      {
        var i :| 0 <= i < |blocks| && blocks[i] == b;
        assert i < |blocks| - 1 ==> b in before;
      }
      if n in PinsIn(blocks) && !(last.Active() && last.pin.name == n) {
        var b :| b in before && b.Active() && b.pin.name == n;
        assert b in blocks;
      }
    }
  }

  function ActiveOnly(blocks: seq<Block>): seq<Block> {
    if blocks == [] then []
    else ActiveOnly(blocks[..|blocks| - 1]) + if blocks[|blocks| - 1].Active() then [blocks[|blocks| - 1]] else []
  }

  lemma MeaningSnoc(blocks: seq<Block>, b: Block)
    ensures PinsIn(blocks + [b]) == if b.Active() then PinsIn(blocks)[b.pin.name := b.pin.version] else PinsIn(blocks)
    ensures HashesIn(blocks + [b]) == if b.Active() then HashesIn(blocks)[b.pin.name := DigestsOf(b)] else HashesIn(blocks)
  {
    assert (blocks + [b])[..|blocks|] == blocks;
  }

  /** Comments, options and inactive pins with their hashes change nothing. */
  lemma {:induction false} InactiveChangesNothing(blocks: seq<Block>)
    ensures PinsIn(ActiveOnly(blocks)) == PinsIn(blocks) && HashesIn(ActiveOnly(blocks)) == HashesIn(blocks)
  {
    if blocks != [] {
      var last, before := blocks[|blocks| - 1], blocks[..|blocks| - 1];
      InactiveChangesNothing(before);
      assert blocks == before + [last];
      MeaningSnoc(before, last);
      MeaningSnoc(ActiveOnly(before), last);
      ActiveOnlySnoc(before, last);
    }
  }

  lemma ActiveOnlySnoc(blocks: seq<Block>, b: Block)
    ensures ActiveOnly(blocks + [b]) == if b.Active() then ActiveOnly(blocks) + [b] else ActiveOnly(blocks)
  {
    assert (blocks + [b])[..|blocks|] == blocks;
    assert ActiveOnly(blocks) + [] == ActiveOnly(blocks);
  }

  // ----- The grammar is unambiguous -----

  /** How the first block of a flattening shows in its first tokens. */
  lemma FirstBlock(blocks: seq<Block>)
    requires blocks != []
    ensures Flatten(blocks) != [] && Flatten(blocks) == TokensOf(blocks[0]) + Flatten(blocks[1..])
    ensures Flatten(blocks)[0] == TokensOf(blocks[0])[0]
    ensures blocks[0].Continued? ==> forall k :: 0 <= k < |blocks[0].digests| ==>
      k + 1 < |Flatten(blocks)| && Flatten(blocks)[k + 1] == Hash(blocks[0].digests[k], k < |blocks[0].digests| - 1)
  {
    if blocks[0].Continued? {
      forall k | 0 <= k < |blocks[0].digests|
        ensures k + 1 < |Flatten(blocks)| && Flatten(blocks)[k + 1] == Hash(blocks[0].digests[k], k < |blocks[0].digests| - 1)
      {
        assert TokensOf(blocks[0])[k + 1] == Closing(blocks[0].digests)[k];
      }
    }
  }

  /** Blocks that begin alike are the same: no block is a prefix of another. */
  lemma SameFirst(a: Block, b: Block, restA: seq<Token>, restB: seq<Token>)
    requires a.Valid() && b.Valid() && TokensOf(a) + restA == TokensOf(b) + restB
    ensures a == b && restA == restB
  {
    var all := TokensOf(a) + restA;
    assert all[0] == TokensOf(a)[0] && all[0] == TokensOf(b)[0];
    if a.Continued? {
      SameDigests(a, b, restA, restB);
    }
    assert restA == all[|TokensOf(a)|..] && restB == all[|TokensOf(b)|..];
  }

  lemma DigestAt(a: Block, rest: seq<Token>, k: nat)
    requires a.Continued? && k < |a.digests|
    ensures k + 1 < |TokensOf(a) + rest| && (TokensOf(a) + rest)[k + 1] == Hash(a.digests[k], k < |a.digests| - 1)
  {
    assert TokensOf(a)[k + 1] == Closing(a.digests)[k];
  }

  lemma SameDigests(a: Block, b: Block, restA: seq<Token>, restB: seq<Token>)
    requires a.Valid() && b.Valid() && a.Continued? && b.Continued? && TokensOf(a) + restA == TokensOf(b) + restB
    ensures a.digests == b.digests
  {
    hide TokensOf;
    var m, n := |a.digests|, |b.digests|;
    var least := if m < n then m - 1 else n - 1;
    DigestAt(a, restA, least);
    DigestAt(b, restB, least);
    assert m == n;
    forall k | 0 <= k < m ensures a.digests[k] == b.digests[k] {
      DigestAt(a, restA, k);
      DigestAt(b, restB, k);
    }
  }

  ghost predicate AllValid(blocks: seq<Block>) {
    forall b :: b in blocks ==> b.Valid()
  }

  lemma PeelFirst(blocks: seq<Block>, rest: seq<Token>, others: seq<Block>)
    requires AllValid(blocks) && AllValid(others) && blocks != [] && Flatten(blocks) + rest == Flatten(others)
    ensures others != [] && others[0] == blocks[0] && Flatten(blocks[1..]) + rest == Flatten(others[1..])
  {
    hide TokensOf, Flatten, Block.Valid;
    FirstBlock(blocks);
    NotEmpty(others);
    FirstBlock(others);
    Associative(TokensOf(blocks[0]), Flatten(blocks[1..]), rest);
    assert blocks[0] in blocks && others[0] in others;
    SameFirst(blocks[0], others[0], Flatten(blocks[1..]) + rest, Flatten(others[1..]));
  }

  lemma NotEmpty(blocks: seq<Block>)
    ensures Flatten(blocks) != [] ==> blocks != []
  {
  }

  /** What was read as blocks is read as these blocks in every reading. */
  lemma {:induction false} PrefixReading(blocks: seq<Block>, rest: seq<Token>, others: seq<Block>)
    requires AllValid(blocks) && AllValid(others) && Flatten(blocks) + rest == Flatten(others)
    ensures blocks <= others && rest == Flatten(others[|blocks|..])
  {
    if blocks == [] {
      assert Flatten(blocks) + rest == rest;
      assert others[0..] == others;
    } else {
      PeelFirst(blocks, rest, others);
      hide Flatten;
      PrefixReading(blocks[1..], rest, others[1..]);
      assert others[1..][|blocks| - 1..] == others[|blocks|..];
      assert blocks == [blocks[0]] + blocks[1..] && others == [others[0]] + others[1..];
    }
  }

  /** A token sequence has at most one reading. */
  lemma Unambiguous(ts: seq<Token>, a: seq<Block>, b: seq<Block>)
    requires Parses(ts, a) && Parses(ts, b)
    ensures a == b
  {
    assert Flatten(a) + [] == Flatten(b);
    PrefixReading(a, [], b);
    var rest := b[|a|..];
    if rest != [] {
      FirstBlock(rest);
    }
  }

  lemma {:induction false} FlattenSnoc(blocks: seq<Block>, b: Block)
    ensures Flatten(blocks + [b]) == Flatten(blocks) + TokensOf(b)
  {
    hide TokensOf;
    if blocks == [] {
      assert blocks + [b] == [b] && [b][1..] == [];
    } else {
      FlattenSnoc(blocks[1..], b);
      assert (blocks + [b])[1..] == blocks[1..] + [b] && (blocks + [b])[0] == blocks[0];
      Associative(TokensOf(blocks[0]), Flatten(blocks[1..]), TokensOf(b));
    }
  }
}
