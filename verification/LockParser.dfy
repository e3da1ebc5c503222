/** The line machine of parse_generated_lock in
    scripts/dependency_lock_parser.py, against the grammar. */
module LockParser {
  import opened Wrappers
  import opened LockGrammar

  datatype Error =
    | Interrupts(line: nat) | InvalidHash(line: nat) | StrayHash(line: nat) | InvalidPin(line: nat)
    | PinnedTwice(name: string) | OpenAtEnd(line: nat)

  // ----- Where reading cannot go on -----

  /** No continuation of ts is grammatical. */
  ghost predicate Hopeless(ts: seq<Token>) {
    forall rest :: !Grammatical(ts + rest)
  }

  lemma HopelessStays(ts: seq<Token>, t: Token)
    requires Hopeless(ts)
    ensures Hopeless(ts + [t])
  {
    forall rest ensures !Grammatical(ts + [t] + rest) {
      assert ts + [t] + rest == ts + ([t] + rest);
    }
  }

  /** The tokens that may follow. */
  predicate Fits(partial: Option<Partial>, t: Token) {
    if partial.Some? then t.Hash? else t.Blank? || t.OptionLine? || t.Pin?
  }

  /** A block cannot start with, or go on with, a token that does not fit. */
  lemma MisfitReading(partial: Option<Partial>, t: Token, rest: seq<Token>, others: seq<Block>)
    requires !Fits(partial, t) && AllValid(others)
    ensures OpenTokens(partial) + [t] + rest != Flatten(others)
  {
    hide Flatten, OpenTokens, Block.Valid;
    match partial
    case Some(p) => MisfitInside(p, t, rest, others);
    case None => MisfitBetween(t, rest, others);
  }

  lemma MisfitInside(p: Partial, t: Token, rest: seq<Token>, others: seq<Block>)
    requires !t.Hash? && AllValid(others)
    ensures OpenTokens(Some(p)) + [t] + rest != Flatten(others)
  {
    hide Flatten, OpenTokens, Block.Valid;
    Associative(OpenTokens(Some(p)), [t], rest);
    if OpenTokens(Some(p)) + ([t] + rest) == Flatten(others) {
      OpenReading(p, [t] + rest, others);
    }
  }

  lemma MisfitBetween(t: Token, rest: seq<Token>, others: seq<Block>)
    requires !Fits(None, t)
    ensures OpenTokens(None) + [t] + rest != Flatten(others)
  {
    hide Flatten;
    assert OpenTokens(None) + [t] + rest == [t] + rest;
    if [t] + rest == Flatten(others) {
      FirstToken(t, rest, others);
    }
  }

  lemma FirstToken(t: Token, rest: seq<Token>, others: seq<Block>)
    requires [t] + rest == Flatten(others)
    ensures t.Blank? || t.OptionLine? || t.Pin?
  {
    hide Flatten;
    NotEmpty(others);
    FirstBlock(others);
    assert Flatten(others)[0] == t;
  }

  lemma OpeningAt(p: Partial, rest: seq<Token>, k: nat)
    requires k < |p.digests|
    ensures k + 1 < |OpenTokens(Some(p)) + rest| && (OpenTokens(Some(p)) + rest)[k + 1] == Hash(p.digests[k], true)
  {
    assert OpenTokens(Some(p))[k + 1] == Opening(p.digests)[k];
  }

  lemma OpeningStart(p: Partial, rest: seq<Token>)
    ensures (OpenTokens(Some(p)) + rest)[0] == Pin(p.pin, true)
    ensures |OpenTokens(Some(p)) + rest| == |p.digests| + 1 + |rest|
    ensures rest != [] ==> (OpenTokens(Some(p)) + rest)[|p.digests| + 1] == rest[0]
  {
  }

  lemma OnlyContinuedOpens(b: Block)
    ensures forall pin :: TokensOf(b)[0] == Pin(pin, true) <==> b.Continued? && b.pin == pin
  {
  }

  /** How a reading starts that starts with an open block. */
  lemma OpenReading(p: Partial, rest: seq<Token>, others: seq<Block>)
    requires AllValid(others) && OpenTokens(Some(p)) + rest == Flatten(others)
    ensures others != [] && others[0].Continued? && others[0].pin == p.pin
    ensures |p.digests| < |others[0].digests| && p.digests == others[0].digests[..|p.digests|]
    ensures rest != [] && rest[0].Hash?
  {
    hide OpenTokens, Flatten, TokensOf;
    OpeningStart(p, rest);
    NotEmpty(others);
    FirstBlock(others);
    OnlyContinuedOpens(others[0]);
    assert others[0] in others;
    var n, m := |p.digests|, |others[0].digests|;
    var least := if m <= n then m - 1 else n;
    if m <= n {
      OpeningAt(p, rest, least);
    }
    var digest := others[0].digests[least];
    assert Flatten(others)[least + 1] == Hash(digest, least < m - 1);
    forall k | 0 <= k < n ensures p.digests[k] == others[0].digests[k] {
      OpeningAt(p, rest, k);
      assert Flatten(others)[k + 1] == Hash(others[0].digests[k], k < m - 1);
    }
  }

  lemma MisfitNotParsed(blocks: seq<Block>, partial: Option<Partial>, t: Token, rest: seq<Token>, others: seq<Block>)
    requires AllValid(blocks) && !Fits(partial, t)
    ensures !Parses(Flatten(blocks) + OpenTokens(partial) + [t] + rest, others)
  {
    hide Flatten, OpenTokens, DistinctActive, Fits, Block.Valid;
    var tail := OpenTokens(partial) + [t] + rest;
    assert Flatten(blocks) + OpenTokens(partial) + [t] + rest == Flatten(blocks) + tail;
    if Flatten(blocks) + tail == Flatten(others) && AllValid(others) {
      PrefixReading(blocks, tail, others);
      MisfitReading(partial, t, rest, others[|blocks|..]);
    }
  }

  lemma MisfitIsHopeless(blocks: seq<Block>, partial: Option<Partial>, t: Token)
    requires AllValid(blocks) && !Fits(partial, t)
    ensures Hopeless(Flatten(blocks) + OpenTokens(partial) + [t])
  {
    hide Flatten, OpenTokens, Parses;
    forall rest, others ensures !Parses(Flatten(blocks) + OpenTokens(partial) + [t] + rest, others) {
      MisfitNotParsed(blocks, partial, t, rest, others);
    }
  }

  lemma DuplicateNotParsed(blocks: seq<Block>, pin: PinLine, open: bool, rest: seq<Token>, others: seq<Block>)
    requires AllValid(blocks) && DistinctActive(blocks) && pin.active && pin.name in PinsIn(blocks)
    ensures !Parses(Flatten(blocks) + [Pin(pin, open)] + rest, others)
  {
    hide Flatten, Block.Valid, PinsIn;
    var tail := [Pin(pin, open)] + rest;
    assert Flatten(blocks) + [Pin(pin, open)] + rest == Flatten(blocks) + tail;
    if Flatten(blocks) + tail == Flatten(others) && AllValid(others) {
      PrefixReading(blocks, tail, others);
      NotEmpty(others[|blocks|..]);
      FirstBlock(others[|blocks|..]);
      MeaningIsActive(blocks, pin.name);
      var b :| b in blocks && b.Active() && b.pin.name == pin.name;
      var i :| 0 <= i < |blocks| && blocks[i] == b;
      assert others[i] == b && others[|blocks|] == others[|blocks|..][0] && others[|blocks|].Active();
    }
  }

  lemma DuplicateIsHopeless(blocks: seq<Block>, pin: PinLine, open: bool)
    requires AllValid(blocks) && DistinctActive(blocks) && pin.active && pin.name in PinsIn(blocks)
    ensures Hopeless(Flatten(blocks) + [Pin(pin, open)])
  {
    hide Flatten, Parses, PinsIn, DistinctActive;
    forall rest, others ensures !Parses(Flatten(blocks) + [Pin(pin, open)] + rest, others) {
      DuplicateNotParsed(blocks, pin, open, rest, others);
    }
  }

  lemma OpenEndIsUngrammatical(blocks: seq<Block>, p: Partial)
    requires AllValid(blocks)
    ensures !Grammatical(Flatten(blocks) + OpenTokens(Some(p)))
  {
    forall others: seq<Block> ensures !Parses(Flatten(blocks) + OpenTokens(Some(p)), others) {
      if Parses(Flatten(blocks) + OpenTokens(Some(p)), others) {
        PrefixReading(blocks, OpenTokens(Some(p)), others);
        assert OpenTokens(Some(p)) + [] == OpenTokens(Some(p));
        OpenReading(p, [], others[|blocks|..]);
      }
    }
  }

  // ----- How a reading goes on -----

  function Unfinished(partial: Option<Partial>): seq<Block> {
    match partial
    case None => []
    case Some(p) => [Continued(p.pin, p.digests)]
  }

  /** The reading of what was seen so far, and what it means. */
  ghost predicate Reads(ts: seq<Token>, blocks: seq<Block>, partial: Option<Partial>,
                        pins: map<string, string>, hashes: map<string, set<string>>)
  {
    && ts == Flatten(blocks) + OpenTokens(partial) && AllValid(blocks)
    && DistinctActive(blocks + Unfinished(partial))
    && pins == PinsIn(blocks + Unfinished(partial)) && hashes == HashesIn(blocks + Unfinished(partial))
  }

  lemma ReadOneLine(ts: seq<Token>, blocks: seq<Block>, t: Token, b: Block, pins: map<string, string>, hashes: map<string, set<string>>)
    requires Reads(ts, blocks, None, pins, hashes) && b.Valid() && !b.Continued? && TokensOf(b) == [t]
    requires b.Active() ==> b.pin.name !in pins
    ensures Reads(ts + [t], blocks + [b], None, PinsIn(blocks + [b]), HashesIn(blocks + [b]))
    ensures PinsIn(blocks + [b]) == if b.Active() then pins[b.pin.name := b.pin.version] else pins
    ensures HashesIn(blocks + [b]) == if b.Active() then hashes[b.pin.name := {}] else hashes
  {
    assert blocks + Unfinished(None) == blocks && ts + OpenTokens(None) == ts;
    assert blocks + [b] + Unfinished(None) == blocks + [b];
    FlattenSnoc(blocks, b);
    MeaningSnoc(blocks, b);
    DistinctSnoc(blocks, b);
  }

  lemma DistinctSnoc(blocks: seq<Block>, b: Block)
    requires DistinctActive(blocks) && (b.Active() ==> b.pin.name !in PinsIn(blocks))
    ensures DistinctActive(blocks + [b])
  {
    if b.Active() {
      MeaningIsActive(blocks, b.pin.name);
      forall i | 0 <= i < |blocks| && blocks[i].Active() ensures blocks[i].pin.name != b.pin.name {
        assert blocks[i] in blocks;
      }
    }
  }

  lemma ReadOpening(ts: seq<Token>, blocks: seq<Block>, pin: PinLine, pins: map<string, string>, hashes: map<string, set<string>>)
    requires Reads(ts, blocks, None, pins, hashes) && (pin.active ==> pin.name !in pins)
    ensures Reads(ts + [Pin(pin, true)], blocks, Some(Partial(pin, [])),
                  if pin.active then pins[pin.name := pin.version] else pins,
                  if pin.active then hashes[pin.name := {}] else hashes)
  {
    var b := Continued(pin, []);
    assert blocks + Unfinished(None) == blocks;
    assert ts == Flatten(blocks);
    assert OpenTokens(Some(Partial(pin, []))) == [Pin(pin, true)];
    DistinctSnoc(blocks, b);
    MeaningSnoc(blocks, b);
    assert DigestsOf(b) == {};
  }

  function WithDigest(p: Partial, digest: string, hashes: map<string, set<string>>): map<string, set<string>> {
    if p.pin.active && p.pin.name in hashes then hashes[p.pin.name := hashes[p.pin.name] + {digest}] else hashes
  }

  /** One digest more in the last block. */
  lemma DigestAdded(blocks: seq<Block>, p: Partial, digest: string)
    requires DistinctActive(blocks + Unfinished(Some(p)))
    ensures var b, all := Continued(p.pin, p.digests + [digest]), blocks + Unfinished(Some(p));
      && DistinctActive(blocks + [b])
      && PinsIn(blocks + [b]) == PinsIn(all)
      && HashesIn(blocks + [b]) == WithDigest(p, digest, HashesIn(all))
      && (p.pin.active ==> p.pin.name in HashesIn(all))
  {
    var a, b := Continued(p.pin, p.digests), Continued(p.pin, p.digests + [digest]);
    assert DigestsOf(b) == DigestsOf(a) + {digest};
    SameNameDistinct(blocks, a, b);
    MeaningSnoc(blocks, a);
    MeaningSnoc(blocks, b);
  }

  lemma ReadHashOpen(ts: seq<Token>, blocks: seq<Block>, p: Partial, digest: string, pins: map<string, string>, hashes: map<string, set<string>>)
    requires Reads(ts, blocks, Some(p), pins, hashes)
    ensures p.pin.active ==> p.pin.name in hashes
    ensures Reads(ts + [Hash(digest, true)], blocks, Some(Partial(p.pin, p.digests + [digest])), pins, WithDigest(p, digest, hashes))
  {
    hide Flatten, PinsIn, HashesIn, DistinctActive;
    DigestAdded(blocks, p, digest);
    assert Opening(p.digests + [digest]) == Opening(p.digests) + [Hash(digest, true)];
    assert OpenTokens(Some(Partial(p.pin, p.digests + [digest]))) == OpenTokens(Some(p)) + [Hash(digest, true)];
  }

  lemma ReadHashClosed(ts: seq<Token>, blocks: seq<Block>, p: Partial, digest: string, pins: map<string, string>, hashes: map<string, set<string>>)
    requires Reads(ts, blocks, Some(p), pins, hashes)
    ensures p.pin.active ==> p.pin.name in hashes
    ensures Reads(ts + [Hash(digest, false)], blocks + [Continued(p.pin, p.digests + [digest])], None, pins, WithDigest(p, digest, hashes))
  {
    hide Flatten, PinsIn, HashesIn, DistinctActive;
    var b := Continued(p.pin, p.digests + [digest]);
    DigestAdded(blocks, p, digest);
    assert Closing(p.digests + [digest]) == Opening(p.digests) + [Hash(digest, false)];
    assert TokensOf(b) == OpenTokens(Some(p)) + [Hash(digest, false)];
    FlattenSnoc(blocks, b);
    assert blocks + [b] + Unfinished(None) == blocks + [b];
  }

  lemma SameNameDistinct(blocks: seq<Block>, a: Block, b: Block)
    requires DistinctActive(blocks + [a]) && a.Continued? && b.Continued? && a.pin == b.pin
    ensures DistinctActive(blocks + [b])
  {
    forall i, j | 0 <= i < j < |blocks + [b]| && (blocks + [b])[i].Active() && (blocks + [b])[j].Active()
      ensures (blocks + [b])[i].pin.name != (blocks + [b])[j].pin.name
    {
      assert (blocks + [a])[i].Active() && (blocks + [a])[j].Active();
    }
  }

  // ----- The machine -----

  class LockMachine {
    var pins: map<string, string>
    var hashes: map<string, set<string>>
    var currentName: Option<string>
    var continuationOpen: bool
    var ignoredContinuation: bool
    var errors: seq<Error>

    // How the lines up to the first error read.
    ghost var blocks: seq<Block>
    ghost var partial: Option<Partial>

    constructor ()
      ensures Valid([]) && errors == []
    {
      pins, hashes, errors := map[], map[], [];
      currentName, continuationOpen, ignoredContinuation := None, false, false;
      blocks, partial := [], None;
    }

    /** Whatever the lines were: pins and hashes have the same keys, and an open
        continuation belongs to a name or is ignored, never both or neither. */
    ghost predicate Tidy()
      reads this
    {
      && pins.Keys == hashes.Keys
      && (currentName.Some? ==> currentName.value in hashes)
      && (continuationOpen ==> (currentName.Some? <==> !ignoredContinuation))
    }

    /** Without errors the machine knows how the lines read; with one they are
        beyond repair. */
    ghost predicate Valid(ts: seq<Token>)
      reads this
    {
      && Tidy()
      && (errors == [] ==> Reads(ts, blocks, partial, pins, hashes) && Follows())
      && (errors != [] ==> Hopeless(ts))
    }

    /** As Valid, with the next line's token known. */
    ghost predicate Ready(ts: seq<Token>, t: Token)
      reads this
    {
      && Tidy()
      && (errors == [] ==> Reads(ts, blocks, partial, pins, hashes) && Follows())
      && (errors != [] ==> Hopeless(ts + [t]))
    }

    ghost predicate Follows()
      reads this
    {
      && (continuationOpen <==> partial.Some?)
      && (partial.Some? ==> currentName == if partial.value.pin.active then Some(partial.value.pin.name) else None)
    }

    /** An error at this line, after which nothing is continued. */
    method Reject(error: Error, t: Token, ghost ts: seq<Token>)
      requires Ready(ts, t) && (errors == [] ==> !Fits(partial, t))
      modifies this
      ensures Valid(ts + [t]) && errors == old(errors) + [error] && !continuationOpen && currentName.None?
      ensures pins == old(pins) && hashes == old(hashes)
    {
      if errors == [] {
        Misfit(ts, blocks, partial, t, pins, hashes);
      }
      errors := errors + [error];
      currentName, continuationOpen, ignoredContinuation := None, false, false;
    }

    method TakeBlank(number: nat, ghost ts: seq<Token>)
      requires Ready(ts, Blank)
      modifies this
      ensures Valid(ts + [Blank])
      ensures errors == if old(continuationOpen) then old(errors) + [Interrupts(number)] else old(errors)
    {
      hide Reads, Hopeless;
      if continuationOpen {
        Reject(Interrupts(number), Blank, ts);
        return;
      }
      if errors == [] {
        ReadOneLine(ts, blocks, Blank, Filler, pins, hashes);
        blocks := blocks + [Filler];
      }
    }

    /** A --hash= line; t is Hash or BadHash. */
    method TakeHash(t: Token, number: nat, ghost ts: seq<Token>)
      requires Ready(ts, t) && (t.Hash? || t.BadHash?)
      modifies this
      ensures Valid(ts + [t])
      ensures errors == if t.BadHash? then old(errors) + [InvalidHash(number)]
                        else if !old(continuationOpen) then old(errors) + [StrayHash(number)] else old(errors)
    {
      hide Reads, Hopeless;
      if t.BadHash? {
        Reject(InvalidHash(number), t, ts);
      } else if !continuationOpen || (currentName.None? && !ignoredContinuation) {
        Reject(StrayHash(number), t, ts);
      } else {
        if errors == [] {
          ReadHashOpen(ts, blocks, partial.value, t.digest, pins, hashes);
          ReadHashClosed(ts, blocks, partial.value, t.digest, pins, hashes);
        }
        ghost var p, known := partial, errors == [];
        if currentName.Some? {
          hashes := hashes[currentName.value := hashes[currentName.value] + {t.digest}];
        }
        continuationOpen := t.open;
        if !continuationOpen {
          currentName, ignoredContinuation := None, false;
        }
        if known {
          blocks := if t.open then blocks else blocks + [Continued(p.value.pin, p.value.digests + [t.digest])];
          partial := if t.open then Some(Partial(p.value.pin, p.value.digests + [t.digest])) else None;
        }
      }
    }

    method TakeOption(ghost ts: seq<Token>)
      requires Ready(ts, OptionLine) && !continuationOpen
      modifies this
      ensures Valid(ts + [OptionLine]) && errors == old(errors)
    {
      hide Reads, Hopeless;
      if errors == [] {
        ReadOneLine(ts, blocks, OptionLine, Options, pins, hashes);
        blocks := blocks + [Options];
      }
      currentName, continuationOpen, ignoredContinuation := None, false, false;
    }

    method TakeInactivePin(pin: PinLine, open: bool, ghost ts: seq<Token>)
      requires Ready(ts, Pin(pin, open)) && !continuationOpen && !pin.active
      modifies this
      ensures Valid(ts + [Pin(pin, open)]) && errors == old(errors)
    {
      hide Reads, Hopeless;
      if errors == [] && open {
        ReadOpening(ts, blocks, pin, pins, hashes);
        partial := Some(Partial(pin, []));
      } else if errors == [] {
        ReadOneLine(ts, blocks, Pin(pin, open), Bare(pin), pins, hashes);
        blocks := blocks + [Bare(pin)];
      }
      continuationOpen := open;
      currentName, ignoredContinuation := None, open;
    }

    method TakeNewPin(pin: PinLine, open: bool, ghost ts: seq<Token>)
      requires Ready(ts, Pin(pin, open)) && !continuationOpen && pin.active && pin.name !in pins
      modifies this
      ensures Valid(ts + [Pin(pin, open)]) && errors == old(errors)
    {
      hide Reads, Hopeless;
      if errors == [] && open {
        ReadOpening(ts, blocks, pin, pins, hashes);
        partial := Some(Partial(pin, []));
      } else if errors == [] {
        ReadOneLine(ts, blocks, Pin(pin, open), Bare(pin), pins, hashes);
        blocks := blocks + [Bare(pin)];
      }
      continuationOpen := open;
      currentName, ignoredContinuation := Some(pin.name), false;
      hashes := hashes[pin.name := {}];
      pins := pins[pin.name := pin.version];
    }

    /** The name stays current, so the hashes that follow join the first ones. */
    method TakePinAgain(pin: PinLine, open: bool, ghost ts: seq<Token>)
      requires Ready(ts, Pin(pin, open)) && !continuationOpen && pin.active && pin.name in pins
      modifies this
      ensures Valid(ts + [Pin(pin, open)]) && errors == old(errors) + [PinnedTwice(pin.name)]
    {
      hide Reads, Hopeless;
      if errors == [] {
        Twice(ts, blocks, pin, open, pins, hashes);
      }
      continuationOpen := open;
      currentName, ignoredContinuation := Some(pin.name), false;
      errors := errors + [PinnedTwice(pin.name)];
    }

    /** A requirement that parsed, when nothing was left open. */
    method TakePin(pin: PinLine, open: bool, ghost ts: seq<Token>)
      requires Ready(ts, Pin(pin, open)) && !continuationOpen
      modifies this
      ensures Valid(ts + [Pin(pin, open)])
      ensures errors == if pin.active && pin.name in old(pins) then old(errors) + [PinnedTwice(pin.name)] else old(errors)
    {
      hide Reads, Hopeless;
      if !pin.active {
        TakeInactivePin(pin, open, ts);
      } else if pin.name in pins {
        TakePinAgain(pin, open, ts);
      } else {
        TakeNewPin(pin, open, ts);
      }
    }

    /** A line that is no requirement: without an error it is reported as one. */
    method TakeBadPin(number: nat, ghost ts: seq<Token>)
      requires Ready(ts, BadPin) && !continuationOpen
      modifies this
      ensures Valid(ts + [BadPin]) && errors == old(errors) + [InvalidPin(number)]
    {
      hide Reads, Hopeless;
      Reject(InvalidPin(number), BadPin, ts);
    }

    /** The error of a line that interrupts, which is then still to be taken. */
    method Interrupt(t: Token, number: nat, ghost ts: seq<Token>)
      requires Ready(ts, t) && continuationOpen && !t.Hash?
      modifies this
      ensures Ready(ts, t) && !continuationOpen && errors == old(errors) + [Interrupts(number)]
      ensures pins == old(pins) && hashes == old(hashes)
    {
      hide Reads, Hopeless;
      if errors == [] {
        Misfit(ts, blocks, partial, t, pins, hashes);
      }
      errors := errors + [Interrupts(number)];
      currentName, continuationOpen, ignoredContinuation := None, false, false;
    }

    /** One classified line. */
    method Step(t: Token, number: nat, ghost ts: seq<Token>)
      requires Valid(ts)
      modifies this
      ensures Valid(ts + [t])
      ensures old(errors) <= errors
    {
      hide Reads, Hopeless, Fits;
      if errors != [] {
        HopelessStays(ts, t);
      }
      if t.Blank? {
        TakeBlank(number, ts);
        return;
      }
      if t.Hash? || t.BadHash? {
        TakeHash(t, number, ts);
        return;
      }
      if continuationOpen {
        Interrupt(t, number, ts);
      }
      match t {
        case OptionLine => TakeOption(ts);
        case BadPin => TakeBadPin(number, ts);
        case Pin(pin, open) => TakePin(pin, open, ts);
      }
    }
  }

  lemma Misfit(ts: seq<Token>, blocks: seq<Block>, partial: Option<Partial>, t: Token, pins: map<string, string>, hashes: map<string, set<string>>)
    requires Reads(ts, blocks, partial, pins, hashes) && !Fits(partial, t)
    ensures Hopeless(ts + [t])
  {
    MisfitIsHopeless(blocks, partial, t);
  }

  lemma Twice(ts: seq<Token>, blocks: seq<Block>, pin: PinLine, open: bool, pins: map<string, string>, hashes: map<string, set<string>>)
    requires Reads(ts, blocks, None, pins, hashes) && pin.active && pin.name in pins
    ensures Hopeless(ts + [Pin(pin, open)])
  {
    assert blocks + Unfinished(None) == blocks && Flatten(blocks) + OpenTokens(None) == Flatten(blocks);
    DuplicateIsHopeless(blocks, pin, open);
  }
}
