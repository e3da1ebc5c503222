/** Writing a lock in pip-compile's layout and reading it back. */
module LockPrinter {
  import opened Wrappers
  import opened LockGrammar
  import opened LockFile

  /** A requirement's text: the parser reads it as this pin, and nothing in it
      is taken for layout. */
  predicate Written(text: string, pin: PinLine, parse: string -> Option<PinLine>) {
    && text != "" && text[0] !in "#-" && !IsSpace(text[0])
    && !IsSpace(text[|text| - 1]) && text[|text| - 1] != '\\'
    && parse(text) == Some(pin)
  }

  function HashLine(digest: string, open: bool): string {
    "    " + SHA256_OPTION + digest + if open then " \\" else ""
  }

  function TokenLine(t: Token, text: PinLine -> string): string {
    match t
    case Blank => "    # via project"
    case OptionLine => "--allow-unsafe"
    case Hash(digest, open) => HashLine(digest, open)
    case Pin(pin, open) => text(pin) + if open then " \\" else ""
    case _ => ""
  }

  function Print(ts: seq<Token>, text: PinLine -> string): seq<string> {
    seq(|ts|, i requires 0 <= i < |ts| => TokenLine(ts[i], text))
  }

  /** What can be printed: real digests, pins whose text is readable. */
  predicate Printable(t: Token, text: PinLine -> string, parse: string -> Option<PinLine>) {
    match t
    case Hash(digest, _) => IsDigest(digest)
    case Pin(pin, _) => Written(text(pin), pin, parse)
    case BadHash => false
    case BadPin => false
    case _ => true
  }

  lemma StripInner(s: string)
    requires s != "" && !IsSpace(s[0]) && !IsSpace(s[|s| - 1])
    ensures Strip(s) == s
  {
  }

  lemma StripIndented(s: string)
    requires s != "" && !IsSpace(s[0]) && !IsSpace(s[|s| - 1])
    ensures Strip("    " + s) == s
  {
    LeftStripOne("   " + s);
    LeftStripOne("  " + s);
    LeftStripOne(" " + s);
    LeftStripOne(s);
    assert " " + ("   " + s) == "    " + s && " " + ("  " + s) == "   " + s && " " + (" " + s) == "  " + s;
    StripInner(s);
  }

  lemma LeftStripOne(s: string)
    ensures LeftStrip(" " + s) == LeftStrip(s)
  {
    assert (" " + s)[1..] == s;
  }

  lemma HashLineReads(digest: string, open: bool, parse: string -> Option<PinLine>)
    requires IsDigest(digest)
    ensures Classify(Strip(HashLine(digest, open)), parse) == Hash(digest, open)
  {
    var tail := if open then " \\" else "";
    var line := SHA256_OPTION + digest + tail;
    assert digest[63] in digest;
    assert HashLine(digest, open) == "    " + line;
    StripIndented(line);
    var n := |SHA256_OPTION|;
    assert line[n..n + 64] == digest && line[n + 64..] == tail;
    assert HASH_OPTION <= SHA256_OPTION <= line;
    assert open ==> tail[..|tail| - 1] == " ";
  }

  lemma PinLineReads(text: string, pin: PinLine, open: bool, parse: string -> Option<PinLine>)
    requires Written(text, pin, parse)
    ensures Classify(Strip(text + if open then " \\" else ""), parse) == Pin(pin, open)
  {
    var line := text + if open then " \\" else "";
    StripInner(line);
    assert line[0] == text[0] && !(HASH_OPTION <= line);
    if open {
      assert RemoveBackslash(line) == text + " ";
      assert (text + " ")[..|text|] == text && (text + " ")[|text|] == ' ';
      assert RightStrip(text + " ") == RightStrip(text) == text;
    } else {
      assert line == text;
    }
  }

  lemma TokenLineReads(t: Token, text: PinLine -> string, parse: string -> Option<PinLine>)
    requires Printable(t, text, parse)
    ensures Classify(Strip(TokenLine(t, text)), parse) == t
  {
    match t {
      case Blank =>
        StripIndented("# via project");
        assert "    " + "# via project" == "    # via project";
      case OptionLine =>
        StripInner("--allow-unsafe");
        assert "--allow-unsafe"[2] != HASH_OPTION[2];
      case Hash(digest, open) => HashLineReads(digest, open, parse);
      case Pin(pin, open) => PinLineReads(text(pin), pin, open, parse);
    }
  }

  /** What was printed is read back, token for token. */
  lemma PrintedIsRead(ts: seq<Token>, text: PinLine -> string, parse: string -> Option<PinLine>)
    requires forall t :: t in ts ==> Printable(t, text, parse)
    ensures Tokens(Print(ts, text), parse) == ts
  {
    forall i | 0 <= i < |ts| ensures Tokens(Print(ts, text), parse)[i] == ts[i] {
      assert ts[i] in ts;
      TokenLineReads(ts[i], text, parse);
    }
  }

  // ----- A whole lock -----

  predicate BlockPrintable(b: Block, text: PinLine -> string, parse: string -> Option<PinLine>) {
    match b
    case Bare(pin) => Written(text(pin), pin, parse)
    case Continued(pin, digests) => Written(text(pin), pin, parse) && forall d :: d in digests ==> IsDigest(d)
    case _ => true
  }

  lemma {:induction false} FlattenPrintable(blocks: seq<Block>, text: PinLine -> string, parse: string -> Option<PinLine>)
    requires forall b :: b in blocks ==> BlockPrintable(b, text, parse)
    ensures forall t :: t in Flatten(blocks) ==> Printable(t, text, parse)
  {
    if blocks != [] {
      FlattenPrintable(blocks[1..], text, parse);
      var b := blocks[0];
      assert b in blocks;
      forall t | t in TokensOf(b) ensures Printable(t, text, parse) {
        if b.Continued? && t != Pin(b.pin, true) {
          var k :| 0 <= k < |Closing(b.digests)| && Closing(b.digests)[k] == t;
          assert b.digests[k] in b.digests;
        }
      }
    }
  }

  /** Round trip: any blocks with distinct active names, printed, are read as
      these very blocks and no others. */
  lemma RoundTrip(blocks: seq<Block>, text: PinLine -> string, parse: string -> Option<PinLine>)
    requires AllValid(blocks) && DistinctActive(blocks)
    requires forall b :: b in blocks ==> BlockPrintable(b, text, parse)
    ensures Parses(Tokens(Print(Flatten(blocks), text), parse), blocks)
    ensures forall others :: Parses(Tokens(Print(Flatten(blocks), text), parse), others) ==> others == blocks
  {
    FlattenPrintable(blocks, text, parse);
    PrintedIsRead(Flatten(blocks), text, parse);
    forall others | Parses(Flatten(blocks), others) ensures others == blocks {
      Unambiguous(Flatten(blocks), others, blocks);
    }
  }

  // ----- From a map of pins -----

  function Canonical(names: seq<string>, pins: map<string, string>, digests: map<string, seq<string>>): seq<Block>
    requires forall n :: n in names ==> n in pins && n in digests
  {
    seq(|names|, i requires 0 <= i < |names| => Continued(PinLine(names[i], pins[names[i]], true), digests[names[i]]))
  }

  function SetOf(digests: seq<string>): set<string> {
    set d | d in digests
  }

  /** Canonical blocks, in whatever order, mean the map they were made from,
      whatever inactive pins, options and comments stand between them. */
  lemma CanonicalMeans(names: seq<string>, pins: map<string, string>, digests: map<string, seq<string>>, blocks: seq<Block>)
    requires forall n :: n in pins <==> n in names
    requires forall n :: n in pins <==> n in digests
    requires forall i, j :: 0 <= i < j < |names| ==> names[i] != names[j]
    requires ActiveOnly(blocks) == Canonical(names, pins, digests)
    ensures PinsIn(blocks) == pins
    ensures HashesIn(blocks) == map n | n in digests :: SetOf(digests[n])
  {
    InactiveChangesNothing(blocks);
    hide PinsIn, HashesIn, ActiveOnly, Canonical;
    CanonicalDistinct(names, pins, digests);
    forall n ensures n in PinsIn(blocks) <==> n in pins
      ensures n in pins ==> PinsIn(blocks)[n] == pins[n]
      ensures n in HashesIn(blocks) <==> n in digests
      ensures n in digests ==> HashesIn(blocks)[n] == SetOf(digests[n])
    {
      CanonicalAt(names, pins, digests, n);
    }
  }

  lemma CanonicalDistinct(names: seq<string>, pins: map<string, string>, digests: map<string, seq<string>>)
    requires forall n :: n in names ==> n in pins && n in digests
    requires forall i, j :: 0 <= i < j < |names| ==> names[i] != names[j]
    ensures DistinctActive(Canonical(names, pins, digests))
  {
  }

  lemma CanonicalAt(names: seq<string>, pins: map<string, string>, digests: map<string, seq<string>>, n: string)
    requires forall n :: n in pins <==> n in names
    requires forall n :: n in pins <==> n in digests
    requires DistinctActive(Canonical(names, pins, digests))
    ensures var c := Canonical(names, pins, digests);
      && (n in PinsIn(c) <==> n in pins) && (n in HashesIn(c) <==> n in digests)
      && (n in pins ==> PinsIn(c)[n] == pins[n] && HashesIn(c)[n] == SetOf(digests[n]))
  {
    hide PinsIn, HashesIn, DistinctActive;
    var canonical := Canonical(names, pins, digests);
    MeaningIsActive(canonical, n);
    if n in pins {
      var i :| 0 <= i < |names| && names[i] == n;
      assert canonical[i] in canonical && canonical[i].Active();
      assert DigestsOf(canonical[i]) == SetOf(digests[n]);
    }
  }

  /** Distinct names in the active part are distinct names in the whole. */
  lemma {:induction false} DistinctWithInactive(blocks: seq<Block>)
    requires DistinctActive(ActiveOnly(blocks))
    ensures DistinctActive(blocks)
    ensures forall b :: b in blocks && b.Active() ==> b in ActiveOnly(blocks)
  {
    if blocks != [] {
      var last, before := blocks[|blocks| - 1], blocks[..|blocks| - 1];
      assert blocks == before + [last];
      ActiveOnlySnoc(before, last);
      var kept := ActiveOnly(before);
      assert DistinctActive(kept) by {
        forall i, j | 0 <= i < j < |kept| && kept[i].Active() && kept[j].Active() ensures kept[i].pin.name != kept[j].pin.name {
          assert ActiveOnly(blocks)[i] == kept[i] && ActiveOnly(blocks)[j] == kept[j];
        }
      }
      DistinctWithInactive(before);
      forall i, j | 0 <= i < j < |blocks| && blocks[i].Active() && blocks[j].Active()
        ensures blocks[i].pin.name != blocks[j].pin.name
      {
        if j == |blocks| - 1 {
          assert before[i] in before;
          var k :| 0 <= k < |kept| && kept[k] == blocks[i];
          assert ActiveOnly(blocks)[k] == blocks[i] && ActiveOnly(blocks)[|kept|] == last;
        } else {
          assert before[i].Active() && before[j].Active();
        }
      }
    }
  }

  /** Any map of pins with their hashes, printed in any order, with inactive
      pins, options and comments anywhere between, is read back unchanged. */
  method ReadBack(names: seq<string>, pins: map<string, string>, digests: map<string, seq<string>>, blocks: seq<Block>,
                  text: PinLine -> string, parse: string -> Option<PinLine>)
    returns (readPins: map<string, string>, readHashes: map<string, set<string>>, ok: bool)
    requires forall n :: n in pins <==> n in names
    requires forall n :: n in pins <==> n in digests
    requires forall i, j :: 0 <= i < j < |names| ==> names[i] != names[j]
    requires ActiveOnly(blocks) == Canonical(names, pins, digests) && AllValid(blocks)
    requires forall b :: b in blocks ==> BlockPrintable(b, text, parse)
    ensures ok && readPins == pins && readHashes == map n | n in digests :: SetOf(digests[n])
  {
    var machine := ParseBody(Print(Flatten(blocks), text), parse);
    DistinctWithInactive(blocks);
    RoundTrip(blocks, text, parse);
    CanonicalMeans(names, pins, digests, blocks);
    return machine.pins, machine.hashes, machine.errors == [];
  }
}
