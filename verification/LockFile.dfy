/** From the text of a lock to its tokens and back, and parse_generated_lock
    of scripts/dependency_lock_parser.py as a whole. */
module LockFile {
  import opened Wrappers
  import opened LockGrammar
  import opened LockParser

  // ----- Lines -----

  /** What str.strip() removes and \s matches. */
  predicate IsSpace(c: char) {
    || c in " \t\n\r" || '\U{B}' <= c <= '\U{C}' || '\U{1C}' <= c <= '\U{1F}'
    || c == '\U{85}' || c == '\U{A0}' || c == '\U{1680}' || '\U{2000}' <= c <= '\U{200A}'
    || c == '\U{2028}' || c == '\U{2029}' || c == '\U{202F}' || c == '\U{205F}' || c == '\U{3000}'
  }

  function LeftStrip(s: string): string {
    if s != "" && IsSpace(s[0]) then LeftStrip(s[1..]) else s
  }

  function RightStrip(s: string): string {
    if s != "" && IsSpace(s[|s| - 1]) then RightStrip(s[..|s| - 1]) else s
  }

  function Strip(s: string): string {
    RightStrip(LeftStrip(s))
  }

  predicate EndsOpen(line: string) {
    line != "" && line[|line| - 1] == '\\'
  }

  function RemoveBackslash(line: string): string {
    if EndsOpen(line) then line[..|line| - 1] else line
  }

  predicate IsHex(c: char) {
    '0' <= c <= '9' || 'a' <= c <= 'f'
  }

  predicate IsDigest(s: string) {
    |s| == 64 && forall c :: c in s ==> IsHex(c)
  }

  const HASH_OPTION := "--hash="
  const SHA256_OPTION := "--hash=sha256:"

  /** The hash option's pattern: a digest, then perhaps space and a backslash. */
  function HashToken(line: string): Token {
    var n := |SHA256_OPTION|;
    if |line| < n + 64 || !(SHA256_OPTION <= line) || !IsDigest(line[n..n + 64]) then BadHash
    else
      var digest, rest := line[n..n + 64], line[n + 64..];
      if rest == "" then Hash(digest, false)
      else if |rest| >= 2 && EndsOpen(rest) && (forall c :: c in rest[..|rest| - 1] ==> IsSpace(c)) then Hash(digest, true)
      else BadHash
  }

  /** Classifies a stripped line; parse stands for parse_exact_pin, with the
      name canonical and the marker evaluated. */
  function Classify(line: string, parse: string -> Option<PinLine>): Token {
    if line == "" || line[0] == '#' then Blank
    else if HASH_OPTION <= line then HashToken(line)
    else if line[0] == '-' then OptionLine
    else
      match parse(RightStrip(RemoveBackslash(line)))
      case None => BadPin
      case Some(pin) => Pin(pin, EndsOpen(line))
  }

  function Tokens(lines: seq<string>, parse: string -> Option<PinLine>): seq<Token> {
    seq(|lines|, i requires 0 <= i < |lines| => Classify(Strip(lines[i]), parse))
  }

  // ----- The header and the footer -----

  const GENERATOR := "# This file is autogenerated by pip-compile with Python 3.12"
  const FOOTER := "# The following packages are considered to be unsafe in a requirements file:"

  function Head(lines: seq<string>, n: nat): seq<string> {
    if |lines| < n then lines else lines[..n]
  }

  predicate Installer(line: string) {
    line == "# pip" || line == "# setuptools"
  }

  /** The first line after i with something in it names an installer. */
  ghost predicate FooterAt(lines: seq<string>, i: nat) {
    && i < |lines| && lines[i] == FOOTER
    && exists j :: i < j < |lines| && Installer(Strip(lines[j])) && forall k :: i < k < j ==> Strip(lines[k]) == ""
  }

  ghost predicate HasFooter(lines: seq<string>) {
    exists i :: FooterAt(lines, i)
  }

  method HasUnsafeOmissionFooter(lines: seq<string>) returns (found: bool)
    ensures found <==> HasFooter(lines)
  {
    var i := 0;
    while i < |lines|
      invariant i <= |lines| && forall k :: 0 <= k < i ==> !FooterAt(lines, k)
    {
      if lines[i] == FOOTER {
        var j := i + 1;
        while j < |lines| && Strip(lines[j]) == ""
          invariant i < j <= |lines| && forall k :: i < k < j ==> Strip(lines[k]) == ""
        {
          j := j + 1;
        }
        assert !Installer("");
        if j < |lines| && Installer(Strip(lines[j])) {
          assert FooterAt(lines, i);
          return true;
        }
        assert !FooterAt(lines, i);
      }
      i := i + 1;
    }
    return false;
  }

  // ----- parse_generated_lock -----

  datatype LockError = Unreadable | NoGenerator | WrongCommand | UnsafeFooter | Body(error: Error)

  /** The loop over the lines and what follows it. */
  method ParseBody(lines: seq<string>, parse: string -> Option<PinLine>) returns (machine: LockMachine)
    ensures machine.pins.Keys == machine.hashes.Keys
    ensures machine.errors == [] <==> Grammatical(Tokens(lines, parse))
    ensures forall blocks :: Parses(Tokens(lines, parse), blocks) ==>
      machine.pins == PinsIn(blocks) && machine.hashes == HashesIn(blocks)
    ensures fresh(machine)
  {
    hide Classify, Strip, Grammatical, Reads, Hopeless;
    var ts := Tokens(lines, parse);
    machine := new LockMachine();
    var i := 0;
    while i < |lines|
      invariant i <= |lines| && machine.Valid(ts[..i])
    {
      machine.Step(Classify(Strip(lines[i]), parse), i + 1, ts[..i]);
      assert ts[..i] + [ts[i]] == ts[..i + 1];
      i := i + 1;
    }
    assert ts[..i] == ts;
    Ending(machine, ts);
    if machine.continuationOpen {
      machine.errors := machine.errors + [OpenAtEnd(|lines|)];
    }
  }

  lemma Ending(machine: LockMachine, ts: seq<Token>)
    requires machine.Valid(ts)
    ensures Grammatical(ts) <==> machine.errors == [] && !machine.continuationOpen
    ensures forall blocks :: Parses(ts, blocks) ==> machine.pins == PinsIn(blocks) && machine.hashes == HashesIn(blocks)
  {
    var blocks := machine.blocks;
    if machine.errors != [] {
      assert ts + [] == ts;
    } else if machine.continuationOpen {
      OpenEndIsUngrammatical(blocks, machine.partial.value);
    } else {
      assert blocks + Unfinished(None) == blocks && Flatten(blocks) + OpenTokens(None) == Flatten(blocks);
      assert Parses(ts, blocks);
      forall others | Parses(ts, others) ensures others == blocks {
        Unambiguous(ts, others, blocks);
      }
    }
  }

  /** The parser as a whole: no error exactly for a readable file with the right
      header, no footer about omitted installers, and grammatical lines; and
      then the pins and hashes of the only reading there is. */
  method ParseGeneratedLock(file: Option<seq<string>>, command: string, parse: string -> Option<PinLine>)
    returns (pins: map<string, string>, hashes: map<string, set<string>>, errors: seq<LockError>)
    ensures file.None? ==> pins == map[] && hashes == map[] && errors == [Unreadable]
    ensures file.Some? ==>
      (errors == [] <==> GENERATOR in Head(file.value, 5) && "#    " + command in Head(file.value, 12)
                         && !HasFooter(file.value) && Grammatical(Tokens(file.value, parse)))
    ensures pins.Keys == hashes.Keys
    ensures file.Some? ==> forall blocks :: Parses(Tokens(file.value, parse), blocks) ==>
      pins == PinsIn(blocks) && hashes == HashesIn(blocks)
  {
    if file.None? {
      return map[], map[], [Unreadable];
    }
    var lines := file.value;
    errors := [];
    if GENERATOR !in Head(lines, 5) {
      errors := errors + [NoGenerator];
    }
    if "#    " + command !in Head(lines, 12) {
      errors := errors + [WrongCommand];
    }
    var footer := HasUnsafeOmissionFooter(lines);
    if footer {
      errors := errors + [UnsafeFooter];
    }
    var machine := ParseBody(lines, parse);
    errors := errors + seq(|machine.errors|, i requires 0 <= i < |machine.errors| reads machine => Body(machine.errors[i]));
    return machine.pins, machine.hashes, errors;
  }
}
