/** Which event sequences _StrictHtmlScanner accepts, and what its recovery
    keeps; and the offset arithmetic of scripts/i18n_inventory.py. */
module HtmlAcceptance {
  import opened Wrappers
  import opened HtmlScanner

  predicate TagError(p: Problem) {
    !p.ChildOfBound?
  }

  ghost predicate NoTagErrors(errors: seq<Problem>) {
    forall p :: p in errors ==> !TagError(p)
  }

  const START := State([], [], [])

  /** The scanner's errors after finish. */
  function Report(es: seq<Event>, literal: Literal): seq<Problem> {
    var s := Run(START, es, literal);
    s.errors + UnclosedErrors(s.stack)
  }

  // ----- Reading the events as a document -----

  /** A document of which some elements are still open: what came before, and
      inside which element. */
  datatype Opened =
    | Top(before: seq<Node>)
    | Inside(outer: Opened, frame: Frame, before: seq<Node>)

  function OpenEvents(o: Opened): seq<Event> {
    match o
    case Top(before) => Serialize(before)
    case Inside(outer, frame, before) =>
      OpenEvents(outer) + [Start(frame.tag, false, frame.textBound, frame.at)] + Serialize(before)
  }

  function Frames(o: Opened): seq<Frame> {
    match o
    case Top(_) => []
    case Inside(outer, frame, _) => Frames(outer) + [frame]
  }

  predicate OpenWellTagged(o: Opened) {
    && WellTagged(o.before)
    && (o.Inside? ==> o.frame.tag !in VOID_HTML_TAGS && OpenWellTagged(o.outer))
  }

  function Add(o: Opened, n: Node): Opened {
    match o
    case Top(before) => Top(before + [n])
    case Inside(outer, frame, before) => Inside(outer, frame, before + [n])
  }

  function EventsOf(n: Node): seq<Event> {
    Serialize([n])
  }

  lemma SerializeSnoc(doc: seq<Node>, n: Node)
    ensures Serialize(doc + [n]) == Serialize(doc) + EventsOf(n)
  {
    assert (doc + [n])[..|doc|] == doc;
    assert [n][..0] == [];
    assert Serialize([n][..0]) == [];
  }

  lemma AddNode(o: Opened, n: Node)
    requires OpenWellTagged(o) && WellTaggedNode(n)
    ensures OpenEvents(Add(o, n)) == OpenEvents(o) + EventsOf(n)
    ensures Frames(Add(o, n)) == Frames(o) && OpenWellTagged(Add(o, n))
  {
    SerializeSnoc(o.before, n);
  }

  lemma CloseElement(o: Opened, at: Position)
    requires o.Inside? && OpenWellTagged(o)
    ensures var n := Element(o.frame.tag, o.frame.textBound, o.frame.at, o.before, at);
      && WellTaggedNode(n)
      && OpenEvents(Add(o.outer, n)) == OpenEvents(o) + [End(o.frame.tag, at)]
      && Frames(Add(o.outer, n)) == Frames(o)[..|Frames(o)| - 1] && OpenWellTagged(Add(o.outer, n))
  {
    var n := Element(o.frame.tag, o.frame.textBound, o.frame.at, o.before, at);
    AddNode(o.outer, n);
    ElementEvents(n);
  }

  lemma ElementEvents(n: Node)
    requires n.Element?
    ensures EventsOf(n) == [Start(n.tag, false, n.bound, n.at)] + Serialize(n.kids) + [End(n.tag, n.endAt)]
  {
    assert [n][..0] == [];
    assert Serialize([n][..0]) == [];
  }

  lemma LeafEvents(n: Node)
    requires !n.Element?
    ensures EventsOf(n) == [if n.Childless? then Start(n.tag, n.selfClosed, n.bound, n.at) else Data(n.text, n.at)]
  {
    assert [n][..0] == [];
    assert Serialize([n][..0]) == [];
  }

  ghost predicate ReadAs(es: seq<Event>, o: Opened, stack: seq<Frame>) {
    OpenWellTagged(o) && OpenEvents(o) == es && Frames(o) == stack
  }

  lemma OpenOne(es: seq<Event>, o: Opened, stack: seq<Frame>, e: Event)
    requires ReadAs(es, o, stack) && Pushes(e)
    ensures ReadAs(es + [e], Inside(o, Frame(e.tag, e.bound, e.at), []), stack + [Frame(e.tag, e.bound, e.at)])
  {
    assert e == Start(e.tag, false, e.bound, e.at);
  }

  lemma LeafOne(es: seq<Event>, o: Opened, stack: seq<Frame>, n: Node)
    requires ReadAs(es, o, stack) && !n.Element? && WellTaggedNode(n)
    ensures ReadAs(es + EventsOf(n), Add(o, n), stack)
  {
    AddNode(o, n);
  }

  /** As long as there was no tag error, the events are those of a document
      whose open elements are the stack. */
  lemma {:induction false} Readable(es: seq<Event>, literal: Literal)
    requires NoTagErrors(Run(START, es, literal).errors)
    ensures exists o :: ReadAs(es, o, Run(START, es, literal).stack)
    decreases |es|
  {
    if es == [] {
      assert ReadAs([], Top([]), []);
    } else {
      var init, e := es[..|es| - 1], es[|es| - 1];
      var s := Run(START, init, literal);
      assert es == init + [e];
      ErrorsGrow(s, e, literal);
      Readable(init, literal);
      var o :| ReadAs(init, o, s.stack);
      match e {
        case Start(tag, selfClosed, bound, at) =>
          if Pushes(e) {
            OpenOne(init, o, s.stack, e);
          } else {
            LeafEvents(Childless(tag, selfClosed, bound, at));
            LeafOne(init, o, s.stack, Childless(tag, selfClosed, bound, at));
          }
        case Data(text, at) =>
          LeafEvents(Text(text, at));
          LeafOne(init, o, s.stack, Text(text, at));
        case End(tag, at) =>
          EndMatches(s, tag, at, literal);
          assert o.Inside?;
          CloseElement(o, at);
          assert ReadAs(es, Add(o.outer, Element(o.frame.tag, o.frame.textBound, o.frame.at, o.before, at)), s.stack[..|s.stack| - 1]);
      }
    }
  }

  lemma ErrorsGrow(s: State, e: Event, literal: Literal)
    ensures s.errors <= Step(s, e, literal).errors
    ensures NoTagErrors(Step(s, e, literal).errors) ==> NoTagErrors(s.errors)
  {
    var t := Step(s, e, literal);
    assert s.errors <= t.errors;
    forall p | p in s.errors ensures p in t.errors {
      var i :| 0 <= i < |s.errors| && s.errors[i] == p;
      assert t.errors[i] == p;
    }
  }

  lemma EndMatches(s: State, tag: string, at: Position, literal: Literal)
    requires NoTagErrors(Step(s, End(tag, at), literal).errors)
    ensures s.stack != [] && s.stack[|s.stack| - 1].tag == tag
  {
    var t := Step(s, End(tag, at), literal);
    assert |t.errors| > |s.errors| ==> t.errors[|s.errors|] in t.errors;
  }

  // ----- Acceptance -----

  lemma {:induction false} UnclosedAreTagErrors(stack: seq<Frame>)
    ensures NoTagErrors(UnclosedErrors(stack)) <==> stack == []
  {
    if stack != [] {
      assert UnclosedErrors(stack)[0] in UnclosedErrors(stack);
    }
  }

  lemma {:induction false} BoundChildrenAreNoTagErrors(doc: seq<Node>, above: seq<Frame>)
    ensures NoTagErrors(BoundChildren(doc, above))
    decreases doc
  {
    if doc != [] {
      var init, n := doc[..|doc| - 1], doc[|doc| - 1];
      BoundChildrenAreNoTagErrors(init, above);
      if n.Element? {
        BoundChildrenAreNoTagErrors(n.kids, above + [Frame(n.tag, n.bound, n.at)]);
      }
    }
  }

  /** What a whole document reports: the children of bound elements, and no
      unexpected, misnested or unclosed tag. */
  lemma DocumentReport(doc: seq<Node>, literal: Literal)
    requires WellTagged(doc)
    ensures Report(Serialize(doc), literal) == BoundChildren(doc, [])
    ensures NoTagErrors(Report(Serialize(doc), literal))
    ensures Run(START, Serialize(doc), literal).findings == Collect(doc, [], literal)
  {
    DocumentRun(START, doc, literal);
    BoundChildrenAreNoTagErrors(doc, []);
    assert [] + BoundChildren(doc, []) + [] == BoundChildren(doc, []);
    assert [] + Collect(doc, [], literal) == Collect(doc, [], literal);
  }

  /** The scanner reports no unexpected, misnested or unclosed tag exactly for
      the serializations of documents: start and end tags form a Dyck word. */
  lemma AcceptsDocuments(es: seq<Event>, literal: Literal)
    ensures NoTagErrors(Report(es, literal)) <==> exists doc :: WellTagged(doc) && Serialize(doc) == es
  {
    var s := Run(START, es, literal);
    if NoTagErrors(Report(es, literal)) {
      assert forall p :: p in s.errors ==> p in Report(es, literal);
      assert forall p :: p in UnclosedErrors(s.stack) ==> p in Report(es, literal);
      UnclosedAreTagErrors(s.stack);
      Readable(es, literal);
      var o :| ReadAs(es, o, s.stack);
      assert o.Top?;
    }
    if exists doc :: WellTagged(doc) && Serialize(doc) == es {
      var doc :| WellTagged(doc) && Serialize(doc) == es;
      DocumentReport(doc, literal);
    }
  }

  /** feed and finish on a new scanner: without a tag error, the events are a
      document, whose texts were found and whose bound elements' children are
      the only errors. */
  method Scan(es: seq<Event>, literal: Literal) returns (findings: seq<Finding>, errors: seq<Problem>)
    ensures NoTagErrors(errors) <==> exists doc :: WellTagged(doc) && Serialize(doc) == es
    ensures forall doc :: WellTagged(doc) && Serialize(doc) == es ==>
      findings == Collect(doc, [], literal) && errors == BoundChildren(doc, [])
  {
    var scanner := new Scanner();
    scanner.Feed(es, literal);
    scanner.Finish();
    AcceptsDocuments(es, literal);
    forall doc | WellTagged(doc) && Serialize(doc) == es
      ensures scanner.findings == Collect(doc, [], literal) && scanner.errors == BoundChildren(doc, [])
    {
      DocumentReport(doc, literal);
    }
    return scanner.findings, scanner.errors;
  }

  // ----- Recovery -----

  /** One event pushes one frame or leaves a prefix; an end tag closes up to the
      innermost open element of its tag, and nothing if there is none. */
  lemma StackIsPrefix(s: State, e: Event, literal: Literal)
    ensures var t := Step(s, e, literal).stack;
      t <= s.stack || (Pushes(e) && t == s.stack + [Frame(e.tag, e.bound, e.at)])
    ensures e.End? ==>
      var t := Step(s, e, literal).stack;
      if Open(s.stack, e.tag) then
        t < s.stack && s.stack[|t|].tag == e.tag && forall k :: |t| < k < |s.stack| ==> s.stack[k].tag != e.tag
      else t == s.stack
  {
    if e.End? && s.stack != [] {
      LastOpenUnique(s.stack, s.stack[|s.stack| - 1].tag, |s.stack| - 1);
      var i := LastOpen(s.stack, e.tag);
      assert Open(s.stack, e.tag) <==> i.Some?;
    }
  }

  // ----- _position_from_offset -----

  function Count(s: string, c: char): nat {
    if s == "" then 0 else Count(s[..|s| - 1], c) + if s[|s| - 1] == c then 1 else 0
  }

  /** str.rfind: -1 if there is none */
  function LastIndex(s: string, c: char): int {
    if s == "" then -1 else if s[|s| - 1] == c then |s| - 1 else LastIndex(s[..|s| - 1], c)
  }

  function PositionFromOffset(raw: string, offset: nat, startLine: nat, startColumn: nat): (int, int) {
    var prefix := if offset <= |raw| then raw[..offset] else raw;
    var newlines := Count(prefix, '\n');
    if newlines == 0 then (startLine, startColumn + offset)
    else (startLine + newlines, offset - LastIndex(prefix, '\n'))
  }

  /** Walking character by character: a newline starts the next line at 1. */
  function Walk(s: string, line: nat, column: nat): (nat, nat) {
    if s == "" then (line, column)
    else
      var (l, c) := Walk(s[..|s| - 1], line, column);
      if s[|s| - 1] == '\n' then (l + 1, 1) else (l, c + 1)
  }

  /** The arithmetic is the walk, for every offset into the text. */
  lemma {:induction false} OffsetIsWalk(raw: string, offset: nat, line: nat, column: nat)
    requires offset <= |raw|
    ensures PositionFromOffset(raw, offset, line, column) == Walk(raw[..offset], line, column)
    decreases offset
  {
    if offset > 0 {
      var p := raw[..offset];
      OffsetIsWalk(raw, offset - 1, line, column);
      assert p[..|p| - 1] == raw[..offset - 1];
    }
  }

  /** Positions compose: going on from a position is going on in the text. */
  lemma {:induction false} WalkOn(a: string, b: string, line: nat, column: nat)
    ensures Walk(a + b, line, column) == Walk(b, Walk(a, line, column).0, Walk(a, line, column).1)
    decreases |b|
  {
    if b == "" {
      assert a + b == a;
    } else {
      WalkOn(a, b[..|b| - 1], line, column);
      assert (a + b)[..|a + b| - 1] == a + b[..|b| - 1];
    }
  }
}
