/** The stack machine of _StrictHtmlScanner in scripts/i18n_inventory.py,
    against the document trees whose serialization it accepts. */
module HtmlScanner {
  import opened Wrappers

  datatype Position = Position(line: nat, column: nat)

  /** What the HTML parser reports. Tags are lower-case already; bound says that
      the data-i18n attribute is there. */
  datatype Event =
    | Start(tag: string, selfClosed: bool, bound: bool, at: Position)
    | End(tag: string, at: Position)
    | Data(text: string, at: Position)

  datatype Frame = Frame(tag: string, textBound: bool, at: Position)

  datatype Kind = HtmlText | HtmlPre | HtmlCode

  datatype Finding = Finding(kind: Kind, text: string, at: Position)

  datatype Problem =
    | Unexpected(tag: string, at: Position) | Misnested(tag: string, at: Position) | Unclosed(tag: string, at: Position)
    | ChildOfBound(at: Position)

  datatype State = State(stack: seq<Frame>, findings: seq<Finding>, errors: seq<Problem>)

  const VOID_HTML_TAGS: set<string> := {
    "area", "base", "br", "col", "embed", "hr", "img", "input", "link", "meta", "param", "source", "track", "wbr"
  }
  const IGNORED_HTML_TAGS: set<string> := {"script", "style", "template"}

  /** The normalized literal of a text, if it is a visible one. */
  type Literal = string -> Option<string>

  predicate Pushes(e: Event) {
    e.Start? && !e.selfClosed && e.tag !in VOID_HTML_TAGS
  }

  // ----- One event -----

  predicate Open(stack: seq<Frame>, tag: string) {
    exists i :: 0 <= i < |stack| && stack[i].tag == tag
  }

  predicate Ignored(stack: seq<Frame>) {
    exists i :: 0 <= i < |stack| && stack[i].tag in IGNORED_HTML_TAGS
  }

  /** What a text inside these open elements is recorded as. */
  function Recorded(stack: seq<Frame>, text: string, at: Position, literal: Literal): seq<Finding> {
    if stack != [] && (Ignored(stack) || stack[|stack| - 1].textBound) then []
    else
      var kind := if Open(stack, "pre") then HtmlPre else if Open(stack, "code") then HtmlCode else HtmlText;
      match literal(text)
      case None => []
      case Some(visible) => [Finding(kind, visible, at)]
  }

  function ChildErrors(stack: seq<Frame>, at: Position): seq<Problem> {
    if stack != [] && stack[|stack| - 1].textBound then [ChildOfBound(at)] else []
  }

  /** The index of the innermost open element with this tag. */
  function LastOpen(stack: seq<Frame>, tag: string): (i: Option<nat>)
    ensures i.Some? ==> i.value < |stack| && stack[i.value].tag == tag
    ensures i.Some? ==> forall k :: i.value < k < |stack| ==> stack[k].tag != tag
    ensures i.None? ==> !Open(stack, tag)
  {
    if stack == [] then None
    else if stack[|stack| - 1].tag == tag then Some(|stack| - 1)
    else LastOpen(stack[..|stack| - 1], tag)
  }

  function Step(s: State, e: Event, literal: Literal): State {
    match e
    case Start(tag, _, bound, at) =>
      s.(errors := s.errors + ChildErrors(s.stack, at),
         stack := if Pushes(e) then s.stack + [Frame(tag, bound, at)] else s.stack)
    case End(tag, at) =>
      if s.stack == [] then s.(errors := s.errors + [Unexpected(tag, at)])
      else if s.stack[|s.stack| - 1].tag == tag then s.(stack := s.stack[..|s.stack| - 1])
      else
        var i := LastOpen(s.stack, tag);
        s.(errors := s.errors + [Misnested(tag, at)], stack := if i.Some? then s.stack[..i.value] else s.stack)
    case Data(text, at) => s.(findings := s.findings + Recorded(s.stack, text, at, literal))
  }

  function Run(s: State, es: seq<Event>, literal: Literal): State {
    if es == [] then s else Step(Run(s, es[..|es| - 1], literal), es[|es| - 1], literal)
  }

  /** finish: what is still open is reported, the innermost element first. */
  function UnclosedErrors(stack: seq<Frame>): seq<Problem> {
    if stack == [] then []
    else [Unclosed(stack[|stack| - 1].tag, stack[|stack| - 1].at)] + UnclosedErrors(stack[..|stack| - 1])
  }

  // ----- The scanner -----

  class Scanner {
    var stack: seq<Frame>
    var findings: seq<Finding>
    var errors: seq<Problem>

    constructor ()
      ensures Abstract() == State([], [], [])
    {
      stack, findings, errors := [], [], [];
    }

    function Abstract(): State
      reads this
    {
      State(stack, findings, errors)
    }

    method HandleStart(e: Event, ghost literal: Literal)
      requires e.Start?
      modifies this
      ensures Abstract() == Step(old(Abstract()), e, literal)
    {
      if stack != [] && stack[|stack| - 1].textBound {
        errors := errors + [ChildOfBound(e.at)];
      }
      if Pushes(e) {
        stack := stack + [Frame(e.tag, e.bound, e.at)];
      }
    }

    method HandleEnd(tag: string, at: Position, ghost literal: Literal)
      modifies this
      ensures Abstract() == Step(old(Abstract()), End(tag, at), literal)
    {
      if stack == [] {
        errors := errors + [Unexpected(tag, at)];
        return;
      }
      if stack[|stack| - 1].tag == tag {
        stack := stack[..|stack| - 1];
        return;
      }
      errors := errors + [Misnested(tag, at)];
      var index: nat := |stack|;
      while index > 0
        invariant index <= |stack| && stack == old(stack) && findings == old(findings)
        invariant errors == old(errors) + [Misnested(tag, at)]
        invariant forall k :: index <= k < |stack| ==> stack[k].tag != tag
      {
        index := index - 1;
        if stack[index].tag == tag {
          LastOpenUnique(stack, tag, index);
          stack := stack[..index];
          return;
        }
      }
    }

    method HandleData(text: string, at: Position, literal: Literal)
      modifies this
      ensures Abstract() == Step(old(Abstract()), Data(text, at), literal)
    {
      findings := findings + Recorded(stack, text, at, literal);
    }

    method Feed(es: seq<Event>, literal: Literal)
      modifies this
      ensures Abstract() == Run(old(Abstract()), es, literal)
    {
      var i := 0;
      while i < |es|
        invariant i <= |es| && Abstract() == Run(old(Abstract()), es[..i], literal)
      {
        match es[i] {
          case Start(_, _, _, _) => HandleStart(es[i], literal);
          case End(tag, at) => HandleEnd(tag, at, literal);
          case Data(text, at) => HandleData(text, at, literal);
        }
        assert es[..i + 1][..i] == es[..i];
        i := i + 1;
      }
      assert es[..i] == es;
    }

    method Finish()
      modifies this
      ensures stack == old(stack) && findings == old(findings) && errors == old(errors) + UnclosedErrors(stack)
    {
      var i := |stack|;
      assert stack[..i] == stack;
      while i > 0
        invariant 0 <= i <= |stack| && stack == old(stack) && findings == old(findings)
        invariant errors + UnclosedErrors(stack[..i]) == old(errors) + UnclosedErrors(stack)
      {
        i := i - 1;
        assert stack[..i + 1][..i] == stack[..i];
        errors := errors + [Unclosed(stack[i].tag, stack[i].at)];
      }
    }
  }

  lemma LastOpenUnique(stack: seq<Frame>, tag: string, i: nat)
    requires i < |stack| && stack[i].tag == tag && forall k :: i < k < |stack| ==> stack[k].tag != tag
    ensures LastOpen(stack, tag) == Some(i)
  {
    var last := LastOpen(stack, tag);
    assert Open(stack, tag);
    assert last.value == i;
  }

  // ----- Documents -----

  datatype Node =
    | Element(tag: string, bound: bool, at: Position, kids: seq<Node>, endAt: Position)
    | Childless(tag: string, selfClosed: bool, bound: bool, at: Position)
    | Text(text: string, at: Position)

  /** Elements with an end tag are not void; those without are, or close
      themselves. */
  predicate WellTagged(doc: seq<Node>) {
    forall n :: n in doc ==> WellTaggedNode(n)
  }

  predicate WellTaggedNode(n: Node) {
    match n
    case Element(tag, _, _, kids, _) => tag !in VOID_HTML_TAGS && WellTagged(kids)
    case Childless(tag, selfClosed, _, _) => selfClosed || tag in VOID_HTML_TAGS
    case Text(_, _) => true
  }

  function Serialize(doc: seq<Node>): seq<Event>
    decreases doc
  {
    if doc == [] then []
    else
      Serialize(doc[..|doc| - 1]) +
      match doc[|doc| - 1]
      case Element(tag, bound, at, kids, endAt) => [Start(tag, false, bound, at)] + Serialize(kids) + [End(tag, endAt)]
      case Childless(tag, selfClosed, bound, at) => [Start(tag, selfClosed, bound, at)]
      case Text(text, at) => [Data(text, at)]
  }

  /** The texts to translate, by walking the tree. */
  function Collect(doc: seq<Node>, above: seq<Frame>, literal: Literal): seq<Finding>
    decreases doc
  {
    if doc == [] then []
    else
      Collect(doc[..|doc| - 1], above, literal) +
      match doc[|doc| - 1]
      case Element(tag, bound, at, kids, _) => Collect(kids, above + [Frame(tag, bound, at)], literal)
      case Childless(_, _, _, _) => []
      case Text(text, at) => Recorded(above, text, at, literal)
  }

  /** The elements that are children of bound ones, by walking the tree. */
  function BoundChildren(doc: seq<Node>, above: seq<Frame>): seq<Problem>
    decreases doc
  {
    if doc == [] then []
    else
      BoundChildren(doc[..|doc| - 1], above) +
      match doc[|doc| - 1]
      case Element(tag, bound, at, kids, _) => ChildErrors(above, at) + BoundChildren(kids, above + [Frame(tag, bound, at)])
      case Childless(_, _, _, at) => ChildErrors(above, at)
      case Text(_, _) => []
  }

  lemma {:induction false} RunAppend(s: State, a: seq<Event>, b: seq<Event>, literal: Literal)
    ensures Run(s, a + b, literal) == Run(Run(s, a, literal), b, literal)
    decreases |b|
  {
    hide Step;
    if b == [] {
      assert a + b == a;
    } else {
      var init := b[..|b| - 1];
      RunAppend(s, a, init, literal);
      assert (a + b)[..|a + b| - 1] == a + init && (a + b)[|a + b| - 1] == b[|b| - 1];
    }
  }

  lemma RunOne(s: State, e: Event, literal: Literal)
    ensures Run(s, [e], literal) == Step(s, e, literal)
  {
    assert [e][..0] == [];
  }

  lemma BracketRun(s: State, e: Event, middle: seq<Event>, end: Event, literal: Literal)
    ensures Run(s, [e] + middle + [end], literal) == Step(Run(Step(s, e, literal), middle, literal), end, literal)
  {
    hide Step;
    RunAppend(s, [e] + middle, [end], literal);
    RunAppend(s, [e], middle, literal);
    RunOne(s, e, literal);
    RunOne(Run(Step(s, e, literal), middle, literal), end, literal);
  }

  /** What one node adds. */
  ghost predicate NodeRuns(s: State, n: Node, literal: Literal) {
    Run(s, Serialize([n]), literal) ==
      State(s.stack, s.findings + Collect([n], s.stack, literal), s.errors + BoundChildren([n], s.stack))
  }

  lemma LastNode(doc: seq<Node>, above: seq<Frame>, literal: Literal)
    requires doc != []
    ensures var init, last := doc[..|doc| - 1], [doc[|doc| - 1]];
      && Serialize(doc) == Serialize(init) + Serialize(last)
      && Collect(doc, above, literal) == Collect(init, above, literal) + Collect(last, above, literal)
      && BoundChildren(doc, above) == BoundChildren(init, above) + BoundChildren(last, above)
  {
    SerializeLast(doc);
    CollectLast(doc, above, literal);
    BoundChildrenLast(doc, above);
  }

  lemma SerializeLast(doc: seq<Node>)
    requires doc != []
    ensures Serialize(doc) == Serialize(doc[..|doc| - 1]) + Serialize([doc[|doc| - 1]])
  {
    assert [doc[|doc| - 1]][..0] == [];
    assert Serialize([doc[|doc| - 1]][..0]) == [];
  }

  lemma CollectLast(doc: seq<Node>, above: seq<Frame>, literal: Literal)
    requires doc != []
    ensures Collect(doc, above, literal) == Collect(doc[..|doc| - 1], above, literal) + Collect([doc[|doc| - 1]], above, literal)
  {
    assert [doc[|doc| - 1]][..0] == [];
    assert Collect([doc[|doc| - 1]][..0], above, literal) == [];
  }

  lemma BoundChildrenLast(doc: seq<Node>, above: seq<Frame>)
    requires doc != []
    ensures BoundChildren(doc, above) == BoundChildren(doc[..|doc| - 1], above) + BoundChildren([doc[|doc| - 1]], above)
  {
    assert [doc[|doc| - 1]][..0] == [];
    assert BoundChildren([doc[|doc| - 1]][..0], above) == [];
  }

  function LeafEvent(n: Node): Event
    requires !n.Element?
  {
    if n.Childless? then Start(n.tag, n.selfClosed, n.bound, n.at) else Data(n.text, n.at)
  }

  /** One node without an end tag, unfolded. */
  lemma LeafIs(n: Node, above: seq<Frame>, literal: Literal)
    requires !n.Element?
    ensures Serialize([n]) == [LeafEvent(n)]
    ensures Collect([n], above, literal) == if n.Text? then Recorded(above, n.text, n.at, literal) else []
    ensures BoundChildren([n], above) == if n.Childless? then ChildErrors(above, n.at) else []
  {
    hide Recorded, ChildErrors;
    assert [n][..0] == [];
    assert Serialize([n][..0]) == [] && Collect([n][..0], above, literal) == [] && BoundChildren([n][..0], above) == [];
  }

  lemma LeafStep(s: State, n: Node, literal: Literal)
    requires WellTaggedNode(n) && !n.Element?
    ensures Step(s, LeafEvent(n), literal) ==
      State(s.stack, s.findings + (if n.Text? then Recorded(s.stack, n.text, n.at, literal) else []),
            s.errors + if n.Childless? then ChildErrors(s.stack, n.at) else [])
  {
    hide Recorded, ChildErrors;
    assert s.findings + [] == s.findings && s.errors + [] == s.errors;
  }

  lemma LeafRun(s: State, n: Node, literal: Literal)
    requires WellTaggedNode(n) && !n.Element?
    ensures NodeRuns(s, n, literal)
  {
    hide Run, Step, Serialize, Collect, BoundChildren, Recorded, ChildErrors, LeafEvent;
    LeafIs(n, s.stack, literal);
    LeafStep(s, n, literal);
    RunOne(s, LeafEvent(n), literal);
  }

  /** One element, unfolded. */
  lemma ElementIs(n: Node, above: seq<Frame>, literal: Literal)
    requires n.Element?
    ensures Serialize([n]) == [Start(n.tag, false, n.bound, n.at)] + Serialize(n.kids) + [End(n.tag, n.endAt)]
    ensures Collect([n], above, literal) == Collect(n.kids, above + [Frame(n.tag, n.bound, n.at)], literal)
    ensures BoundChildren([n], above) == ChildErrors(above, n.at) + BoundChildren(n.kids, above + [Frame(n.tag, n.bound, n.at)])
  {
    assert [n][..0] == [];
    assert Serialize([n][..0]) == [] && Collect([n][..0], above, literal) == [] && BoundChildren([n][..0], above) == [];
  }

  lemma ElementRun(s: State, n: Node, literal: Literal)
    requires WellTaggedNode(n) && n.Element?
    requires var t := Step(s, Start(n.tag, false, n.bound, n.at), literal);
      Run(t, Serialize(n.kids), literal) ==
        State(t.stack, t.findings + Collect(n.kids, t.stack, literal), t.errors + BoundChildren(n.kids, t.stack))
    ensures NodeRuns(s, n, literal)
  {
    hide Run, Serialize, Collect, BoundChildren, ChildErrors, WellTagged, Step;
    ElementIs(n, s.stack, literal);
    BracketRun(s, Start(n.tag, false, n.bound, n.at), Serialize(n.kids), End(n.tag, n.endAt), literal);
    StartStep(s, n.tag, n.bound, n.at, literal);
    var t := Step(s, Start(n.tag, false, n.bound, n.at), literal);
    var inner := Run(t, Serialize(n.kids), literal);
    EndStep(s.stack, Frame(n.tag, n.bound, n.at), inner.findings, inner.errors, n.endAt, literal);
    Associative(s.errors, ChildErrors(s.stack, n.at), BoundChildren(n.kids, t.stack));
  }

  lemma StartStep(s: State, tag: string, bound: bool, at: Position, literal: Literal)
    requires tag !in VOID_HTML_TAGS
    ensures Step(s, Start(tag, false, bound, at), literal) ==
      State(s.stack + [Frame(tag, bound, at)], s.findings, s.errors + ChildErrors(s.stack, at))
  {
  }

  lemma EndStep(stack: seq<Frame>, frame: Frame, findings: seq<Finding>, errors: seq<Problem>, at: Position, literal: Literal)
    ensures Step(State(stack + [frame], findings, errors), End(frame.tag, at), literal) == State(stack, findings, errors)
  {
    assert (stack + [frame])[..|stack|] == stack;
  }

  lemma NothingRun(s: State, literal: Literal)
    ensures Run(s, Serialize([]), literal) ==
      State(s.stack, s.findings + Collect([], s.stack, literal), s.errors + BoundChildren([], s.stack))
  {
  }

  /** Scanning a document leaves the stack as it was, and finds exactly what
      the walk over the tree finds. */
  lemma {:induction false} DocumentRun(s: State, doc: seq<Node>, literal: Literal)
    requires WellTagged(doc)
    ensures Run(s, Serialize(doc), literal) ==
      State(s.stack, s.findings + Collect(doc, s.stack, literal), s.errors + BoundChildren(doc, s.stack))
    decreases doc
  {
    hide Run, Serialize, Collect, BoundChildren, Step;
    if doc == [] {
      NothingRun(s, literal);
    } else {
      var init, n := doc[..|doc| - 1], doc[|doc| - 1];
      assert n in doc && forall m :: m in init ==> m in doc;
      DocumentRun(s, init, literal);
      var mid := Run(s, Serialize(init), literal);
      if n.Element? {
        DocumentRun(Step(mid, Start(n.tag, false, n.bound, n.at), literal), n.kids, literal);
        ElementRun(mid, n, literal);
      } else {
        LeafRun(mid, n, literal);
      }
      LastNode(doc, s.stack, literal);
      RunAppend(s, Serialize(init), Serialize([n]), literal);
    }
  }
}
