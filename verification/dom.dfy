/** The parsed page as an immutable element tree, in the shape an HTML parser
    hands to a CSS selector engine: elements carry a lower-case tag name, a
    set of classes and an optional `href`; string nodes carry their characters
    and the string class the tree builder gave them. */
module Dom {
  import opened Wrappers
  import opened Seqs

  /** The class of a string in the parsed tree. The tree builder makes a
      string inside `script`, `style`, `template`, `rt` or `rp` a `Script`,
      `Stylesheet`, `TemplateString`, `RubyText` or `RubyParenthesis` string
      (after the innermost such element around it); other character data is
      `Navigable`, and comments, CDATA sections, declarations, doctypes and
      processing instructions keep classes of their own. */
  datatype StringKind =
    | Navigable
    | CData
    | Comment
    | Declaration
    | Doctype
    | ProcessingInstruction
    | Script
    | Stylesheet
    | TemplateString
    | RubyText
    | RubyParenthesis

  datatype Node =
    | Element(tag: string, classes: set<string>, href: Option<string>, children: seq<Node>)
    | Text(content: string, kind: StringKind)

  /** The top-level nodes of a parsed page, in document order. */
  type Document = seq<Node>

  /** One element of a document, with its ancestors listed from the outermost
      inwards (the last one is its parent). */
  datatype Position = Position(ancestors: seq<Node>, element: Node)

  /** Every element of `nodes` and of their subtrees in document order (an
      element before its descendants, its descendants before its later
      siblings), each placed below `ancestors`. */
  function Elements(nodes: seq<Node>, ancestors: seq<Node>): (r: seq<Position>)
    ensures forall p :: p in r ==> p.element.Element?
    decreases nodes
  {
    if |nodes| == 0 then []
    else
      var n := nodes[0];
      (if n.Element? then [Position(ancestors, n)] + Elements(n.children, ancestors + [n]) else [])
      + Elements(nodes[1..], ancestors)
  }

  /** A string that an element's `.text` includes: only plain character data
      and CDATA sections; comments and the strings of `script`, `style`,
      `template`, `rt` and `rp` are left out. */
  predicate IsTextString(n: Node)
  {
    n.Text? && (n.kind == Navigable || n.kind == CData)
  }

  function ContentOf(n: Node): string
  {
    if n.Text? then n.content else ""
  }

  /** All strings joined end to end. */
  function Concat(parts: seq<string>): string
  {
    if |parts| == 0 then "" else parts[0] + Concat(parts[1..])
  }

  /** Every string node of a subtree, in document order. */
  function StringsOf(n: Node): seq<Node>
    decreases n
  {
    match n
    case Text(_, _) => [n]
    case Element(_, _, _, children) => StringsAll(children)
  }

  function StringsAll(nodes: seq<Node>): seq<Node>
    decreases nodes
  {
    if |nodes| == 0 then [] else StringsOf(nodes[0]) + StringsAll(nodes[1..])
  }

  /** Reference meaning of `.text`: go through the strings in document order,
      keep those of the included classes, and join their characters. */
  function Visible(strings: seq<Node>): string
  {
    Concat(Map(ContentOf, Filter(IsTextString, strings)))
  }

  lemma {:induction false} ConcatAppend(a: seq<string>, b: seq<string>)
    ensures Concat(a + b) == Concat(a) + Concat(b)
  {
    if |a| == 0 {
      assert a + b == b;
    } else {
      assert (a + b)[1..] == a[1..] + b;
      ConcatAppend(a[1..], b);
    }
  }

  lemma VisibleAppend(a: seq<Node>, b: seq<Node>)
    ensures Visible(a + b) == Visible(a) + Visible(b)
  {
    FilterAppend(IsTextString, a, b);
    MapAppend(ContentOf, Filter(IsTextString, a), Filter(IsTextString, b));
    ConcatAppend(Map(ContentOf, Filter(IsTextString, a)), Map(ContentOf, Filter(IsTextString, b)));
  }

  lemma VisibleSingle(n: Node)
    ensures Visible([n]) == if IsTextString(n) then ContentOf(n) else ""
  {
    assert [n][1..] == [];
    if IsTextString(n) {
      assert Filter(IsTextString, [n]) == [n];
      assert Map(ContentOf, [n]) == [ContentOf(n)];
      assert Concat([ContentOf(n)]) == ContentOf(n) + Concat([]);
    } else {
      assert Filter(IsTextString, [n]) == [];
    }
  }

  /** The text of a node, as the parser library's `.text` gives it: the
      characters of its plain and CDATA strings, in document order. */
  function TextOf(n: Node): (r: string)
    ensures r == Visible(StringsOf(n))
    decreases n
  {
    match n
    case Text(s, _) =>
      VisibleSingle(n);
      if IsTextString(n) then s else ""
    case Element(_, _, _, children) => TextOfAll(children)
  }

  function TextOfAll(nodes: seq<Node>): (r: string)
    ensures r == Visible(StringsAll(nodes))
    decreases nodes
  {
    if |nodes| == 0 then ""
    else
      VisibleAppend(StringsOf(nodes[0]), StringsAll(nodes[1..]));
      TextOf(nodes[0]) + TextOfAll(nodes[1..])
  }

  /** The reading of a ruby annotation inside an anchor is not part of the
      anchor's text: `<a href="/b">10:00<rt>x</rt></a>` has text `10:00`. */
  lemma RubyTextExample()
    ensures TextOf(Element("a", {}, Some("/b"), [Text("10:00", Navigable), Element("rt", {}, None, [Text("x", RubyText)])])) == "10:00"
  {
    var time := Text("10:00", Navigable);
    var reading := Text("x", RubyText);
    var rt := Element("rt", {}, None, [reading]);
    assert [reading][1..] == [] && [time, rt][1..] == [rt] && [rt][1..] == [];
    assert TextOf(reading) == "";
    assert TextOf(rt) == TextOf(reading) + TextOfAll([]);
    assert TextOf(time) == "10:00";
    assert TextOfAll([time, rt]) == TextOf(time) + (TextOf(rt) + TextOfAll([]));
  }
}
