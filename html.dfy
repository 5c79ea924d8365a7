/** The HTML parser of src/html.ts: a cursor over the input string that
    the parsing methods advance. As in the stylesheet parser, the functions
    of the first part say, for a cursor position, what each method returns
    and where it leaves the cursor, and the `Parser` class below runs the
    methods on its `pos` field and is proved to agree with them.

    As written, `nextChar` reads the character AFTER the cursor, while
    `consumeChar` consumes the one AT it; `consumeWhile` consumes its first
    character before it looks at anything; and `consumeWhitespace` tests
    for the empty string, which no character equals. */
module HtmlParser {
  import opened Wrappers
  import opened Chars
  import opened Dom

  // ---------------------------------------------------------------------
  // Character tests

  /** The tests `consumeWhile` is given: `s !== "<"` (`parseText`),
      `s === ""` (`consumeWhitespace`), the tag-name regular expression
      (`parseTagName`) and `s !== openQuote` (`parseAttrValue`, where the
      opening quote is itself `undefined` past the end). */
  datatype CharTest = NotOpenAngle | EmptyString | TagChar | NotQuote(quote: Option<char>)

  /** A test applied to a character or to `undefined`. Only the tag-name
      test calls `.match`, which throws a `TypeError` on `undefined`. */
  function Test(test: CharTest, c: Option<char>): (r: Result<bool, ParseError>)
    ensures r.Failure? <==> test == TagChar && c.None?
    ensures r.Failure? ==> r.error == TypeError
    ensures test == EmptyString ==> r == Success(false)
  {
    match test
    case NotOpenAngle => Success(c != Some('<'))
    case EmptyString => Success(false)
    case TagChar => if c.None? then Failure(TypeError) else Success(IsAsciiLetter(c.value) || IsAsciiDigit(c.value))
    case NotQuote(q) => Success(c != q)
  }

  /** `result += c` in JavaScript: the character, or the text
      `"undefined"` when `c` was read past the end. */
  function Piece(c: Option<char>): string {
    if c.Some? then [c.value] else "undefined"
  }

  // ---------------------------------------------------------------------
  // What each parsing step does, as a function of the cursor position

  /** `consumeWhile`: consume the character at the cursor unconditionally,
      then go on while not at the end and the test accepts the character
      after the cursor. */
  function ConsumeWhileAt(input: string, pos: nat, test: CharTest): (r: Result<Parsed<string>, ParseError>)
    ensures r.Failure? ==> r.error == TypeError && test == TagChar
    ensures r.Success? ==> pos < r.value.pos
    ensures r.Success? && pos < |input| ==> r.value.pos <= |input|
    ensures pos >= |input| ==> r == Success(Parsed("undefined", pos + 1))
  {
    assert "undefined" + "" == "undefined";
    Prefixed(Piece(CharAt(input, pos)), MoreAt(input, pos + 1, test))
  }

  /** The rounds of `consumeWhile` after the first, from `pos`. */
  function MoreAt(input: string, pos: nat, test: CharTest): (r: Result<Parsed<string>, ParseError>)
    decreases |input| - pos
    ensures r.Failure? ==> r.error == TypeError && test == TagChar
    ensures r.Success? ==> pos <= r.value.pos
    ensures r.Success? && pos <= |input| ==> r.value.pos <= |input|
    ensures pos >= |input| ==> r == Success(Parsed("", pos))
  {
    if pos >= |input| then Success(Parsed("", pos))
    else
      match Test(test, CharAt(input, pos + 1))
      case Failure(e) => Failure(e)
      case Success(more) =>
        if !more then Success(Parsed("", pos))
        else Prefixed([input[pos]], MoreAt(input, pos + 1, test))
  }

  /** The rounds after the first take the characters from the cursor on,
      each because the test accepted the character after it, and stop
      short of the end only where the test refuses the next character. */
  lemma {:induction false} MoreText(input: string, pos: nat, test: CharTest)
    requires pos <= |input| && MoreAt(input, pos, test).Success?
    decreases |input| - pos
    ensures var m := MoreAt(input, pos, test).value;
      m.value == input[pos..m.pos]
      && (forall k :: pos < k <= m.pos ==> Test(test, CharAt(input, k)) == Success(true))
      && (m.pos < |input| ==> Test(test, CharAt(input, m.pos + 1)) == Success(false))
  {
    if pos < |input| && Test(test, CharAt(input, pos + 1)) == Success(true) {
      MoreText(input, pos + 1, test);
      var rest := MoreAt(input, pos + 1, test).value;
      assert [input[pos]] + input[pos + 1..rest.pos] == input[pos..rest.pos];
    }
  }

  /** What `consumeWhile` returns: the character at the cursor (or
      `"undefined"`), then the characters it went on to consume; it went on
      only while not at the end and the test accepted the character after
      the cursor, and it stopped short of the end only on a refusal. */
  lemma ConsumeWhileText(input: string, pos: nat, test: CharTest)
    requires pos < |input| && ConsumeWhileAt(input, pos, test).Success?
    ensures var r := ConsumeWhileAt(input, pos, test).value;
      r.value == input[pos..r.pos]
      && (forall k :: pos + 2 <= k <= r.pos ==> Test(test, CharAt(input, k)) == Success(true))
      && (r.pos < |input| ==> Test(test, CharAt(input, r.pos + 1)) == Success(false))
  {
    MoreText(input, pos + 1, test);
    var m := MoreAt(input, pos + 1, test).value;
    assert [input[pos]] + input[pos + 1..m.pos] == input[pos..m.pos];
  }

  /** `consumeWhitespace` consumes exactly one character, whatever it is:
      the test asks for the empty string, which no character equals. */
  lemma WhitespaceConsumesOne(input: string, pos: nat)
    ensures ConsumeWhileAt(input, pos, EmptyString) == Success(Parsed(Piece(CharAt(input, pos)), pos + 1))
  {
    assert Piece(CharAt(input, pos)) + "" == Piece(CharAt(input, pos));
  }

  /** `startsWith`: the ONE character at the cursor starts with `str`. */
  predicate StartsWithAt(input: string, pos: nat, str: string)
    requires pos < |input|
  {
    str <= [input[pos]]
  }

  /** A single character never starts with a two-character string, so the
      test of `parseNodes` for a closing tag is always false. */
  lemma NeverStartsWithClose(input: string, pos: nat)
    requires pos < |input|
    ensures !StartsWithAt(input, pos, "</")
  {
  }

  /** `parseText`: a text node of what `consumeWhile(s => s !== "<")`
      collects. */
  function TextAt(input: string, pos: nat): (r: Parsed<DomNode>)
    ensures !r.value.IsElement() && pos < r.pos
    ensures pos < |input| ==> r.pos <= |input|
  {
    var t := ConsumeWhileAt(input, pos, NotOpenAngle).value;
    Parsed(Text(t.value), t.pos)
  }

  /** A text node runs up to just before a `<` that follows the cursor, or
      to the end of the input. */
  lemma TextStopsBeforeOpenAngle(input: string, pos: nat)
    requires pos < |input|
    ensures var r := TextAt(input, pos);
      r.value.nodeType == TextData(input[pos..r.pos])
      && (forall k :: pos + 2 <= k <= r.pos && k < |input| ==> input[k] != '<')
      && (r.pos < |input| ==> CharAt(input, r.pos + 1) == Some('<'))
  {
    ConsumeWhileText(input, pos, NotOpenAngle);
    var r := TextAt(input, pos);
    forall k | pos + 2 <= k <= r.pos && k < |input|
      ensures input[k] != '<'
    {
      assert Test(NotOpenAngle, CharAt(input, k)) == Success(true);
    }
  }

  /** `parseAttrValue`: one character (the opening quote, `undefined` past
      the end), then everything up to the same character. */
  function AttrValueAt(input: string, pos: nat): (r: Parsed<string>)
    ensures pos + 2 <= r.pos
  {
    ConsumeWhileAt(input, pos + 1, NotQuote(CharAt(input, pos))).value
  }

  /** `parseAttr`: a name, one character (the `=`), then a value. */
  function AttrAt(input: string, pos: nat): (r: Result<Parsed<(string, string)>, ParseError>)
    ensures r.Failure? ==> r.error == TypeError
    ensures r.Success? ==> pos + 3 <= r.value.pos
  {
    match ConsumeWhileAt(input, pos, TagChar)
    case Failure(e) => Failure(e)
    case Success(name) =>
      var value := AttrValueAt(input, name.pos + 1);
      Success(Parsed((name.value, value.value), value.pos))
  }

  /** The loop of `parseAttributes`, with at most `fuel` rounds: one
      character (`consumeWhitespace`), then either a `>` after the cursor
      (the loop ends, leaving the `>` unconsumed) or an attribute. The
      attributes are kept in source order. */
  function AttributesLoop(input: string, pos: nat, acc: seq<(string, string)>, fuel: nat): (r: Result<Parsed<seq<(string, string)>>, ParseError>)
    decreases fuel
    ensures r.Success? ==> pos < r.value.pos
  {
    if fuel == 0 then Failure(OutOfFuel)
    else
      match AttributeRound(input, pos)
      case Failure(e) => Failure(e)
      case Success(round) =>
        match round.value
        case None => Success(Parsed(acc, round.pos))
        case Some(a) => AttributesLoop(input, round.pos, acc + [a], fuel - 1)
  }

  /** One round of the loop of `parseAttributes`: `None` when it ends. */
  function AttributeRound(input: string, pos: nat): (r: Result<Parsed<Option<(string, string)>>, ParseError>)
    ensures r.Success? ==> pos < r.value.pos
  {
    var p := pos + 1;
    if CharAt(input, p + 1) == Some('>') then Success(Parsed(None, p))
    else
      match AttrAt(input, p)
      case Failure(e) => Failure(e)
      case Success(a) => Success(Parsed(Some(a.value), a.pos))
  }

  /** The loop of `parseAttributes` keeps the attributes before it and
      stops before a `>`. */
  lemma {:induction false} AttributesLoopEnds(input: string, pos: nat, acc: seq<(string, string)>, fuel: nat)
    requires AttributesLoop(input, pos, acc, fuel).Success?
    decreases fuel
    ensures var r := AttributesLoop(input, pos, acc, fuel).value;
      acc <= r.value && CharAt(input, r.pos + 1) == Some('>')
  {
    var round := AttributeRound(input, pos).value;
    if round.value.Some? {
      AttributesLoopEnds(input, round.pos, acc + [round.value.value], fuel - 1);
    }
  }

  /** In an unterminated tag, once the character after the cursor is past
      the end, every round reads an attribute and none finds the `>`: the
      loop of `parseAttributes` does not end, whatever the fuel. */
  lemma {:induction false} AttributesNeverEnd(input: string, pos: nat, acc: seq<(string, string)>, fuel: nat)
    requires |input| <= pos + 2
    decreases fuel
    ensures AttributesLoop(input, pos, acc, fuel) == Failure(OutOfFuel)
  {
    if fuel > 0 {
      var p := pos + 1;
      assert CharAt(input, p + 1) == None;
      assert ConsumeWhileAt(input, p, TagChar).Success?;
      var a := AttrAt(input, p).value;
      assert AttributeRound(input, pos) == Success(Parsed(Some(a.value), a.pos));
      AttributesNeverEnd(input, a.pos, acc + [a.value], fuel - 1);
    }
  }

  /** The attribute map filled by `attributes[name] = value` in order: a
      later attribute of the same name replaces an earlier one. */
  function ToMap(pairs: seq<(string, string)>): AttrMap {
    if pairs == [] then map[]
    else ToMap(pairs[..|pairs| - 1])[pairs[|pairs| - 1].0 := pairs[|pairs| - 1].1]
  }

  /** The map has exactly the names of the attributes. */
  lemma {:induction false} ToMapKeys(pairs: seq<(string, string)>)
    ensures ToMap(pairs).Keys == set i | 0 <= i < |pairs| :: pairs[i].0
  {
    if pairs != [] {
      var init := pairs[..|pairs| - 1];
      ToMapKeys(init);
      assert (set i | 0 <= i < |pairs| :: pairs[i].0)
        == (set i | 0 <= i < |init| :: init[i].0) + {pairs[|pairs| - 1].0};
    }
  }

  /** Each name is mapped to the value of its LAST occurrence: the
      attribute at `i`, when no later one has its name. */
  lemma {:induction false} ToMapLastWins(pairs: seq<(string, string)>, i: nat)
    requires i < |pairs|
    requires forall j :: i < j < |pairs| ==> pairs[j].0 != pairs[i].0
    ensures pairs[i].0 in ToMap(pairs) && ToMap(pairs)[pairs[i].0] == pairs[i].1
  {
    if i < |pairs| - 1 {
      var init := pairs[..|pairs| - 1];
      assert init[i] == pairs[i];
      forall j | i < j < |init|
        ensures init[j].0 != init[i].0
      {
        assert init[j] == pairs[j];
      }
      ToMapLastWins(init, i);
      assert pairs[|pairs| - 1].0 != pairs[i].0;
    }
  }

  lemma ToMapSnoc(pairs: seq<(string, string)>, a: (string, string))
    ensures ToMap(pairs + [a]) == ToMap(pairs)[a.0 := a.1]
  {
    assert (pairs + [a])[..|pairs|] == pairs;
  }

  /** `parseAttributes`: the attribute map of the loop. */
  function AttributesAt(input: string, pos: nat, fuel: nat): (r: Result<Parsed<AttrMap>, ParseError>)
    ensures r.Success? ==> pos < r.value.pos
  {
    match AttributesLoop(input, pos, [], fuel)
    case Failure(e) => Failure(e)
    case Success(l) => Success(Parsed(ToMap(l.value), l.pos))
  }

  /** How much input is left after `pos`: what the parser's mutual
      recursion uses up. */
  function Rest(input: string, pos: nat): nat {
    if pos <= |input| then |input| - pos else 0
  }

  /** The loop of `parseNodes`: one character (`consumeWhitespace`), then
      the loop ends at the end of the input, or reads a node. The test for
      a closing tag looks at one character and never holds, so the loop
      ends only at the end of the input. */
  function NodesLoop(input: string, pos: nat, acc: seq<DomNode>, fuel: nat): (r: Result<Parsed<seq<DomNode>>, ParseError>)
    decreases Rest(input, pos), 2
    ensures r.Success? ==> pos < r.value.pos && |input| <= r.value.pos && acc <= r.value.value
  {
    var p := pos + 1;
    if p >= |input| || StartsWithAt(input, p, "</") then Success(Parsed(acc, p))
    else
      match NodeAt(input, p, fuel)
      case Failure(e) => Failure(e)
      case Success(n) => NodesLoop(input, n.pos, acc + [n.value], fuel)
  }

  /** `parseNode`: an element when the character after the cursor is a
      `<`, a text node otherwise. */
  function NodeAt(input: string, pos: nat, fuel: nat): (r: Result<Parsed<DomNode>, ParseError>)
    requires pos < |input|
    decreases Rest(input, pos), 1
    ensures r.Success? ==> pos < r.value.pos
    ensures r.Success? ==> (r.value.value.IsElement() <==> CharAt(input, pos + 1) == Some('<'))
    ensures r.Success? && r.value.value.IsElement() ==> |input| < r.value.pos
  {
    if CharAt(input, pos + 1) == Some('<') then ElementAt(input, pos, fuel)
    else Success(TextAt(input, pos))
  }

  /** `parseElement`: a tag name read from the cursor, the attributes,
      the child nodes, then two characters (`<` and `/`), a tag name and
      one character (`>`). The children run to the end of the input, so
      the element does too. */
  function ElementAt(input: string, pos: nat, fuel: nat): (r: Result<Parsed<DomNode>, ParseError>)
    requires pos < |input|
    decreases Rest(input, pos), 0
    ensures r.Success? ==> r.value.value.IsElement() && |input| < r.value.pos
  {
    match ConsumeWhileAt(input, pos, TagChar)
    case Failure(e) => Failure(e)
    case Success(tag) =>
      match AttributesAt(input, tag.pos, fuel)
      case Failure(e) => Failure(e)
      case Success(attrs) =>
        match NodesLoop(input, attrs.pos, [], fuel)
        case Failure(e) => Failure(e)
        case Success(children) =>
          match ConsumeWhileAt(input, children.pos + 2, TagChar)
          case Failure(e) => Failure(e)
          case Success(close) => Success(Parsed(Elem(tag.value, attrs.value, children.value), close.pos + 1))
  }

  /** An element reads to the end of the input, so among siblings only the
      last node can be an element. */
  lemma {:induction false} ElementsComeLast(input: string, pos: nat, acc: seq<DomNode>, fuel: nat)
    requires NodesLoop(input, pos, acc, fuel).Success?
    decreases Rest(input, pos)
    ensures var nodes := NodesLoop(input, pos, acc, fuel).value.value;
      forall i :: |acc| <= i < |nodes| - 1 ==> !nodes[i].IsElement()
  {
    var p := pos + 1;
    if p < |input| {
      var n := NodeAt(input, p, fuel).value;
      ElementsComeLast(input, n.pos, acc + [n.value], fuel);
    }
  }

  /** `parse`: the nodes read from position 0; the one node when there is
      exactly one, an `html` element around them otherwise. */
  function DocumentOf(source: string, fuel: nat): (r: Result<DomNode, ParseError>)
  {
    match NodesLoop(source, 0, [], fuel)
    case Failure(e) => Failure(e)
    case Success(nodes) =>
      if |nodes.value| == 1 then Success(nodes.value[0])
      else Success(Elem("html", map[], nodes.value))
  }

  /** The document is the single top-level node, or an `html` element
      without attributes whose children are the top-level nodes in order;
      the empty input gives an empty `html` element. */
  lemma DocumentShape(source: string, fuel: nat)
    ensures DocumentOf(source, fuel).Success? <==> NodesLoop(source, 0, [], fuel).Success?
    ensures DocumentOf(source, fuel).Success? ==>
      var nodes := NodesLoop(source, 0, [], fuel).value.value;
      var doc := DocumentOf(source, fuel).value;
      (|nodes| == 1 ==> doc == nodes[0])
      && (|nodes| != 1 ==> doc.IsElement() && doc.nodeType.data == ElementData("html", map[]) && doc.children == nodes)
    ensures |source| <= 1 ==> DocumentOf(source, fuel) == Success(Elem("html", map[], []))
  {
  }

  /** On `<p>hi</p>` the first character is taken for whitespace, the
      text stops before the `<` it sees ahead and the next character is
      again taken for whitespace: two text nodes, no element. */
  lemma ParagraphBecomesText()
    ensures DocumentOf("<p>hi</p>", 0) == Success(Elem("html", map[], [Text("p>h"), Text("</p>")]))
  {
    var input := "<p>hi</p>";
    assert MoreAt(input, 4, NotOpenAngle) == Success(Parsed("", 4));
    assert "h" + "" == "h" && ">" + "h" == ">h" && "p" + ">h" == "p>h";
    assert MoreAt(input, 3, NotOpenAngle) == Success(Parsed("h", 4));
    assert MoreAt(input, 2, NotOpenAngle) == Success(Parsed(">h", 4));
    assert TextAt(input, 1) == Parsed(Text("p>h"), 4);
    assert MoreAt(input, 9, NotOpenAngle) == Success(Parsed("", 9));
    assert ">" + "" == ">" && "p" + ">" == "p>" && "/" + "p>" == "/p>" && "<" + "/p>" == "</p>";
    assert MoreAt(input, 8, NotOpenAngle) == Success(Parsed(">", 9));
    assert MoreAt(input, 7, NotOpenAngle) == Success(Parsed("p>", 9));
    assert MoreAt(input, 6, NotOpenAngle) == Success(Parsed("/p>", 9));
    assert TextAt(input, 5) == Parsed(Text("</p>"), 9);
    var t1, t2 := Text("p>h"), Text("</p>");
    assert NodeAt(input, 1, 0) == Success(Parsed(t1, 4));
    assert NodeAt(input, 5, 0) == Success(Parsed(t2, 9));
    assert NodesLoop(input, 9, [t1, t2], 0) == Success(Parsed([t1, t2], 10));
    assert [t1] + [t2] == [t1, t2] && [] + [t1] == [t1];
    assert NodesLoop(input, 4, [t1], 0) == Success(Parsed([t1, t2], 10));
    assert NodesLoop(input, 0, [], 0) == Success(Parsed([t1, t2], 10));
  }

  // ---------------------------------------------------------------------
  // The parser

  /** The input and the cursor. Only the cursor changes. */
  class Parser {
    var pos: nat
    const input: string

    constructor (pos: nat, input: string)
      ensures this.pos == pos && this.input == input
    {
      this.pos := pos;
      this.input := input;
    }

    /** `eof`: the cursor is at or past the end. */
    predicate Eof()
      reads this
    {
      pos >= |input|
    }

    /** `nextChar`: the character after the cursor, if any. */
    function NextChar(): Option<char>
      reads this
    {
      CharAt(input, pos + 1)
    }

    /** `startsWith`; the source calls it only before the end, where the
        character at the cursor is defined. */
    predicate StartsWith(str: string)
      requires !Eof()
      reads this
    {
      StartsWithAt(input, pos, str)
    }

    /** `consumeChar`: the character at the cursor (`undefined` past the
        end); the cursor moves on by one in every case. */
    method ConsumeChar() returns (c: Option<char>)
      modifies this
      ensures c == CharAt(input, old(pos)) && pos == old(pos) + 1
    {
      c := CharAt(input, pos);
      pos := pos + 1;
    }

    method ConsumeWhile(test: CharTest) returns (r: Result<string, ParseError>)
      modifies this
      ensures After(r, pos) == ConsumeWhileAt(input, old(pos), test)
    {
      var c := ConsumeChar();
      var result := Piece(c);
      while !Eof()
        invariant old(pos) < pos
        invariant ConsumeWhileAt(input, old(pos), test) == Prefixed(result, MoreAt(input, pos, test))
        decreases |input| - pos
      {
        var more := Test(test, NextChar());
        if more.Failure? {
          return Failure(more.error);
        }
        if !more.value {
          break;
        }
        c := ConsumeChar();
        PrefixedTwice(result, Piece(c), MoreAt(input, pos, test));
        result := result + Piece(c);
      }
      assert result + "" == result;
      r := Success(result);
    }

    method ConsumeWhitespace()
      modifies this
      ensures pos == old(pos) + 1
    {
      WhitespaceConsumesOne(input, pos);
      var _ := ConsumeWhile(EmptyString);
    }

    method ParseTagName() returns (r: Result<string, ParseError>)
      modifies this
      ensures After(r, pos) == ConsumeWhileAt(input, old(pos), TagChar)
    {
      r := ConsumeWhile(TagChar);
    }

    method ParseText() returns (n: DomNode)
      modifies this
      ensures Parsed(n, pos) == TextAt(input, old(pos))
    {
      var t := ConsumeWhile(NotOpenAngle);
      n := Text(t.value);
    }

    method ParseAttrValue() returns (v: string)
      modifies this
      ensures Parsed(v, pos) == AttrValueAt(input, old(pos))
    {
      var openQuote := ConsumeChar();
      var r := ConsumeWhile(NotQuote(openQuote));
      v := r.value;
    }

    method ParseAttr() returns (r: Result<(string, string), ParseError>)
      modifies this
      ensures After(r, pos) == AttrAt(input, old(pos))
    {
      var name := ParseTagName();
      if name.Failure? {
        return Failure(name.error);
      }
      var _ := ConsumeChar();
      var value := ParseAttrValue();
      r := Success((name.value, value));
    }

    /** `parseAttributes`, with at most `fuel` rounds of its loop. */
    method ParseAttributes(fuel: nat) returns (r: Result<AttrMap, ParseError>)
      modifies this
      ensures After(r, pos) == AttributesAt(input, old(pos), fuel)
    {
      var attributes: AttrMap := map[];
      ghost var pairs: seq<(string, string)> := [];
      var rounds := fuel;
      while true
        invariant AttributesLoop(input, old(pos), [], fuel) == AttributesLoop(input, pos, pairs, rounds)
        invariant attributes == ToMap(pairs)
        decreases rounds
      {
        if rounds == 0 {
          return Failure(OutOfFuel);
        }
        ghost var before := pos;
        var round := ParseAttributeRound();
        if round.Failure? {
          return Failure(round.error);
        }
        if round.value.None? {
          break;
        }
        var attr := round.value.value;
        AttributesLoopStep(input, before, pos, pairs, attr, rounds);
        ToMapSnoc(pairs, attr);
        attributes := attributes[attr.0 := attr.1];
        pairs := pairs + [attr];
        rounds := rounds - 1;
      }
      r := Success(attributes);
    }

    /** The body of the loop of `parseAttributes`. */
    method ParseAttributeRound() returns (r: Result<Option<(string, string)>, ParseError>)
      modifies this
      ensures After(r, pos) == AttributeRound(input, old(pos))
    {
      ConsumeWhitespace();
      if NextChar() == Some('>') {
        return Success(None);
      }
      var attr := ParseAttr();
      if attr.Failure? {
        return Failure(attr.error);
      }
      r := Success(Some(attr.value));
    }

    /** `parseNodes`. */
    method ParseNodes(fuel: nat) returns (r: Result<seq<DomNode>, ParseError>)
      modifies this
      decreases Rest(input, pos), 2
      ensures After(r, pos) == NodesLoop(input, old(pos), [], fuel)
    {
      var nodes: seq<DomNode> := [];
      while true
        invariant old(pos) <= pos
        invariant NodesLoop(input, old(pos), [], fuel) == NodesLoop(input, pos, nodes, fuel)
        decreases Rest(input, pos)
      {
        ghost var before := pos;
        ConsumeWhitespace();
        if Eof() || StartsWith("</") {
          break;
        }
        var node := ParseNode(fuel);
        if node.Failure? {
          return Failure(node.error);
        }
        NodesLoopStep(input, before, pos, nodes, node.value, fuel);
        nodes := nodes + [node.value];
      }
      r := Success(nodes);
    }

    /** `parseNode`. */
    method ParseNode(fuel: nat) returns (r: Result<DomNode, ParseError>)
      requires !Eof()
      modifies this
      decreases Rest(input, pos), 1
      ensures After(r, pos) == NodeAt(input, old(pos), fuel)
    {
      if NextChar() == Some('<') {
        r := ParseElement(fuel);
      } else {
        var n := ParseText();
        r := Success(n);
      }
    }

    /** `parseElement`. */
    method ParseElement(fuel: nat) returns (r: Result<DomNode, ParseError>)
      requires !Eof()
      modifies this
      decreases Rest(input, pos), 0
      ensures After(r, pos) == ElementAt(input, old(pos), fuel)
    {
      var tagName := ParseTagName();
      if tagName.Failure? {
        return Failure(tagName.error);
      }
      var attrs := ParseAttributes(fuel);
      if attrs.Failure? {
        return Failure(attrs.error);
      }
      var children := ParseNodes(fuel);
      if children.Failure? {
        return Failure(children.error);
      }
      ParseClosingTag();
      r := Success(Elem(tagName.value, attrs.value, children.value));
    }

    /** The end of `parseElement`, past the end of the input: two
        characters, a tag name (the text `"undefined"`) and one character. */
    method ParseClosingTag()
      requires Eof()
      modifies this
      ensures pos == old(pos) + 4
    {
      var _ := ConsumeChar();
      var _ := ConsumeChar();
      var _ := ParseTagName();
      var _ := ConsumeChar();
    }
  }

  lemma AttributesLoopStep(input: string, pos: nat, next: nat, acc: seq<(string, string)>, a: (string, string), fuel: nat)
    requires 0 < fuel && AttributeRound(input, pos) == Success(Parsed(Some(a), next))
    ensures AttributesLoop(input, pos, acc, fuel) == AttributesLoop(input, next, acc + [a], fuel - 1)
  {
  }

  lemma NodesLoopStep(input: string, pos: nat, next: nat, acc: seq<DomNode>, n: DomNode, fuel: nat)
    requires pos + 1 < |input| && NodeAt(input, pos + 1, fuel) == Success(Parsed(n, next))
    ensures NodesLoop(input, pos, acc, fuel) == NodesLoop(input, next, acc + [n], fuel)
  {
  }

  /** `parse`: a parser at position 0 over the whole source. */
  method Parse(source: string, fuel: nat) returns (r: Result<DomNode, ParseError>)
    ensures r == DocumentOf(source, fuel)
  {
    var parser := new Parser(0, source);
    var nodes := parser.ParseNodes(fuel);
    if nodes.Failure? {
      return Failure(nodes.error);
    }
    if |nodes.value| == 1 {
      return Success(nodes.value[0]);
    }
    r := Success(Elem("html", map[], nodes.value));
  }
}
