/** The stylesheet parser of src/css.ts: a cursor over the input string
    that the parsing methods advance. The functions of the first part say,
    for a cursor position, what each method returns and where it leaves
    the cursor; the `Parser` class below runs the methods on its `pos`
    field and is proved to agree with them.

    As written, `nextChar` reads the character AFTER the cursor
    (`input[pos + 1]`), while `consumeChar` consumes the one AT it; every
    test below follows that. */
module CssParser {
  import opened Wrappers
  import opened Chars
  import opened Css

  // ---------------------------------------------------------------------
  // Character tests

  /** The tests `consumeWhile` is given: `validIdentifierChar`, the digit
      test of `parseFloat` and the whitespace test of `consumeWhitespace`. */
  datatype CharTest = IdentifierChar | DigitChar | Whitespace

  predicate Accepts(test: CharTest, c: char) {
    match test
    case IdentifierChar => ValidIdentifierChar(c)
    case DigitChar => IsAsciiDigit(c)
    case Whitespace => c == ' '
  }

  /** A test applied to a character or to `undefined`. The identifier and
      digit tests call `.match` on their argument and throw a `TypeError`
      on `undefined`; the whitespace test accepts `undefined`. */
  function Test(test: CharTest, c: Option<char>): (r: Result<bool, ParseError>)
    ensures r.Failure? <==> c.None? && test != Whitespace
    ensures r.Failure? ==> r.error == TypeError
    ensures c.None? && test == Whitespace ==> r == Success(true)
    ensures c.Some? ==> r == Success(Accepts(test, c.value))
  {
    match c
    case None => if test == Whitespace then Success(true) else Failure(TypeError)
    case Some(ch) => Success(Accepts(test, ch))
  }

  // ---------------------------------------------------------------------
  // What each parsing step does, as a function of the cursor position

  /** `consumeWhile`: while not at the end, consume the character at the
      cursor if the test accepts the character AFTER it; when it does not,
      append the character at the cursor (unconsumed) if the test accepts
      that one, and stop. */
  function ConsumeWhileAt(input: string, pos: nat, test: CharTest): (r: Result<Parsed<string>, ParseError>)
    decreases |input| - pos
    ensures r.Failure? ==> r.error == TypeError && test != Whitespace
    ensures pos >= |input| ==> r == Success(Parsed("", pos))
    ensures r.Success? ==> pos <= r.value.pos
    ensures r.Success? && pos <= |input| ==> r.value.pos <= |input|
    ensures r.Success? && pos < |input| && Test(test, CharAt(input, pos + 1)) == Success(true) ==> pos < r.value.pos
  {
    if pos >= |input| then Success(Parsed("", pos))
    else
      match Test(test, CharAt(input, pos + 1))
      case Failure(e) => Failure(e)
      case Success(more) =>
        if !more then
          Success(Parsed(if Accepts(test, input[pos]) then [input[pos]] else "", pos))
        else
          match ConsumeWhileAt(input, pos + 1, test)
          case Failure(e) => Failure(e)
          case Success(rest) => Success(Parsed([input[pos]] + rest.value, rest.pos))
  }

  /** What `consumeWhile` returns: the characters it consumed, and one
      more, the unconsumed character at the cursor, when the test accepts
      it. Every character but the first was accepted by the test (each was
      consumed because the test accepted it as the character after the
      cursor). The loop stops, short of the end, only before a character
      the test refuses. */
  lemma {:induction false} ConsumeWhileText(input: string, pos: nat, test: CharTest)
    requires pos <= |input| && ConsumeWhileAt(input, pos, test).Success?
    decreases |input| - pos
    ensures var p := ConsumeWhileAt(input, pos, test).value;
      (p.value == input[pos..p.pos] || (p.pos < |input| && p.value == input[pos..p.pos + 1]))
      && (forall i :: 1 <= i < |p.value| ==> Accepts(test, p.value[i]))
      && (p.pos < |input| ==> p.pos + 1 < |input| && !Accepts(test, input[p.pos + 1]))
  {
    if pos < |input| && Test(test, CharAt(input, pos + 1)) == Success(true) {
      ConsumeWhileText(input, pos + 1, test);
      var rest := ConsumeWhileAt(input, pos + 1, test).value;
      assert rest.value == input[pos + 1..rest.pos] ==> [input[pos]] + rest.value == input[pos..rest.pos];
      assert rest.pos < |input| && rest.value == input[pos + 1..rest.pos + 1] ==>
        [input[pos]] + rest.value == input[pos..rest.pos + 1];
    }
  }

  /** The cursor position after `consumeWhitespace`. */
  function SkipWhitespace(input: string, pos: nat): (p: nat)
    ensures pos <= p
    ensures pos <= |input| ==> p <= |input|
    ensures pos >= |input| ==> p == pos
  {
    var r := ConsumeWhileAt(input, pos, Whitespace);
    if r.Success? then r.value.pos else pos
  }

  /** `consumeWhitespace` passes over spaces, and stops short of the end
      only before a character that is not a space. It reads the character
      after the cursor, so the last character of the input is consumed
      whatever it is. */
  lemma SkipWhitespaceSpaces(input: string, pos: nat)
    requires pos <= |input|
    ensures var p := SkipWhitespace(input, pos);
      (forall i :: pos + 1 <= i < p ==> input[i] == ' ')
      && (p < |input| ==> p + 1 < |input| && input[p + 1] != ' ')
      && (pos + 1 == |input| ==> p == |input|)
  {
    ConsumeWhileText(input, pos, Whitespace);
    var p := SkipWhitespace(input, pos);
    var v := ConsumeWhileAt(input, pos, Whitespace).value.value;
    forall i | pos + 1 <= i < p
      ensures input[i] == ' '
    {
      assert v[i - pos] == input[i];
    }
  }

  /** One round of the loop of `parseSimpleSelector`, not at the end of
      the input: `#` sets the id, `.` appends a class, `*` is skipped, an
      identifier character starts the type name; `None`, with the cursor
      where it was, when the round ends the selector instead. */
  function SelectorRound(input: string, pos: nat, sel: SimpleSelector): (r: Result<Parsed<Option<SimpleSelector>>, ParseError>)
    requires pos < |input|
    ensures r.Failure? ==> r.error == TypeError
    ensures r.Success? && r.value.value.None? <==> SelectorStop(CharAt(input, pos + 1))
    ensures r.Success? && r.value.value.None? ==> r.value.pos == pos
    ensures r.Success? && r.value.value.Some? ==>
      pos < r.value.pos <= |input| && sel.classes <= r.value.value.value.classes
  {
    var next := CharAt(input, pos + 1);
    if next == Some('#') then
      match ConsumeWhileAt(input, pos + 1, IdentifierChar)
      case Failure(e) => Failure(e)
      case Success(id) => Success(Parsed(Some(sel.(id := id.value)), id.pos))
    else if next == Some('.') then
      match ConsumeWhileAt(input, pos + 1, IdentifierChar)
      case Failure(e) => Failure(e)
      case Success(c) => Success(Parsed(Some(sel.(classes := sel.classes + [c.value])), c.pos))
    else if next == Some('*') then
      Success(Parsed(Some(sel), pos + 1))
    else
      match Test(IdentifierChar, next)
      case Failure(e) => Failure(e)
      case Success(isName) =>
        if !isName then Success(Parsed(None, pos))
        else
          match ConsumeWhileAt(input, pos, IdentifierChar)
          case Failure(e) => Failure(e)
          case Success(name) => Success(Parsed(Some(sel.(tagName := name.value)), name.pos))
  }

  /** `parseSimpleSelector`, from `sel` onwards: rounds until the end of
      the input or a character that ends the selector. */
  function SimpleSelectorAt(input: string, pos: nat, sel: SimpleSelector): (r: Result<Parsed<SimpleSelector>, ParseError>)
    decreases |input| - pos
    ensures r.Failure? ==> r.error == TypeError
    ensures r.Success? ==> pos <= r.value.pos
    ensures r.Success? && pos <= |input| ==> r.value.pos <= |input|
    ensures r.Success? ==> sel.classes <= r.value.value.classes
    ensures r.Success? && r.value.pos < |input| ==> SelectorStop(CharAt(input, r.value.pos + 1))
    ensures pos < |input| && SelectorStop(CharAt(input, pos + 1)) ==> r == Success(Parsed(sel, pos))
  {
    if pos >= |input| then Success(Parsed(sel, pos))
    else
      match SelectorRound(input, pos, sel)
      case Failure(e) => Failure(e)
      case Success(round) =>
        match round.value
        case None => Success(Parsed(sel, pos))
        case Some(next) => SimpleSelectorAt(input, round.pos, next)
  }

  /** What one round of `parseSimpleSelector` does to the selector: after
      a `#` the identifier read replaces the id, so a later id overwrites
      an earlier one; after a `.` the identifier read is appended to the
      classes; a `*` is passed over and changes nothing; an identifier
      character sets the type name only, read from the cursor itself. The
      id or class read keeps the `#` or `.` in front, unless it is empty. */
  lemma SelectorRoundFields(input: string, pos: nat, sel: SimpleSelector)
    requires pos < |input|
    ensures var r := SelectorRound(input, pos, sel);
      var word := ConsumeWhileAt(input, pos + 1, IdentifierChar);
      CharAt(input, pos + 1) == Some('#') && r.Success? ==>
        word.Success? && r.value == Parsed(Some(sel.(id := word.value.value)), word.value.pos)
    ensures var r := SelectorRound(input, pos, sel);
      var word := ConsumeWhileAt(input, pos + 1, IdentifierChar);
      CharAt(input, pos + 1) == Some('.') && r.Success? ==>
        word.Success? && r.value == Parsed(Some(sel.(classes := sel.classes + [word.value.value])), word.value.pos)
    ensures CharAt(input, pos + 1) == Some('*') ==> SelectorRound(input, pos, sel) == Success(Parsed(Some(sel), pos + 1))
    ensures var r := SelectorRound(input, pos, sel);
      var next := CharAt(input, pos + 1);
      r.Success? && r.value.value.Some? && next.Some? && next.value != '#' && next.value != '.' && next.value != '*' ==>
        var name := ConsumeWhileAt(input, pos, IdentifierChar);
        name.Success? && r.value.value.value == sel.(tagName := name.value.value)
    ensures var r := SelectorRound(input, pos, sel);
      var next := CharAt(input, pos + 1);
      r.Success? && r.value.value.Some? && (next == Some('#') || next == Some('.')) ==>
        var s := r.value.value.value;
        (s.id == sel.id || s.id == [] || s.id[0] == '#')
        && (|s.classes| == |sel.classes| || s.classes[|sel.classes|] == [] || s.classes[|sel.classes|][0] == '.')
  {
  }

  /** A selector's id changes only after a `#` and its class list grows
      only after a `.`, each found between the start and the end of
      `parseSimpleSelector`. */
  lemma {:induction false} SimpleSelectorMarkers(input: string, pos: nat, sel: SimpleSelector)
    requires SimpleSelectorAt(input, pos, sel).Success?
    decreases |input| - pos
    ensures var r := SimpleSelectorAt(input, pos, sel).value;
      r.value.id != sel.id ==> exists i :: pos < i <= r.pos && i < |input| && input[i] == '#'
    ensures var r := SimpleSelectorAt(input, pos, sel).value;
      |r.value.classes| != |sel.classes| ==> exists i :: pos < i <= r.pos && i < |input| && input[i] == '.'
  {
    if pos < |input| {
      var round := SelectorRound(input, pos, sel);
      if round.value.value.Some? {
        var next := round.value.value.value;
        SelectorRoundFields(input, pos, sel);
        SimpleSelectorMarkers(input, round.value.pos, next);
      }
    }
  }

  /** A next character on which `parseSimpleSelector` stops. */
  predicate SelectorStop(next: Option<char>) {
    next.Some? && next.value !in "#.*" && !ValidIdentifierChar(next.value)
  }

  /** One round of the loop of `parseSelector`: a simple selector, then
      whitespace, then a `,` (one character and the whitespace after it are
      consumed) or a `{` (the list ends, `true`); on anything else the loop
      goes round again. */
  function SelectorListRound(input: string, pos: nat): (r: Result<Parsed<(SimpleSelector, bool)>, ParseError>)
    ensures r.Success? ==> pos <= r.value.pos
    ensures r.Success? && r.value.value.1 ==> CharAt(input, r.value.pos + 1) == Some('{')
  {
    match SimpleSelectorAt(input, pos, SimpleSelector("", "", []))
    case Failure(e) => Failure(e)
    case Success(s) =>
      var p := SkipWhitespace(input, s.pos);
      var next := CharAt(input, p + 1);
      if next == Some(',') then Success(Parsed((s.value, false), SkipWhitespace(input, p + 1)))
      else Success(Parsed((s.value, next == Some('{')), p))
  }

  /** The loop of `parseSelector`, with at most `fuel` rounds. */
  function SelectorsLoop(input: string, pos: nat, acc: seq<SimpleSelector>, fuel: nat): (r: Result<Parsed<seq<SimpleSelector>>, ParseError>)
    decreases fuel
    ensures r.Success? ==> pos <= r.value.pos
  {
    if fuel == 0 then Failure(OutOfFuel)
    else
      match SelectorListRound(input, pos)
      case Failure(e) => Failure(e)
      case Success(round) =>
        var more := acc + [round.value.0];
        if round.value.1 then Success(Parsed(more, round.pos))
        else SelectorsLoop(input, round.pos, more, fuel - 1)
  }

  /** `Array.prototype.sort` with comparator `cmp`. The order a sort
      leaves behind for an inconsistent comparator is up to the JavaScript
      engine; the model sorts by insertion, as engines do for short arrays,
      and promises only a permutation. */
  function SortBy(s: seq<SimpleSelector>, cmp: (SimpleSelector, SimpleSelector) -> int): (t: seq<SimpleSelector>)
    ensures multiset(t) == multiset(s)
  {
    if s == [] then []
    else
      assert s == s[..|s| - 1] + [s[|s| - 1]];
      InsertBy(s[|s| - 1], SortBy(s[..|s| - 1], cmp), cmp)
  }

  /** Insert `x` before the first element `cmp` ranks after it. */
  function InsertBy(x: SimpleSelector, sorted: seq<SimpleSelector>, cmp: (SimpleSelector, SimpleSelector) -> int): (t: seq<SimpleSelector>)
    ensures multiset(t) == multiset(sorted) + multiset{x}
  {
    if sorted == [] || cmp(x, sorted[0]) < 0 then [x] + sorted
    else
      assert sorted == [sorted[0]] + sorted[1..];
      [sorted[0]] + InsertBy(x, sorted[1..], cmp)
  }

  /** The elements of `s` from last to first. */
  function Reversed<T>(s: seq<T>): (t: seq<T>)
    ensures |t| == |s|
  {
    if s == [] then [] else [s[|s| - 1]] + Reversed(s[..|s| - 1])
  }

  /** `Reversed` puts the element `i` places from the end at index `i`. */
  lemma {:induction false} ReversedIndex<T>(s: seq<T>)
    ensures forall i :: 0 <= i < |s| ==> Reversed(s)[i] == s[|s| - 1 - i]
  {
    if s != [] {
      var init := s[..|s| - 1];
      ReversedIndex(init);
      var r := Reversed(init);
      assert Reversed(s) == [s[|s| - 1]] + r;
      forall i | 0 < i < |s|
        ensures Reversed(s)[i] == s[|s| - 1 - i]
      {
        assert r[i - 1] == init[|s| - 1 - i];
      }
    }
  }

  /** Because the comparator ranks every element before every other, the
      insertion sort puts each new element in front: the selectors come out
      in the reverse of their source order, whatever their specificity. */
  lemma {:induction false} SortReverses(s: seq<SimpleSelector>)
    ensures SortBy(s, SelectorComparator) == Reversed(s)
  {
    if s != [] {
      SortReverses(s[..|s| - 1]);
    }
  }

  /** An id selector written first ends up after a plain one, although it
      is the more specific of the two. */
  lemma SortIgnoresSpecificity(withId: SimpleSelector, plain: SimpleSelector)
    requires withId.id != "" && plain.id == ""
    ensures MoreSpecific(withId.Specificity(), plain.Specificity())
    ensures SortBy([withId, plain], SelectorComparator) == [plain, withId]
  {
    SortReverses([withId, plain]);
    assert Reversed([withId, plain]) == [plain] + Reversed([withId]);
  }

  /** `parseSelector`: the selectors of the loop, sorted. */
  function SelectorAt(input: string, pos: nat, fuel: nat): (r: Result<Parsed<seq<SimpleSelector>>, ParseError>)
    ensures r.Success? ==> pos <= r.value.pos
  {
    match SelectorsLoop(input, pos, [], fuel)
    case Failure(e) => Failure(e)
    case Success(l) => Success(Parsed(SortBy(l.value, SelectorComparator), l.pos))
  }

  /** The loop of `parseSelector` keeps the selectors before it, adds at
      least one, and ends before a `{`. */
  lemma {:induction false} SelectorsLoopEnds(input: string, pos: nat, acc: seq<SimpleSelector>, fuel: nat)
    requires SelectorsLoop(input, pos, acc, fuel).Success?
    ensures var r := SelectorsLoop(input, pos, acc, fuel).value;
      acc <= r.value && |acc| < |r.value| && CharAt(input, r.pos + 1) == Some('{')
    decreases fuel
  {
    var round := SelectorListRound(input, pos).value;
    if !round.value.1 {
      SelectorsLoopEnds(input, round.pos, acc + [round.value.0], fuel - 1);
    }
  }

  /** `parseSelector` returns the selectors of its loop, at least one, in
      some order, and stops before a `{`. */
  lemma SelectorAtPermutes(input: string, pos: nat, fuel: nat)
    ensures SelectorAt(input, pos, fuel).Success? <==> SelectorsLoop(input, pos, [], fuel).Success?
    ensures SelectorAt(input, pos, fuel).Success? ==>
      var r := SelectorAt(input, pos, fuel).value;
      multiset(r.value) == multiset(SelectorsLoop(input, pos, [], fuel).value.value)
      && |r.value| > 0 && CharAt(input, r.pos + 1) == Some('{')
  {
    if SelectorsLoop(input, pos, [], fuel).Success? {
      SelectorsLoopEnds(input, pos, [], fuel);
    }
  }

  /** `parseHexPair`: `parseInt(…, 16)` of the THREE characters at the
      cursor, `None` standing for `NaN`; the cursor moves on by two. Past
      the end JavaScript concatenates `undefined`, whose `u` ends the
      number just as the end of the text does, so reading only the
      characters that exist gives the same number. */
  function HexPairAt(input: string, pos: nat): (r: Parsed<Option<int>>)
    ensures r.pos == pos + 2
    ensures ChannelInRange(r.value)
  {
    var digits := Window(input, pos, 3);
    ParseInt16Bound(digits);
    PowMono(16, |digits|, 3);
    assert Pow(16, 3) == 4096;
    Parsed(ParseInt16(digits), pos + 2)
  }

  /** A number of at most three hexadecimal digits, with its sign: from
      -4095 to 4095. */
  predicate ChannelInRange(channel: Option<int>) {
    channel.Some? ==> -4096 < channel.value < 4096
  }

  /** `parseColor`: skip one character, then four hexadecimal pairs for
      red, green, blue and alpha. */
  function ColorAt(input: string, pos: nat): (r: Parsed<Color>)
    ensures r.pos == pos + 9
    ensures ChannelInRange(r.value.r) && ChannelInRange(r.value.g)
    ensures ChannelInRange(r.value.b) && ChannelInRange(r.value.a)
  {
    Parsed(Color(HexPairAt(input, pos + 1).value, HexPairAt(input, pos + 3).value,
                 HexPairAt(input, pos + 5).value, HexPairAt(input, pos + 7).value), pos + 9)
  }

  /** `parseFloat`: `Number.parseFloat` of the text `consumeWhile` collects
      with the digit test, `None` standing for `NaN`. */
  function FloatAt(input: string, pos: nat): (r: Result<Parsed<Option<real>>, ParseError>)
    ensures r.Failure? ==> r.error == TypeError
    ensures r.Success? ==> pos <= r.value.pos
  {
    match ConsumeWhileAt(input, pos, DigitChar)
    case Failure(e) => Failure(e)
    case Success(digits) => Success(Parsed(ParseFloat(digits.value), digits.pos))
  }

  /** `consumeWhile` over characters the test accepts, up to one it
      refuses: it stops on the character before the refused one and
      returns the characters from the cursor to there, the last one only
      when the test accepts it. */
  lemma {:induction false} ConsumeWhileRun(input: string, pos: nat, end: nat, test: CharTest)
    requires pos <= end && end + 1 < |input|
    requires forall i :: pos < i <= end ==> Accepts(test, input[i])
    requires !Accepts(test, input[end + 1])
    decreases end - pos
    ensures ConsumeWhileAt(input, pos, test)
      == Success(Parsed(input[pos..end] + (if Accepts(test, input[end]) then [input[end]] else []), end))
  {
    assert CharAt(input, pos + 1) == Some(input[pos + 1]);
    var last := if Accepts(test, input[end]) then [input[end]] else [];
    if pos < end {
      assert Accepts(test, input[pos + 1]);
      ConsumeWhileRun(input, pos + 1, end, test);
      assert [input[pos]] + (input[pos + 1..end] + last) == input[pos..end] + last;
    } else {
      assert Test(test, CharAt(input, pos + 1)) == Success(false);
      assert input[pos..end] + last == last;
    }
  }

  /** Started on a character the digit or identifier test accepts,
      `consumeWhile` returns the characters from the cursor up to and
      including the one it stops on. */
  lemma {:induction false} ConsumeWhileFromAccepted(input: string, pos: nat, test: CharTest)
    requires test != Whitespace
    requires pos < |input| && Accepts(test, input[pos]) && ConsumeWhileAt(input, pos, test).Success?
    decreases |input| - pos
    ensures var p := ConsumeWhileAt(input, pos, test).value;
      p.pos < |input| && p.value == input[pos..p.pos + 1]
      && forall i :: pos <= i <= p.pos ==> Accepts(test, input[i])
  {
    if Test(test, CharAt(input, pos + 1)) == Success(true) {
      ConsumeWhileFromAccepted(input, pos + 1, test);
      var rest := ConsumeWhileAt(input, pos + 1, test).value;
      assert [input[pos]] + input[pos + 1..rest.pos + 1] == input[pos..rest.pos + 1];
    }
  }

  /** When the test accepts the character after the cursor, `consumeWhile`
      returns the character AT the cursor, whatever it is, followed by the
      run of accepted characters that starts after it, and leaves the
      cursor on the last of them. With the digit test, this is the text
      `parseFloat` reads whenever `parseValue` calls `parseLength`. */
  lemma ConsumeWhileAfterAccepted(input: string, pos: nat, test: CharTest)
    requires test != Whitespace
    requires pos + 1 < |input| && Accepts(test, input[pos + 1]) && ConsumeWhileAt(input, pos, test).Success?
    ensures var p := ConsumeWhileAt(input, pos, test).value;
      pos < p.pos < |input|
      && (forall i :: pos < i <= p.pos ==> Accepts(test, input[i]))
      && p.value == input[pos..p.pos + 1]
  {
    assert Test(test, CharAt(input, pos + 1)) == Success(true);
    var rest := ConsumeWhileAt(input, pos + 1, test);
    assert rest.Success?;
    assert ConsumeWhileAt(input, pos, test).value == Parsed([input[pos]] + rest.value.value, rest.value.pos);
    ConsumeWhileFromAccepted(input, pos + 1, test);
    assert [input[pos]] + rest.value.value == input[pos..rest.value.pos + 1];
  }

  /** `parseUnit`: an identifier that is `px` in any case is the unit px;
      anything else is the empty string, cast to a unit. */
  function UnitAt(input: string, pos: nat): (r: Result<Parsed<Unit>, ParseError>)
    ensures r.Failure? ==> r.error == TypeError
    ensures r.Success? ==> pos <= r.value.pos
    ensures r.Success? <==> ConsumeWhileAt(input, pos, IdentifierChar).Success?
    ensures r.Success? ==>
      (r.value.value == Px <==> ConsumeWhileAt(input, pos, IdentifierChar).value.value in {"px", "pX", "Px", "PX"})
  {
    match ConsumeWhileAt(input, pos, IdentifierChar)
    case Failure(e) => Failure(e)
    case Success(name) =>
      PxAnyCase(name.value);
      Success(Parsed(if AsciiLower(name.value) == "px" then Px else NoUnit, name.pos))
  }

  /** `toLowerCase()` gives `px` exactly for the four spellings of it. */
  lemma PxAnyCase(s: string)
    ensures AsciiLower(s) == "px" <==> s in {"px", "pX", "Px", "PX"}
  {
    if AsciiLower(s) == "px" {
      assert |s| == 2;
      assert s[0] == 'p' || s[0] == 'P';
      assert s[1] == 'x' || s[1] == 'X';
      assert s == [s[0], s[1]];
    }
  }

  /** `parseLength`: a number, then a unit. A `NaN` number is stored as
      0. */
  function LengthAt(input: string, pos: nat): (r: Result<Parsed<Value>, ParseError>)
    ensures r.Failure? ==> r.error == TypeError
    ensures r.Success? ==> pos <= r.value.pos && r.value.value.Length?
  {
    match FloatAt(input, pos)
    case Failure(e) => Failure(e)
    case Success(f) =>
      match UnitAt(input, f.pos)
      case Failure(e) => Failure(e)
      case Success(u) => Success(Parsed(Length(NumberOrZero(f.value), u.value), u.pos))
  }

  /** A number, with `NaN` as 0. */
  function NumberOrZero(n: Option<real>): real {
    if n.Some? then n.value else 0.0
  }

  /** `parseValue`: decided by the character after the cursor: none gives a
      keyword, a digit a length, `#` a color, anything else a keyword. */
  function ValueAt(input: string, pos: nat): (r: Result<Parsed<Value>, ParseError>)
    ensures r.Failure? ==> r.error == TypeError
    ensures r.Success? ==> pos <= r.value.pos
  {
    var next := CharAt(input, pos + 1);
    if next.Some? && IsAsciiDigit(next.value) then LengthAt(input, pos)
    else if next == Some('#') then
      var c := ColorAt(input, pos);
      Success(Parsed(ColorValue(c.value), c.pos))
    else
      match ConsumeWhileAt(input, pos, IdentifierChar)
      case Failure(e) => Failure(e)
      case Success(word) => Success(Parsed(Keyword(word.value), word.pos))
  }

  /** The kind of value `parseValue` returns is decided by the character
      after the cursor: a color exactly for `#` (always parsed, nine
      characters on), a length exactly for a digit, a keyword otherwise. */
  lemma ValueKinds(input: string, pos: nat)
    ensures var r := ValueAt(input, pos);
      var next := CharAt(input, pos + 1);
      (r.Success? ==>
        (r.value.value.ColorValue? <==> next == Some('#'))
        && (r.value.value.Length? <==> next.Some? && IsAsciiDigit(next.value))
        && (r.value.value.Keyword? <==> next.None? || (next.value != '#' && !IsAsciiDigit(next.value))))
      && (next == Some('#') ==> r.Success? && r.value.pos == pos + 9)
  {
  }

  /** `parseValue` calls `parseColor` when the character AFTER the cursor
      is `#`, so the character `parseColor` skips is the one before the
      `#`, and the window of the red channel starts with the `#`: red is
      always `NaN`. */
  lemma ColorRedIsNaN(input: string, pos: nat)
    requires CharAt(input, pos + 1) == Some('#')
    ensures var r := ValueAt(input, pos);
      r.Success? && r.value.value.ColorValue? && r.value.value.color.r == None
  {
    ParseInt16NoDigit(Window(input, pos + 1, 3));
  }

  /** The text `parseUnit` reads starts on the last digit of the number
      (where `parseFloat` leaves the cursor), so a length never gets the
      unit px. */
  lemma LengthUnitNeverPx(input: string, pos: nat)
    requires ValueAt(input, pos).Success? && ValueAt(input, pos).value.value.Length?
    ensures ValueAt(input, pos).value.value.unit == NoUnit
  {
    ConsumeWhileAfterAccepted(input, pos, DigitChar);
    var f := FloatAt(input, pos).value;
    assert IsAsciiDigit(input[f.pos]);
    var name := ConsumeWhileAt(input, f.pos, IdentifierChar).value.value;
    ConsumeWhileText(input, f.pos, IdentifierChar);
    if name != [] {
      assert name[0] == input[f.pos];
    }
  }

  /** `parseLength` on a run of digits after the cursor, ending at `end`,
      followed by a run of identifier characters ending at `uend`: the
      number is `Number.parseFloat` of the text from the cursor (whatever
      character it is on) through the last digit, and the unit text starts
      on that last digit, so the unit is never px. */
  lemma LengthOfRun(input: string, pos: nat, end: nat, uend: nat)
    requires pos < end <= uend && uend + 1 < |input|
    requires forall i :: pos < i <= end ==> IsAsciiDigit(input[i])
    requires !IsAsciiDigit(input[end + 1])
    requires forall i :: end < i <= uend ==> ValidIdentifierChar(input[i])
    requires !ValidIdentifierChar(input[uend + 1])
    ensures LengthAt(input, pos) == Success(Parsed(Length(NumberOrZero(ParseFloat(input[pos..end + 1])), NoUnit), uend))
    ensures ValueAt(input, pos) == LengthAt(input, pos)
  {
    ConsumeWhileRun(input, pos, end, DigitChar);
    assert input[pos..end] + [input[end]] == input[pos..end + 1];
    ConsumeWhileRun(input, end, uend, IdentifierChar);
    var name := input[end..uend] + [input[uend]];
    assert name[0] == input[end];
    assert AsciiLower(name)[0] != 'p';
  }

  /** The value of `padding: 10px;`, read from the space before the digits. */
  lemma PaddingValue(input: string)
    requires |input| == 14 && input[8] == ' ' && input[9] == '1' && input[10] == '0'
    requires input[11] == 'p' && input[12] == 'x' && input[13] == ';'
    ensures ValueAt(input, 8) == Success(Parsed(Length(10.0, NoUnit), 12))
  {
    LengthOfRun(input, 8, 10, 12);
    PaddingNumber(input[8..11]);
  }

  /** `Number.parseFloat(" 10")` skips the space: 10. */
  lemma PaddingNumber(text: string)
    requires |text| == 3 && text[0] == ' ' && text[1] == '1' && text[2] == '0'
    ensures ParseFloat(text) == Some(10.0)
  {
    var ds := text[1..];
    assert [text[0]] + ds == text;
    assert ds[..1][..0] == [];
    assert DecimalValue(ds[..1]) == 1;
    assert DecimalValue(ds) == 10;
    ParseFloatSignedDigits(text[0], ds);
  }

  /** The value of `width -5px;`, read from the `-`. */
  lemma NegativeValue(input: string)
    requires |input| == 11 && input[6] == '-' && input[7] == '5'
    requires input[8] == 'p' && input[9] == 'x' && input[10] == ';'
    ensures ValueAt(input, 6) == Success(Parsed(Length(-5.0, NoUnit), 9))
  {
    LengthOfRun(input, 6, 7, 9);
    NegativeNumber(input[6..8]);
  }

  /** `Number.parseFloat("-5")` is -5. */
  lemma NegativeNumber(text: string)
    requires |text| == 2 && text[0] == '-' && text[1] == '5'
    ensures ParseFloat(text) == Some(-5.0)
  {
    var ds := text[1..];
    assert [text[0]] + ds == text;
    assert ds[..0] == [];
    assert DecimalValue(ds) == 5;
    ParseFloatSignedDigits(text[0], ds);
  }

  /** In `width:5px;` the number read from the colon is `NaN`. */
  lemma NaNFloat(input: string)
    requires |input| == 10 && input[5] == ':' && input[6] == '5' && input[7] == 'p'
    ensures FloatAt(input, 5) == Success(Parsed(None, 6))
  {
    ConsumeWhileRun(input, 5, 6, DigitChar);
    assert input[5..6] + [input[6]] == input[5..7];
    NaNNumber(input[5..7]);
  }

  /** The value of `width:5px;`, read from the colon. */
  lemma NaNValue(input: string)
    requires |input| == 10 && input[5] == ':' && input[6] == '5'
    requires input[7] == 'p' && input[8] == 'x' && input[9] == ';'
    ensures ValueAt(input, 5) == Success(Parsed(Length(0.0, NoUnit), 8))
  {
    LengthOfRun(input, 5, 6, 8);
    NaNNumber(input[5..7]);
  }

  /** `Number.parseFloat(":5")` finds no number: `NaN`. */
  lemma NaNNumber(text: string)
    requires |text| == 2 && text[0] == ':' && text[1] == '5'
    ensures ParseFloat(text) == None
  {
    var ds := text[1..];
    assert [text[0]] + ds == text;
    ParseFloatLeadChar(text[0], ds);
  }

  /** The declaration `padding: 10px;`, from the name through the `;`. */
  lemma PaddingDeclaration(input: string)
    requires |input| == 14 && forall i :: 0 <= i < 7 ==> ValidIdentifierChar(input[i])
    requires input[7] == ':' && input[8] == ' ' && input[9] == '1' && input[10] == '0'
    requires input[11] == 'p' && input[12] == 'x' && input[13] == ';'
    ensures DeclarationAt(input, 0) == Success(Parsed(Declaration(input[..7], Length(10.0, NoUnit)), 13))
  {
    ConsumeWhileRun(input, 0, 6, IdentifierChar);
    assert input[0..6] + [input[6]] == input[..7];
    ConsumeWhileRun(input, 6, 6, Whitespace);
    ConsumeWhileRun(input, 7, 8, Whitespace);
    PaddingValue(input);
    ConsumeWhileRun(input, 12, 12, Whitespace);
  }

  /** The declaration `width -5px;`: with a space, not a colon, after the
      name, the value is read from the `-`. */
  lemma NegativeDeclaration(input: string)
    requires |input| == 11 && forall i :: 0 <= i < 5 ==> ValidIdentifierChar(input[i])
    requires input[5] == ' ' && input[6] == '-' && input[7] == '5'
    requires input[8] == 'p' && input[9] == 'x' && input[10] == ';'
    ensures DeclarationAt(input, 0) == Success(Parsed(Declaration(input[..5], Length(-5.0, NoUnit)), 10))
  {
    ConsumeWhileRun(input, 0, 4, IdentifierChar);
    assert input[0..4] + [input[4]] == input[..5];
    ConsumeWhileRun(input, 4, 5, Whitespace);
    ConsumeWhileRun(input, 6, 6, Whitespace);
    NegativeValue(input);
    ConsumeWhileRun(input, 9, 9, Whitespace);
  }

  /** The declaration `width:5px;`: the value is read from the colon. */
  lemma NaNDeclaration(input: string)
    requires |input| == 10 && forall i :: 0 <= i < 5 ==> ValidIdentifierChar(input[i])
    requires input[5] == ':' && input[6] == '5'
    requires input[7] == 'p' && input[8] == 'x' && input[9] == ';'
    ensures FloatAt(input, 5) == Success(Parsed(None, 6))
    ensures DeclarationAt(input, 0) == Success(Parsed(Declaration(input[..5], Length(0.0, NoUnit)), 9))
  {
    ConsumeWhileRun(input, 0, 4, IdentifierChar);
    assert input[0..4] + [input[4]] == input[..5];
    ConsumeWhileRun(input, 4, 4, Whitespace);
    ConsumeWhileRun(input, 5, 5, Whitespace);
    NaNFloat(input);
    NaNValue(input);
    ConsumeWhileRun(input, 8, 8, Whitespace);
  }

  /** `padding: 10px;` (written as the name and the rest): the number is read from the text " 10" (the
      cursor sits on the space before the digits), and the unit from "0px",
      which is not `px`. */
  lemma PaddingExample()
    ensures DeclarationAt("padding" + ": 10px;", 0) == Success(Parsed(Declaration("padding", Length(10.0, NoUnit)), 13))
  {
    var input := "padding" + ": 10px;";
    PaddingDeclaration(input);
  }

  /** `width -5px;` (written as the name and the rest): the cursor sits on the `-`, and the number is read
      from "-5". */
  lemma NegativeExample()
    ensures DeclarationAt("width" + " -5px;", 0) == Success(Parsed(Declaration("width", Length(-5.0, NoUnit)), 10))
  {
    var input := "width" + " -5px;";
    NegativeDeclaration(input);
  }

  /** `width:5px;` (written as the name and the rest): the cursor sits on the colon, the number is read from
      ":5", which is `NaN`, and the length is stored as 0. */
  lemma NaNExample()
    ensures FloatAt("width" + ":5px;", 5) == Success(Parsed(None, 6))
    ensures DeclarationAt("width" + ":5px;", 0) == Success(Parsed(Declaration("width", Length(0.0, NoUnit)), 9))
  {
    var input := "width" + ":5px;";
    NaNDeclaration(input);
  }

  /** A color written `#` and eight hexadecimal digits after the cursor:
      red is `NaN`, and green, blue and alpha are the values of the
      three-character windows that start on the SECOND digit of their
      pairs. On `#ff0000ff` they read `f00`, `000` and `0ff`. */
  lemma ColorWindows(input: string, pos: nat)
    requires pos + 10 <= |input| && input[pos + 1] == '#'
    requires forall i :: pos + 2 <= i < pos + 10 ==> IsHexDigit(input[i])
    ensures ValueAt(input, pos) == Success(Parsed(ColorValue(Color(None,
      Some(HexValue(input[pos + 3..pos + 6])), Some(HexValue(input[pos + 5..pos + 8])),
      Some(HexValue(input[pos + 7..pos + 10])))), pos + 9))
  {
    ColorRedIsNaN(input, pos);
    HexWindow(input, pos + 3);
    HexWindow(input, pos + 5);
    HexWindow(input, pos + 7);
  }

  /** A window of three hexadecimal digits is read as their value. */
  lemma HexWindow(input: string, pos: nat)
    requires pos + 3 <= |input| && forall i :: pos <= i < pos + 3 ==> IsHexDigit(input[i])
    ensures HexPairAt(input, pos).value == Some(HexValue(input[pos..pos + 3]) as int)
  {
    var w := input[pos..pos + 3];
    forall i | 0 <= i < 3
      ensures IsHexDigit(w[i])
    {
      assert w[i] == input[pos + i];
    }
    ParseInt16OfHexDigits(w);
  }

  /** `parseDeclaration`: a name, whitespace, one character (the `:`),
      whitespace, a value, whitespace and one character (the `;`). */
  function DeclarationAt(input: string, pos: nat): (r: Result<Parsed<Declaration>, ParseError>)
    ensures r.Failure? ==> r.error == TypeError
    ensures r.Success? ==> pos + 2 <= r.value.pos
  {
    match ConsumeWhileAt(input, pos, IdentifierChar)
    case Failure(e) => Failure(e)
    case Success(name) =>
      match DeclaredValueAt(input, name.pos)
      case Failure(e) => Failure(e)
      case Success(v) => Success(Parsed(Declaration(name.value, v.value), v.pos))
  }

  /** The part of `parseDeclaration` after the name. */
  function DeclaredValueAt(input: string, pos: nat): (r: Result<Parsed<Value>, ParseError>)
    ensures r.Failure? ==> r.error == TypeError
    ensures r.Success? ==> pos + 2 <= r.value.pos
  {
    var colon := SkipWhitespace(input, pos);
    ValueEndAt(input, SkipWhitespace(input, colon + 1))
  }

  /** The value of a declaration, then the whitespace and the `;` after
      it. */
  function ValueEndAt(input: string, pos: nat): (r: Result<Parsed<Value>, ParseError>)
    ensures r.Failure? ==> r.error == TypeError
    ensures r.Success? ==> pos + 1 <= r.value.pos
  {
    match ValueAt(input, pos)
    case Failure(e) => Failure(e)
    case Success(v) => Success(Parsed(v.value, SkipWhitespace(input, v.pos) + 1))
  }

  /** The loop of `parseDeclarations`, with at most `fuel` rounds. Each
      round is one function per statement of the loop body: whitespace
      here, the test for `}` in `DeclarationsStep`, and the declaration
      pushed in `DeclarationsPush`. A finished loop keeps the declarations
      before it, always advances, and leaves the cursor on a `}`. */
  function DeclarationsLoop(input: string, pos: nat, acc: seq<Declaration>, fuel: nat): (r: Result<Parsed<seq<Declaration>>, ParseError>)
    decreases fuel, 2
    ensures r.Failure? ==> r.error == TypeError || r.error == OutOfFuel
    ensures r.Success? ==> pos < r.value.pos && acc <= r.value.value && CharAt(input, r.value.pos) == Some('}')
  {
    if fuel == 0 then Failure(OutOfFuel)
    else DeclarationsStep(input, SkipWhitespace(input, pos), acc, fuel)
  }

  /** A round of the loop after the whitespace, the cursor at `p`: a `}`
      after the cursor is consumed and ends the loop with the declarations
      read so far; anything else starts a declaration. */
  function DeclarationsStep(input: string, p: nat, acc: seq<Declaration>, fuel: nat): (r: Result<Parsed<seq<Declaration>>, ParseError>)
    requires 0 < fuel
    decreases fuel, 1
    ensures r.Failure? ==> r.error == TypeError || r.error == OutOfFuel
    ensures r.Success? ==> p < r.value.pos && acc <= r.value.value && CharAt(input, r.value.pos) == Some('}')
    ensures CharAt(input, p + 1) == Some('}') <==> r == Success(Parsed(acc, p + 1))
  {
    if CharAt(input, p + 1) == Some('}') then Success(Parsed(acc, p + 1))
    else DeclarationsPush(input, p, acc, fuel)
  }

  /** The last statement of a round: a declaration is read and appended,
      and the next round starts after it. */
  function DeclarationsPush(input: string, p: nat, acc: seq<Declaration>, fuel: nat): (r: Result<Parsed<seq<Declaration>>, ParseError>)
    requires 0 < fuel
    decreases fuel, 0
    ensures r.Failure? ==> r.error == TypeError || r.error == OutOfFuel
    ensures r.Success? ==> p + 2 < r.value.pos && acc < r.value.value && CharAt(input, r.value.pos) == Some('}')
  {
    match DeclarationAt(input, p)
    case Failure(e) => Failure(e)
    case Success(d) => DeclarationsLoop(input, d.pos, acc + [d.value], fuel - 1)
  }

  /** Once the cursor is on the last character or past it, every round
      reads an empty declaration and never finds the `}`: the loop of
      `parseDeclarations` does not end, whatever the fuel. */
  lemma {:induction false} DeclarationsNeverEnd(input: string, pos: nat, acc: seq<Declaration>, fuel: nat)
    requires |input| <= pos + 1
    ensures DeclarationsLoop(input, pos, acc, fuel) == Failure(OutOfFuel)
    decreases fuel
  {
    if fuel > 0 {
      var p := SkipWhitespace(input, pos);
      if pos + 1 == |input| {
        SkipWhitespaceSpaces(input, pos);
      }
      assert |input| <= p;
      var d := Declaration("", Keyword(""));
      assert DeclarationAt(input, p) == Success(Parsed(d, p + 2));
      DeclarationsNeverEnd(input, p + 2, acc + [d], fuel - 1);
      assert DeclarationsStep(input, p, acc, fuel) == DeclarationsPush(input, p, acc, fuel);
    }
  }

  /** `parseDeclarations`: one character (the `{`), then the loop. */
  function DeclarationsAt(input: string, pos: nat, fuel: nat): (r: Result<Parsed<seq<Declaration>>, ParseError>)
    ensures r.Success? ==> pos + 1 < r.value.pos
  {
    DeclarationsLoop(input, pos + 1, [], fuel)
  }

  /** `parseRule`: selectors, then declarations. */
  function RuleAt(input: string, pos: nat, fuel: nat): (r: Result<Parsed<Rule>, ParseError>)
    ensures r.Success? ==> pos < r.value.pos
  {
    match SelectorAt(input, pos, fuel)
    case Failure(e) => Failure(e)
    case Success(s) =>
      match DeclarationsAt(input, s.pos, fuel)
      case Failure(e) => Failure(e)
      case Success(d) => Success(Parsed(Rule(s.value, d.value), d.pos))
  }

  /** The loop of `parseRules`: whitespace, then a rule unless the input
      is used up. Each rule consumes at least one character, so the loop
      ends. */
  function RulesLoop(input: string, pos: nat, acc: seq<Rule>, fuel: nat): (r: Result<Parsed<seq<Rule>>, ParseError>)
    decreases |input| - pos
    ensures r.Success? ==> |input| <= r.value.pos && acc <= r.value.value
  {
    var p := SkipWhitespace(input, pos);
    if p >= |input| then Success(Parsed(acc, p))
    else
      match RuleAt(input, p, fuel)
      case Failure(e) => Failure(e)
      case Success(rule) => RulesLoop(input, rule.pos, acc + [rule.value], fuel)
  }

  /** `parse`: the rules of the whole input, from position 0. */
  function StylesheetOf(source: string, fuel: nat): (r: Result<Stylesheet, ParseError>)
    ensures source == [] ==> r == Success(Stylesheet([]))
  {
    match RulesLoop(source, 0, [], fuel)
    case Failure(e) => Failure(e)
    case Success(rules) => Success(Stylesheet(rules.value))
  }

  /** On `a{}` the selector loop reads the identifier from one character
      ahead, sees the `{` and stops at once: the selector is empty. */
  lemma TagNameLostSelector()
    ensures SelectorAt("a{}", 0, 1) == Success(Parsed([SimpleSelector("", "", [])], 0))
  {
    var input := "a{}";
    var sel := SimpleSelector("", "", []);
    assert SelectorRound(input, 0, sel) == Success(Parsed(None, 0));
    assert SimpleSelectorAt(input, 0, sel) == Success(Parsed(sel, 0));
    assert SkipWhitespace(input, 0) == 0;
    assert SelectorListRound(input, 0) == Success(Parsed((sel, true), 0));
    assert [] + [sel] == [sel];
    assert SelectorsLoop(input, 0, [], 1) == Success(Parsed([sel], 0));
    assert [sel][..0] == [];
    assert SortBy([sel], SelectorComparator) == [sel];
  }

  /** On `a{}` the declarations are empty and the rule ends on the `}`. */
  lemma TagNameLostDeclarations()
    ensures DeclarationsAt("a{}", 0, 1) == Success(Parsed([], 2))
  {
    var input := "a{}";
    assert SkipWhitespace(input, 1) == 1;
    assert DeclarationsStep(input, 1, [], 1) == Success(Parsed([], 2));
  }

  /** On `a{}` the one rule has lost its tag name. */
  lemma TagNameLost()
    ensures StylesheetOf("a{}", 1) == Success(Stylesheet([Rule([SimpleSelector("", "", [])], [])]))
  {
    var input := "a{}";
    var rule := Rule([SimpleSelector("", "", [])], []);
    TagNameLostSelector();
    TagNameLostDeclarations();
    assert RuleAt(input, 0, 1) == Success(Parsed(rule, 2));
    assert SkipWhitespace(input, 0) == 0;
    assert SkipWhitespace(input, 2) == 3;
    assert RulesLoop(input, 2, [rule], 1) == Success(Parsed([rule], 3));
    assert [] + [rule] == [rule];
    assert RulesLoop(input, 0, [], 1) == Success(Parsed([rule], 3));
  }

  // ---------------------------------------------------------------------
  // The parser

  /** The input and the cursor. Only the cursor changes. */
  class Parser {
    var pos: nat
    const input: string

    constructor (pos: nat, input: string)
      ensures this.pos == pos && this.input == input
    {
      this.pos := pos;
      this.input := input;
    }

    /** `eof`: the cursor is at or past the end. */
    predicate Eof()
      reads this
    {
      pos >= |input|
    }

    /** `nextChar`: the character after the cursor, if any. */
    function NextChar(): Option<char>
      reads this
    {
      CharAt(input, pos + 1)
    }

    /** `consumeChar`: the character at the cursor (`undefined` past the
        end); the cursor moves on by one in every case. */
    method ConsumeChar() returns (c: Option<char>)
      modifies this
      ensures c == CharAt(input, old(pos)) && pos == old(pos) + 1
    {
      c := CharAt(input, pos);
      pos := pos + 1;
    }

    method ConsumeWhile(test: CharTest) returns (r: Result<string, ParseError>)
      modifies this
      ensures After(r, pos) == ConsumeWhileAt(input, old(pos), test)
    {
      var result := "";
      PrefixedTwice("", "", ConsumeWhileAt(input, pos, test));
      while !Eof()
        invariant ConsumeWhileAt(input, old(pos), test) == Prefixed(result, ConsumeWhileAt(input, pos, test))
        decreases |input| - pos
      {
        var more := Test(test, NextChar());
        if more.Failure? {
          return Failure(more.error);
        }
        if !more.value {
          var current := input[pos];
          if Accepts(test, current) {
            result := result + [current];
          } else {
            assert result + "" == result;
          }
          return Success(result);
        }
        var c := ConsumeChar();
        PrefixedTwice(result, [c.value], ConsumeWhileAt(input, pos, test));
        result := result + [c.value];
      }
      assert result + "" == result;
      r := Success(result);
    }

    /** `parseIdentifier`. */
    method ParseIdentifier() returns (r: Result<string, ParseError>)
      modifies this
      ensures After(r, pos) == ConsumeWhileAt(input, old(pos), IdentifierChar)
    {
      r := ConsumeWhile(IdentifierChar);
    }

    method ConsumeWhitespace()
      modifies this
      ensures pos == SkipWhitespace(input, old(pos))
    {
      var _ := ConsumeWhile(Whitespace);
    }

    method ParseSelectorPart(selector: SimpleSelector) returns (r: Result<Option<SimpleSelector>, ParseError>)
      requires pos < |input|
      modifies this
      ensures After(r, pos) == SelectorRound(input, old(pos), selector)
    {
      var next := NextChar();
      if next == Some('#') {
        var _ := ConsumeChar();
        var id := ParseIdentifier();
        if id.Failure? {
          return Failure(id.error);
        }
        r := Success(Some(selector.(id := id.value)));
      } else if next == Some('.') {
        var _ := ConsumeChar();
        var c := ParseIdentifier();
        if c.Failure? {
          return Failure(c.error);
        }
        r := Success(Some(selector.(classes := selector.classes + [c.value])));
      } else if next == Some('*') {
        var _ := ConsumeChar();
        r := Success(Some(selector));
      } else {
        var isName := Test(IdentifierChar, next);
        if isName.Failure? {
          return Failure(isName.error);
        }
        if !isName.value {
          return Success(None);
        }
        var name := ParseIdentifier();
        if name.Failure? {
          return Failure(name.error);
        }
        r := Success(Some(selector.(tagName := name.value)));
      }
    }

    method ParseSimpleSelector() returns (r: Result<SimpleSelector, ParseError>)
      modifies this
      ensures After(r, pos) == SimpleSelectorAt(input, old(pos), SimpleSelector("", "", []))
    {
      var selector := SimpleSelector("", "", []);
      while !Eof()
        invariant SimpleSelectorAt(input, old(pos), SimpleSelector("", "", [])) == SimpleSelectorAt(input, pos, selector)
        decreases |input| - pos
      {
        var part := ParseSelectorPart(selector);
        if part.Failure? {
          return Failure(part.error);
        }
        if part.value.None? {
          break;
        }
        selector := part.value.value;
      }
      r := Success(selector);
    }

    method ParseSelectorRound() returns (r: Result<(SimpleSelector, bool), ParseError>)
      modifies this
      ensures After(r, pos) == SelectorListRound(input, old(pos))
    {
      var s := ParseSimpleSelector();
      if s.Failure? {
        return Failure(s.error);
      }
      ConsumeWhitespace();
      var next := NextChar();
      if next == Some(',') {
        var _ := ConsumeChar();
        ConsumeWhitespace();
      }
      r := Success((s.value, next == Some('{')));
    }

    /** `parseSelector`, with at most `fuel` rounds of its loop. */
    method ParseSelector(fuel: nat) returns (r: Result<seq<SimpleSelector>, ParseError>)
      modifies this
      ensures After(r, pos) == SelectorAt(input, old(pos), fuel)
    {
      var selectors: seq<SimpleSelector> := [];
      var rounds := fuel;
      while true
        invariant SelectorsLoop(input, old(pos), [], fuel) == SelectorsLoop(input, pos, selectors, rounds)
        decreases rounds
      {
        if rounds == 0 {
          return Failure(OutOfFuel);
        }
        ghost var before := pos;
        ghost var earlier := selectors;
        var round := ParseSelectorRound();
        if round.Failure? {
          assert SelectorsLoop(input, before, earlier, rounds) == Failure(round.error);
          return Failure(round.error);
        }
        selectors := selectors + [round.value.0];
        if round.value.1 {
          assert SelectorsLoop(input, before, earlier, rounds) == Success(Parsed(selectors, pos));
          break;
        }
        assert SelectorsLoop(input, before, earlier, rounds) == SelectorsLoop(input, pos, selectors, rounds - 1);
        rounds := rounds - 1;
      }
      r := Success(SortBy(selectors, SelectorComparator));
    }

    method ParseHexPair() returns (v: Option<int>)
      modifies this
      ensures Parsed(v, pos) == HexPairAt(input, old(pos))
    {
      var digits := Window(input, pos, 3);
      pos := pos + 2;
      v := ParseInt16(digits);
    }

    method ParseColor() returns (c: Color)
      modifies this
      ensures Parsed(c, pos) == ColorAt(input, old(pos))
    {
      var _ := ConsumeChar();
      var red := ParseHexPair();
      assert red == HexPairAt(input, old(pos) + 1).value;
      var green := ParseHexPair();
      assert green == HexPairAt(input, old(pos) + 3).value;
      var blue := ParseHexPair();
      assert blue == HexPairAt(input, old(pos) + 5).value;
      var alpha := ParseHexPair();
      c := Color(red, green, blue, alpha);
    }

    method ParseFloat() returns (r: Result<Option<real>, ParseError>)
      modifies this
      ensures After(r, pos) == FloatAt(input, old(pos))
    {
      var digits := ConsumeWhile(DigitChar);
      if digits.Failure? {
        return Failure(digits.error);
      }
      r := Success(Chars.ParseFloat(digits.value));
    }

    method ParseUnit() returns (r: Result<Unit, ParseError>)
      modifies this
      ensures After(r, pos) == UnitAt(input, old(pos))
    {
      var name := ParseIdentifier();
      if name.Failure? {
        return Failure(name.error);
      }
      r := Success(if AsciiLower(name.value) == "px" then Px else NoUnit);
    }

    method ParseLength() returns (r: Result<Value, ParseError>)
      modifies this
      ensures After(r, pos) == LengthAt(input, old(pos))
    {
      var f := ParseFloat();
      if f.Failure? {
        return Failure(f.error);
      }
      var u := ParseUnit();
      if u.Failure? {
        return Failure(u.error);
      }
      r := Success(Length(NumberOrZero(f.value), u.value));
    }

    method ParseValue() returns (r: Result<Value, ParseError>)
      modifies this
      ensures After(r, pos) == ValueAt(input, old(pos))
    {
      var next := NextChar();
      if next.Some? && IsAsciiDigit(next.value) {
        r := ParseLength();
      } else if next == Some('#') {
        var c := ParseColor();
        r := Success(ColorValue(c));
      } else {
        var word := ParseIdentifier();
        if word.Failure? {
          return Failure(word.error);
        }
        r := Success(Keyword(word.value));
      }
    }

    method ParseDeclaration() returns (r: Result<Declaration, ParseError>)
      modifies this
      ensures After(r, pos) == DeclarationAt(input, old(pos))
    {
      var name := ParseIdentifier();
      if name.Failure? {
        return Failure(name.error);
      }
      var value := ParseDeclaredValue();
      if value.Failure? {
        return Failure(value.error);
      }
      r := Success(Declaration(name.value, value.value));
    }

    method ParseDeclaredValue() returns (r: Result<Value, ParseError>)
      modifies this
      ensures After(r, pos) == DeclaredValueAt(input, old(pos))
    {
      ConsumeWhitespace();
      var _ := ConsumeChar();
      ConsumeWhitespace();
      assert pos == SkipWhitespace(input, SkipWhitespace(input, old(pos)) + 1);
      r := ParseValueEnd();
    }

    /** The value of a declaration, then `consumeWhitespace` and the `;`
        consumed. */
    method ParseValueEnd() returns (r: Result<Value, ParseError>)
      modifies this
      ensures After(r, pos) == ValueEndAt(input, old(pos))
    {
      ghost var start := pos;
      r := ParseValue();
      if r.Success? {
        ghost var end := pos;
        ConsumeWhitespace();
        var _ := ConsumeChar();
        assert ValueAt(input, start) == Success(Parsed(r.value, end));
        assert pos == SkipWhitespace(input, end) + 1;
      } else {
        assert ValueAt(input, start) == Failure(r.error);
      }
    }

    /** One round of the loop of `parseDeclarations`, with `acc` the
        declarations so far and `rounds` the rounds left: the rest of the
        loop from the cursor before is the rest from the cursor after. */
    method DeclarationsNext(ghost acc: seq<Declaration>, ghost rounds: nat) returns (r: Result<Option<Declaration>, ParseError>)
      requires 0 < rounds
      modifies this
      ensures r.Failure? ==> DeclarationsLoop(input, old(pos), acc, rounds) == Failure(r.error)
      ensures r.Success? && r.value.None? ==> DeclarationsLoop(input, old(pos), acc, rounds) == Success(Parsed(acc, pos))
      ensures r.Success? && r.value.Some? ==>
        DeclarationsLoop(input, old(pos), acc, rounds) == DeclarationsLoop(input, pos, acc + [r.value.value], rounds - 1)
    {
      ConsumeWhitespace();
      ghost var p := pos;
      assert DeclarationsLoop(input, old(pos), acc, rounds) == DeclarationsStep(input, p, acc, rounds);
      if NextChar() == Some('}') {
        var _ := ConsumeChar();
        return Success(None);
      }
      assert DeclarationsStep(input, p, acc, rounds) == DeclarationsPush(input, p, acc, rounds);
      var d := ParseDeclaration();
      if d.Failure? {
        return Failure(d.error);
      }
      r := Success(Some(d.value));
    }

    /** `parseDeclarations`, with at most `fuel` rounds of its loop. */
    method ParseDeclarations(fuel: nat) returns (r: Result<seq<Declaration>, ParseError>)
      modifies this
      ensures After(r, pos) == DeclarationsAt(input, old(pos), fuel)
    {
      var _ := ConsumeChar();
      var declarations: seq<Declaration> := [];
      var rounds := fuel;
      while true
        invariant DeclarationsLoop(input, old(pos) + 1, [], fuel) == DeclarationsLoop(input, pos, declarations, rounds)
        decreases rounds
      {
        if rounds == 0 {
          return Failure(OutOfFuel);
        }
        var round := DeclarationsNext(declarations, rounds);
        if round.Failure? {
          return Failure(round.error);
        }
        if round.value.None? {
          break;
        }
        declarations := declarations + [round.value.value];
        rounds := rounds - 1;
      }
      r := Success(declarations);
    }

    method ParseRule(fuel: nat) returns (r: Result<Rule, ParseError>)
      modifies this
      ensures After(r, pos) == RuleAt(input, old(pos), fuel)
    {
      var selectors := ParseSelector(fuel);
      if selectors.Failure? {
        return Failure(selectors.error);
      }
      var declarations := ParseDeclarations(fuel);
      if declarations.Failure? {
        return Failure(declarations.error);
      }
      r := Success(Rule(selectors.value, declarations.value));
    }

    method ParseRules(fuel: nat) returns (r: Result<seq<Rule>, ParseError>)
      modifies this
      ensures After(r, pos) == RulesLoop(input, old(pos), [], fuel)
    {
      var rules: seq<Rule> := [];
      while true
        invariant RulesLoop(input, old(pos), [], fuel) == RulesLoop(input, pos, rules, fuel)
        decreases |input| - pos
      {
        ConsumeWhitespace();
        if Eof() {
          break;
        }
        var rule := ParseRule(fuel);
        if rule.Failure? {
          return Failure(rule.error);
        }
        rules := rules + [rule.value];
      }
      r := Success(rules);
    }
  }

  /** `parse`: a parser from position 0 over the whole source. */
  method Parse(source: string, fuel: nat) returns (r: Result<Stylesheet, ParseError>)
    ensures r == StylesheetOf(source, fuel)
  {
    var parser := new Parser(0, source);
    var rules := parser.ParseRules(fuel);
    if rules.Failure? {
      return Failure(rules.error);
    }
    r := Success(Stylesheet(rules.value));
  }
}
