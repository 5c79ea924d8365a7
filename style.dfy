/** The cascade and the style tree (src/style.ts): which rules match an
    element, the property map they produce, and the tree of styled nodes
    that mirrors the document. */
module Style {
  import opened Wrappers
  import opened Dom
  import opened Css

  /** Property name to specified value (a plain JavaScript object). */
  type PropertyMap = map<string, Value>

  datatype DisplayType = Inline | Block | DisplayNone

  /** A document node with the values that apply to it. Style nodes are
      built once, bottom-up, and never changed. */
  datatype StyleNode = StyleNode(node: DomNode, specifiedValues: PropertyMap, children: seq<StyleNode>) {

    /** The specified value of a property, if there is one. */
    function ValueOf(name: string): (r: Option<Value>)
      ensures r.Some? <==> name in specifiedValues
      ensures r.Some? ==> r.value == specifiedValues[name]
    {
      if name in specifiedValues then Some(specifiedValues[name]) else None
    }

    /** The value of `name`, else of `fallbackName`, else `def`. Every
        stored value is an object, hence truthy, so presence decides. */
    function Lookup(name: string, fallbackName: string, def: Value): (r: Value)
      ensures name in specifiedValues ==> r == specifiedValues[name]
      ensures name !in specifiedValues && fallbackName in specifiedValues ==> r == specifiedValues[fallbackName]
      ensures name !in specifiedValues && fallbackName !in specifiedValues ==> r == def
    {
      match ValueOf(name)
      case Some(v) => v
      case None =>
        match ValueOf(fallbackName)
        case Some(f) => f
        case None => def
    }

    /** The `display` property, `inline` unless the keyword says `block` or
        `none`. The source switches on fresh `Keyword` objects, which no
        stored value is identical to, so as written it always answers
        `Inline`; the model compares keyword text, as its comment intends. */
    function Display(): (d: DisplayType)
      ensures d == Block <==> ValueOf("display") == Some(Keyword("block"))
      ensures d == DisplayNone <==> ValueOf("display") == Some(Keyword("none"))
    {
      match ValueOf("display")
      case Some(Keyword("block")) => Block
      case Some(Keyword("none")) => DisplayNone
      case _ => Inline
    }
  }

  /** `display()` exactly as written: each `case` builds a new `Keyword`
      and `switch` compares with `===`, which compares objects by identity.
      No stored value is the object just built, so no case applies. */
  function DisplayAsWritten(sn: StyleNode): DisplayType {
    Inline
  }

  /** As written, `display: block` and `display: none` have no effect: the
      node is inline where the keyword says otherwise. */
  lemma DisplayAsWrittenIgnoresKeyword(sn: StyleNode)
    requires sn.ValueOf("display") == Some(Keyword("block")) || sn.ValueOf("display") == Some(Keyword("none"))
    ensures DisplayAsWritten(sn) == Inline && sn.Display() != Inline
  {
  }

  // ---------------------------------------------------------------------
  // Selector matching

  /** Only the type selector is checked: the id and class checks are
      commented out in the source. */
  predicate MatchSimpleSelector(elem: ElementData, selector: SimpleSelector) {
    selector.tagName == elem.tagName
  }

  /** Every selector is a simple selector. */
  predicate Matches(elem: ElementData, selector: SimpleSelector) {
    MatchSimpleSelector(elem, selector)
  }

  /** Ids and classes play no part in matching, and a selector without a
      type name (`#answer`, `.note`, `*`) matches no element that has one. */
  lemma MatchIgnoresIdAndClasses(elem: ElementData, s: SimpleSelector, id: string, classes: seq<string>)
    ensures Matches(elem, s) <==> Matches(elem, s.(id := id, classes := classes))
    ensures s.tagName == "" && elem.tagName != "" ==> !Matches(elem, s)
    ensures Matches(elem, s) <==> s.tagName == elem.tagName
  {
  }

  datatype MatchedRule = MatchedRule(specificity: Specificity, rule: Rule)

  /** `Array.prototype.find`: the index of the first matching selector. */
  function FirstMatching(elem: ElementData, selectors: seq<SimpleSelector>): (r: Option<nat>)
    ensures r.Some? ==> r.value < |selectors| && Matches(elem, selectors[r.value])
    ensures r.Some? ==> forall j :: 0 <= j < r.value ==> !Matches(elem, selectors[j])
    ensures r.None? ==> forall j :: 0 <= j < |selectors| ==> !Matches(elem, selectors[j])
  {
    if selectors == [] then None
    else if Matches(elem, selectors[0]) then Some(0)
    else match FirstMatching(elem, selectors[1..])
      case None => None
      case Some(k) => Some(k + 1)
  }

  /** A rule matches when one of its selectors does; the specificity
      reported is that of the first matching selector in the list. */
  function MatchRule(elem: ElementData, rule: Rule): (r: Option<MatchedRule>)
    ensures r.Some? <==> exists i :: 0 <= i < |rule.selectors| && Matches(elem, rule.selectors[i])
    ensures r.Some? ==> r.value.rule == rule
    ensures r.Some? ==> exists i :: (0 <= i < |rule.selectors| && Matches(elem, rule.selectors[i])
      && (forall j :: 0 <= j < i ==> !Matches(elem, rule.selectors[j]))
      && r.value.specificity == rule.selectors[i].Specificity())
  {
    match FirstMatching(elem, rule.selectors)
    case None => None
    case Some(i) => Some(MatchedRule(rule.selectors[i].Specificity(), rule))
  }

  /** The rules that match, in stylesheet order. */
  function MatchedRules(elem: ElementData, rules: seq<Rule>): seq<MatchedRule> {
    if rules == [] then []
    else
      var init := MatchedRules(elem, rules[..|rules| - 1]);
      match MatchRule(elem, rules[|rules| - 1])
      case Some(m) => init + [m]
      case None => init
  }

  /** The positions of the matching rules, in increasing order. */
  function MatchedIndices(elem: ElementData, rules: seq<Rule>): seq<nat> {
    if rules == [] then []
    else
      var init := MatchedIndices(elem, rules[..|rules| - 1]);
      if MatchRule(elem, rules[|rules| - 1]).Some? then init + [|rules| - 1] else init
  }

  /** `matchingRules` keeps exactly the matching rules, in stylesheet
      order: the k-th result comes from the k-th matching rule. */
  lemma {:induction false} MatchedRulesExact(elem: ElementData, rules: seq<Rule>)
    ensures |MatchedRules(elem, rules)| == |MatchedIndices(elem, rules)|
    ensures forall k :: 0 <= k < |MatchedIndices(elem, rules)| ==>
      MatchedIndices(elem, rules)[k] < |rules|
      && MatchRule(elem, rules[MatchedIndices(elem, rules)[k]]) == Some(MatchedRules(elem, rules)[k])
  {
    if rules != [] {
      var init := rules[..|rules| - 1];
      MatchedRulesExact(elem, init);
      assert forall i :: 0 <= i < |init| ==> rules[i] == init[i];
      var indices := MatchedIndices(elem, init);
      var matched := MatchedRules(elem, init);
      match MatchRule(elem, rules[|rules| - 1])
      case Some(m) =>
        assert MatchedIndices(elem, rules) == indices + [|rules| - 1];
        assert MatchedRules(elem, rules) == matched + [m];
      case None =>
    }
  }

  /** The positions of the matching rules increase, and every matching
      position occurs among them: each matching rule is kept once. */
  lemma {:induction false} MatchedIndicesExact(elem: ElementData, rules: seq<Rule>)
    ensures forall k :: 0 <= k < |MatchedIndices(elem, rules)| ==> MatchedIndices(elem, rules)[k] < |rules|
    ensures forall k, l :: 0 <= k < l < |MatchedIndices(elem, rules)| ==>
      MatchedIndices(elem, rules)[k] < MatchedIndices(elem, rules)[l]
    ensures forall i :: 0 <= i < |rules| ==>
      (i in MatchedIndices(elem, rules) <==> MatchRule(elem, rules[i]).Some?)
  {
    if rules != [] {
      var init := rules[..|rules| - 1];
      MatchedIndicesExact(elem, init);
      assert forall i :: 0 <= i < |init| ==> rules[i] == init[i];
      var indices := MatchedIndices(elem, init);
      if MatchRule(elem, rules[|rules| - 1]).Some? {
        assert MatchedIndices(elem, rules) == indices + [|rules| - 1];
      }
    }
  }

  /** `matchingRules`: the `reduce` over the stylesheet that pushes each
      matching rule onto the accumulator. */
  method MatchingRules(elem: ElementData, stylesheet: Stylesheet) returns (matched: seq<MatchedRule>)
    ensures matched == MatchedRules(elem, stylesheet.rules)
  {
    matched := [];
    var rules := stylesheet.rules;
    for i := 0 to |rules|
      invariant matched == MatchedRules(elem, rules[..i])
    {
      assert rules[..i + 1][..i] == rules[..i];
      var r := MatchRule(elem, rules[i]);
      if r.Some? {
        matched := matched + [r.value];
      }
    }
    assert rules[..|rules|] == rules;
  }

  // ---------------------------------------------------------------------
  // The cascade

  /** The declarations of the matched rules, rule after rule. */
  function AllDeclarations(matched: seq<MatchedRule>): seq<Declaration> {
    if matched == [] then []
    else AllDeclarations(matched[..|matched| - 1]) + matched[|matched| - 1].rule.declarations
  }

  /** Assigning the declarations one after another into `m`. */
  function ApplyDeclarations(m: PropertyMap, decls: seq<Declaration>): PropertyMap {
    if decls == [] then m
    else ApplyDeclarations(m, decls[..|decls| - 1])[decls[|decls| - 1].name := decls[|decls| - 1].value]
  }

  /** The property map of an element: the matched rules' declarations
      written in stylesheet order. */
  function Cascade(elem: ElementData, stylesheet: Stylesheet): PropertyMap {
    ApplyDeclarations(map[], AllDeclarations(MatchedRules(elem, stylesheet.rules)))
  }

  /** Some declaration of `decls` names `name`. */
  predicate Declares(decls: seq<Declaration>, name: string) {
    exists k :: 0 <= k < |decls| && decls[k].name == name
  }

  /** `v` is the value of the last declaration of `decls` naming `name`. */
  predicate LastDeclares(decls: seq<Declaration>, name: string, v: Value) {
    exists k :: 0 <= k < |decls| && decls[k].name == name && decls[k].value == v
      && forall l :: k < l < |decls| ==> decls[l].name != name
  }

  /** Last writer wins: a property is present exactly when some declaration
      names it (or it was present before), and then its value is that of
      the last declaration naming it. */
  lemma {:induction false} ApplyDeclarationsLastWins(m: PropertyMap, decls: seq<Declaration>, name: string)
    ensures name in ApplyDeclarations(m, decls) <==> name in m || Declares(decls, name)
    ensures Declares(decls, name) ==> LastDeclares(decls, name, ApplyDeclarations(m, decls)[name])
    ensures !Declares(decls, name) && name in m ==> ApplyDeclarations(m, decls)[name] == m[name]
  {
    if decls != [] {
      var init := decls[..|decls| - 1];
      ApplyDeclarationsLastWins(m, init, name);
      assert forall k :: 0 <= k < |init| ==> init[k] == decls[k];
      var last := decls[|decls| - 1];
      if last.name == name {
        assert decls[|decls| - 1].name == name;
      } else if Declares(decls, name) {
        var k :| 0 <= k < |decls| && decls[k].name == name;
        assert k < |init|;
        assert Declares(init, name);
      } else {
        assert !Declares(init, name);
      }
    }
  }

  /** The cascade as the source performs it: each property takes the value
      of the last declaration naming it among the matching rules, taken in
      stylesheet order; properties no matching rule declares are absent.
      No sort by specificity takes place. */
  lemma CascadeLastWins(elem: ElementData, stylesheet: Stylesheet, name: string)
    ensures var decls := AllDeclarations(MatchedRules(elem, stylesheet.rules));
      (name in Cascade(elem, stylesheet) <==> Declares(decls, name))
      && (name in Cascade(elem, stylesheet) ==> LastDeclares(decls, name, Cascade(elem, stylesheet)[name]))
  {
    ApplyDeclarationsLastWins(map[], AllDeclarations(MatchedRules(elem, stylesheet.rules)), name);
  }

  /** A concrete case: a `div.note` rule that hides the element, followed
      by a less specific `div` rule that makes it a block. The later, less
      specific rule wins, since the rules are applied in stylesheet order. */
  lemma CascadeIgnoresSpecificity(noteRule: Rule, divRule: Rule, elem: ElementData)
    requires noteRule == Rule([SimpleSelector("div", "", ["note"])], [Declaration("display", Keyword("none"))])
    requires divRule == Rule([SimpleSelector("div", "", [])], [Declaration("display", Keyword("block"))])
    requires elem.tagName == "div"
    ensures MoreSpecific(noteRule.selectors[0].Specificity(), divRule.selectors[0].Specificity())
    ensures "display" in Cascade(elem, Stylesheet([noteRule, divRule]))
    ensures Cascade(elem, Stylesheet([noteRule, divRule]))["display"] == Keyword("block")
  {
    var m1 := MatchedRule(noteRule.selectors[0].Specificity(), noteRule);
    var m2 := MatchedRule(divRule.selectors[0].Specificity(), divRule);
    assert FirstMatching(elem, noteRule.selectors) == Some(0);
    assert FirstMatching(elem, divRule.selectors) == Some(0);
    TwoMatchedRules(elem, noteRule, divRule, m1, m2);
    AllDeclarationsOneMore([], m1);
    AllDeclarationsOneMore([m1], m2);
    assert [m1, m2] == [m1] + [m2];
    assert AllDeclarations([m1, m2]) == noteRule.declarations + divRule.declarations;
    ApplyOneMore(map[], noteRule.declarations, divRule.declarations[0]);
    assert noteRule.declarations + divRule.declarations == noteRule.declarations + [divRule.declarations[0]];
  }

  lemma TwoMatchedRules(elem: ElementData, r1: Rule, r2: Rule, m1: MatchedRule, m2: MatchedRule)
    requires MatchRule(elem, r1) == Some(m1) && MatchRule(elem, r2) == Some(m2)
    ensures MatchedRules(elem, [r1, r2]) == [m1, m2]
  {
    assert [r1, r2][..1] == [r1];
    assert [r1][..0] == [];
    assert MatchedRules(elem, []) == [];
    assert MatchedRules(elem, [r1]) == [m1];
  }

  /** An element that no selector names gets an empty map, not an error. */
  lemma {:induction false} NoMatchGivesEmptyMap(elem: ElementData, rules: seq<Rule>)
    requires forall i, j :: 0 <= i < |rules| && 0 <= j < |rules[i].selectors| ==>
      rules[i].selectors[j].tagName != elem.tagName
    ensures MatchedRules(elem, rules) == []
    ensures Cascade(elem, Stylesheet(rules)) == map[]
  {
    if rules != [] {
      var init := rules[..|rules| - 1];
      assert forall i :: 0 <= i < |init| ==> init[i] == rules[i];
      NoMatchGivesEmptyMap(elem, init);
      assert MatchRule(elem, rules[|rules| - 1]).None?;
    }
  }

  lemma ApplyOneMore(m: PropertyMap, decls: seq<Declaration>, d: Declaration)
    ensures ApplyDeclarations(m, decls + [d]) == ApplyDeclarations(m, decls)[d.name := d.value]
  {
    assert (decls + [d])[..|decls|] == decls;
  }

  lemma AllDeclarationsOneMore(matched: seq<MatchedRule>, m: MatchedRule)
    ensures AllDeclarations(matched + [m]) == AllDeclarations(matched) + m.rule.declarations
  {
    assert (matched + [m])[..|matched|] == matched;
  }

  /** `specifiedValues`: the nested `forEach` loops that write every
      declaration of every matching rule into a fresh map. */
  method SpecifiedValues(elem: ElementData, stylesheet: Stylesheet) returns (values: PropertyMap)
    ensures values == Cascade(elem, stylesheet)
  {
    values := map[];
    var rules := MatchingRules(elem, stylesheet);
    for i := 0 to |rules|
      invariant values == ApplyDeclarations(map[], AllDeclarations(rules[..i]))
    {
      var decls := rules[i].rule.declarations;
      ghost var before := AllDeclarations(rules[..i]);
      assert before + decls[..0] == before;
      for j := 0 to |decls|
        invariant values == ApplyDeclarations(map[], before + decls[..j])
      {
        assert before + decls[..j + 1] == (before + decls[..j]) + [decls[j]];
        ApplyOneMore(map[], before + decls[..j], decls[j]);
        values := values[decls[j].name := decls[j].value];
      }
      assert rules[..i + 1] == rules[..i] + [rules[i]];
      AllDeclarationsOneMore(rules[..i], rules[i]);
      assert decls[..|decls|] == decls;
    }
    assert rules[..|rules|] == rules;
  }

  // ---------------------------------------------------------------------
  // The style tree

  /** `styleTree`: elements get their cascaded values, text nodes an empty
      map; children are styled in document order. */
  function StyleTree(root: DomNode, stylesheet: Stylesheet): (r: StyleNode)
    ensures r.node == root
    ensures r.specifiedValues == if root.IsElement() then Cascade(root.nodeType.data, stylesheet) else map[]
    ensures |r.children| == |root.children|
    ensures forall i :: 0 <= i < |root.children| ==> r.children[i].node == root.children[i]
    decreases root
  {
    var values := if root.IsElement() then Cascade(root.nodeType.data, stylesheet) else map[];
    StyleNode(root, values, seq(|root.children|, i requires 0 <= i < |root.children| => StyleTree(root.children[i], stylesheet)))
  }

  /** A style node and a document node have the same shape, node for node. */
  ghost predicate Mirrors(s: StyleNode, d: DomNode)
    decreases d
  {
    s.node == d && |s.children| == |d.children|
    && forall i :: 0 <= i < |d.children| ==> Mirrors(s.children[i], d.children[i])
  }

  /** The style tree mirrors the whole document, at every depth. */
  lemma {:induction false} StyleTreeMirrors(root: DomNode, stylesheet: Stylesheet)
    ensures Mirrors(StyleTree(root, stylesheet), root)
    decreases root
  {
    var r := StyleTree(root, stylesheet);
    forall i | 0 <= i < |root.children|
      ensures Mirrors(r.children[i], root.children[i])
    {
      StyleTreeMirrors(root.children[i], stylesheet);
    }
  }
}
