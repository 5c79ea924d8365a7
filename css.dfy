/** Stylesheet data: selectors, specificity, values, declarations and
    rules (src/css.ts, everything except the parser). */
module Css {
  import opened Wrappers

  /** The one unit the parser knows; `NoUnit` stands for the empty string
      that `parseUnit` returns (cast to `never`) for anything but `px`. */
  datatype Unit = Px | NoUnit

  /** A color as `parseColor` builds it: each channel is the number
      `parseInt` returned, `None` standing for `NaN`. */
  datatype Color = Color(r: Option<int>, g: Option<int>, b: Option<int>, a: Option<int>)

  /** A specified value. `auto`, `block`, `none` and every other word are
      keywords, compared by their text (the source builds a fresh `Keyword`
      object and compares references, which never succeeds; the comments
      at src/layout.ts:143, src/layout.ts:178-180 and src/style.ts:43 say
      the text comparison is meant). */
  datatype Value = Keyword(word: string) | Length(px: real, unit: Unit) | ColorValue(color: Color)

  predicate IsAuto(v: Value) {
    v == Keyword("auto")
  }

  /** `Value.toPx()` is called by the layout code but defined nowhere in
      the source; the model assumes the usual meaning: the number of a
      length, 0 for anything else. */
  function ToPx(v: Value): real {
    if v.Length? then v.px else 0.0
  }

  /** Specificity as the triple (ids, classes, type names). */
  datatype Specificity = Triple(ids: nat, classes: nat, tags: nat)

  /** `tagName#id.class1.class2`; the empty string means "unconstrained". */
  datatype SimpleSelector = SimpleSelector(tagName: string, id: string, classes: seq<string>) {

    /** Selectors Level 3, section 9: at most one id, one type name. */
    function Specificity(): (s: Specificity)
      ensures s.ids <= 1 && s.tags <= 1
      ensures s.ids == 1 <==> id != ""
      ensures s.tags == 1 <==> tagName != ""
      ensures s.classes == |classes|
    {
      Triple(if id == "" then 0 else 1, |classes|, if tagName == "" then 0 else 1)
    }
  }

  datatype Declaration = Declaration(name: string, value: Value)

  /** Comma-separated selectors sharing one declaration block. */
  datatype Rule = Rule(selectors: seq<SimpleSelector>, declarations: seq<Declaration>)

  datatype Stylesheet = Stylesheet(rules: seq<Rule>)

  /** `[a-zA-Z0-9\-\_]`. */
  predicate ValidIdentifierChar(c: char) {
    ('a' <= c <= 'z') || ('A' <= c <= 'Z') || ('0' <= c <= '9') || c == '-' || c == '_'
  }

  /** The characters the selector and declaration parsers look for are
      never identifier characters, so their tests are tried first without
      shadowing the identifier branch. */
  lemma PunctuationIsNotIdentifier()
    ensures forall c :: c in "#.*, {}:;" ==> !ValidIdentifierChar(c)
    ensures forall c :: c in "-_" ==> ValidIdentifierChar(c)
  {
  }

  /** Meant to say whether `a` is more specific than `b`. Each value the
      `forEach` callback returns is discarded, so the answer is always
      `true`. */
  function CompareSpecificity(a: Specificity, b: Specificity): (aFirst: bool) {
    true
  }

  /** The comparator `parseSelector` hands to `Array.prototype.sort`. */
  function SelectorComparator(a: SimpleSelector, b: SimpleSelector): int {
    if CompareSpecificity(a.Specificity(), b.Specificity()) then -1 else 1
  }

  /** Strict lexicographic order on (ids, classes, tags): the order the
      comment "highest specificity first" asks for. */
  predicate MoreSpecific(a: Specificity, b: Specificity) {
    a.ids > b.ids
    || (a.ids == b.ids && a.classes > b.classes)
    || (a.ids == b.ids && a.classes == b.classes && a.tags > b.tags)
  }

  /** The comparator puts either argument first, whichever way round it
      is asked: it is not a consistent comparator, so the order `sort`
      produces is left to the engine, and it ignores specificity. */
  lemma ComparatorIsInconsistent(a: SimpleSelector, b: SimpleSelector)
    ensures SelectorComparator(a, b) < 0 && SelectorComparator(b, a) < 0
    ensures CompareSpecificity(a.Specificity(), b.Specificity())
  {
  }

  /** An id selector is more specific than any selector without an id, yet
      the comparator also ranks the id-less one first. */
  lemma ComparatorIgnoresIds(withId: SimpleSelector, without: SimpleSelector)
    requires withId.id != "" && without.id == ""
    ensures MoreSpecific(withId.Specificity(), without.Specificity())
    ensures !MoreSpecific(without.Specificity(), withId.Specificity())
    ensures SelectorComparator(without, withId) < 0
  {
  }

  /** `MoreSpecific` is a strict order: irreflexive and transitive, and any
      two different triples are ordered one way or the other. */
  lemma MoreSpecificIsStrictTotal(a: Specificity, b: Specificity, c: Specificity)
    ensures !MoreSpecific(a, a)
    ensures MoreSpecific(a, b) && MoreSpecific(b, c) ==> MoreSpecific(a, c)
    ensures a != b ==> MoreSpecific(a, b) || MoreSpecific(b, a)
  {
  }
}
