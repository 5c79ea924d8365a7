/** Block layout (src/layout.ts): the layout tree built from the style
    tree, and the width, position and height of every block box. */
module Layout {
  import opened Wrappers
  import opened Css
  import opened Style
  import opened BoxModel

  /** The default for margins, borders and paddings: `0px`. */
  const Zero: Value := Length(0.0, Px)

  /** `sum(...args)`: the px values added from left to right. */
  function Sum(values: seq<Value>): (total: real)
    ensures (forall i :: 0 <= i < |values| ==> 0.0 <= ToPx(values[i])) ==> 0.0 <= total
  {
    if values == [] then 0.0 else Sum(values[..|values| - 1]) + ToPx(values[|values| - 1])
  }

  /** The sum of a concatenation is the sum of the parts. */
  lemma {:induction false} SumAppend(a: seq<Value>, b: seq<Value>)
    ensures Sum(a + b) == Sum(a) + Sum(b)
    decreases |b|
  {
    if b == [] {
      assert a + b == a;
    } else {
      assert (a + b)[..|a + b| - 1] == a + b[..|b| - 1];
      SumAppend(a, b[..|b| - 1]);
    }
  }

  // ---------------------------------------------------------------------
  // Widths

  /** The horizontal values a block's width depends on, as looked up in its
      style: `width` alone (auto when absent, its initial value), the others
      with their shorthand as fallback and `0px` as default. */
  datatype HorizontalValues = HorizontalValues(
    width: Value, marginLeft: Value, marginRight: Value,
    borderLeft: Value, borderRight: Value, paddingLeft: Value, paddingRight: Value)
  {
    /** `total`: the six edge values in px; the width itself is not part
        of it. */
    function EdgeTotal(): real {
      ToPx(marginLeft) + ToPx(marginRight) + ToPx(borderLeft) + ToPx(borderRight) + ToPx(paddingLeft) + ToPx(paddingRight)
    }
  }

  function SpecifiedHorizontal(sn: StyleNode): HorizontalValues {
    HorizontalValues(
      match sn.ValueOf("width") case Some(w) => w case None => Keyword("auto"),
      sn.Lookup("margin-left", "margin", Zero), sn.Lookup("margin-right", "margin", Zero),
      sn.Lookup("border-left-width", "border-width", Zero), sn.Lookup("border-right-width", "border-width", Zero),
      sn.Lookup("padding-left", "padding", Zero), sn.Lookup("padding-right", "padding", Zero))
  }

  /** Used horizontal sizes in px. */
  datatype UsedWidths = UsedWidths(
    width: real, marginLeft: real, marginRight: real,
    borderLeft: real, borderRight: real, paddingLeft: real, paddingRight: real)
  {
    function EdgeTotal(): real {
      marginLeft + marginRight + borderLeft + borderRight + paddingLeft + paddingRight
    }
  }

  lemma SumSnoc(a: seq<Value>, v: Value)
    ensures Sum(a + [v]) == Sum(a) + ToPx(v)
  {
    assert (a + [v])[..|a|] == a;
  }

  lemma SumOfSix(a: Value, b: Value, c: Value, d: Value, e: Value, f: Value)
    ensures Sum([a, b, c, d, e, f]) == ToPx(a) + ToPx(b) + ToPx(c) + ToPx(d) + ToPx(e) + ToPx(f)
  {
    SumSnoc([], a);
    assert [a] == [] + [a];
    SumSnoc([a], b);
    assert [a, b] == [a] + [b];
    SumSnoc([a, b], c);
    assert [a, b, c] == [a, b] + [c];
    SumSnoc([a, b, c], d);
    assert [a, b, c, d] == [a, b, c] + [d];
    SumSnoc([a, b, c, d], e);
    assert [a, b, c, d, e] == [a, b, c, d] + [e];
    SumSnoc([a, b, c, d, e], f);
    assert [a, b, c, d, e, f] == [a, b, c, d, e] + [f];
  }

  /** The used widths, case by case: `calculateBlockWidth`'s adjustments
      with the looked-up values in px. The underflow is the container width
      minus the six edge values (not the width). */
  function ResolveWidth(v: HorizontalValues, cbWidth: real): (u: UsedWidths)
  {
    var underflow := cbWidth - v.EdgeTotal();
    var ml := ToPx(v.marginLeft);
    var mr := ToPx(v.marginRight);
    var bl := ToPx(v.borderLeft);
    var br := ToPx(v.borderRight);
    var pl := ToPx(v.paddingLeft);
    var pr := ToPx(v.paddingRight);
    if IsAuto(v.width) then
      if 0.0 <= underflow then UsedWidths(underflow, ml, mr, bl, br, pl, pr)
      else UsedWidths(0.0, ml, mr + underflow, bl, br, pl, pr)
    else if 0.0 <= underflow && IsAuto(v.marginLeft) && IsAuto(v.marginRight) then
      UsedWidths(ToPx(v.width), underflow / 2.0, underflow / 2.0, bl, br, pl, pr)
    else if 0.0 <= underflow && IsAuto(v.marginLeft) then
      UsedWidths(ToPx(v.width), underflow, mr, bl, br, pl, pr)
    else
      UsedWidths(ToPx(v.width), ml, mr + underflow, bl, br, pl, pr)
  }

  /** The computation inside `calculateBlockWidth`: the horizontal values
      are looked up, then adjusted one rule after the other. */
  method UsedHorizontal(style: StyleNode, cbWidth: real) returns (u: UsedWidths)
    ensures u == ResolveWidth(SpecifiedHorizontal(style), cbWidth)
  {
    var auto := Keyword("auto");
    var width := match style.ValueOf("width") case Some(w) => w case None => auto;
    var zero := Length(0.0, Px);
    var marginLeft := style.Lookup("margin-left", "margin", zero);
    var marginRight := style.Lookup("margin-right", "margin", zero);
    var borderLeft := style.Lookup("border-left-width", "border-width", zero);
    var borderRight := style.Lookup("border-right-width", "border-width", zero);
    var paddingLeft := style.Lookup("padding-left", "padding", zero);
    var paddingRight := style.Lookup("padding-right", "padding", zero);
    ghost var v := HorizontalValues(width, marginLeft, marginRight, borderLeft, borderRight, paddingLeft, paddingRight);
    assert v == SpecifiedHorizontal(style);
    var total := Sum([marginLeft, marginRight, borderLeft, borderRight, paddingLeft, paddingRight]);
    SumOfSix(marginLeft, marginRight, borderLeft, borderRight, paddingLeft, paddingRight);

    if width != auto && total > cbWidth {
      if marginLeft == auto {
        marginLeft := Length(0.0, Px);
      }
      if marginRight == auto {
        marginRight := Length(0.0, Px);
      }
    }
    var underflow := cbWidth - total;
    if width != auto && marginLeft != auto && marginRight != auto {
      marginRight := Length(ToPx(marginRight) + underflow, Px);
    }
    if width != auto && marginLeft != auto && marginRight == auto {
      marginRight := Length(underflow, Px);
    }
    if width != auto && marginLeft == auto && marginRight != auto {
      marginLeft := Length(underflow, Px);
    }
    if width == auto {
      if marginLeft == auto {
        marginLeft := Length(0.0, Px);
      }
      if marginRight == auto {
        marginRight := Length(0.0, Px);
      }
      if underflow >= 0.0 {
        width := Length(underflow, Px);
      } else {
        width := Length(0.0, Px);
        marginRight := Length(ToPx(marginRight) + underflow, Px);
      }
    }
    if width != auto && marginLeft == auto && marginRight == auto {
      marginLeft := Length(underflow / 2.0, Px);
      marginRight := Length(underflow / 2.0, Px);
    }

    u := UsedWidths(ToPx(width), ToPx(marginLeft), ToPx(marginRight),
                    ToPx(borderLeft), ToPx(borderRight), ToPx(paddingLeft), ToPx(paddingRight));
  }

  /** What the used widths satisfy.
      - Borders and paddings keep their px values.
      - A set width keeps its value and the edges then take up the whole
        container: both margins auto (and no overflow) share the underflow
        equally, an auto left margin (and no overflow) takes all of it, and
        otherwise the right margin absorbs it, auto margins counting as 0.
      - An auto width takes the underflow when there is no overflow, and is
        0 otherwise; the left margin keeps its value, and the right one
        keeps its value plus a negative underflow. */
  lemma ResolveWidthFills(v: HorizontalValues, cbWidth: real)
    ensures var u := ResolveWidth(v, cbWidth);
      u.borderLeft == ToPx(v.borderLeft) && u.borderRight == ToPx(v.borderRight)
      && u.paddingLeft == ToPx(v.paddingLeft) && u.paddingRight == ToPx(v.paddingRight)
      && (!IsAuto(v.width) ==> u.width == ToPx(v.width) && u.EdgeTotal() == cbWidth)
      && (IsAuto(v.width) ==> 0.0 <= u.width && u.width + u.EdgeTotal() == cbWidth)
      && (IsAuto(v.width) ==> u.marginLeft == ToPx(v.marginLeft))
      && (IsAuto(v.width) && v.EdgeTotal() <= cbWidth ==> u.marginRight == ToPx(v.marginRight))
    ensures var u := ResolveWidth(v, cbWidth); var underflow := cbWidth - v.EdgeTotal();
      IsAuto(v.width) ==>
        if 0.0 <= underflow then u.width == underflow
        else u.width == 0.0 && u.marginRight == ToPx(v.marginRight) + underflow
    ensures var u := ResolveWidth(v, cbWidth); var underflow := cbWidth - v.EdgeTotal();
      !IsAuto(v.width) && 0.0 <= underflow && IsAuto(v.marginLeft) && IsAuto(v.marginRight) ==>
        u.marginLeft == underflow / 2.0 && u.marginRight == underflow / 2.0
    ensures var u := ResolveWidth(v, cbWidth); var underflow := cbWidth - v.EdgeTotal();
      !IsAuto(v.width) && 0.0 <= underflow && IsAuto(v.marginLeft) && !IsAuto(v.marginRight) ==>
        u.marginLeft == underflow && u.marginRight == ToPx(v.marginRight)
    ensures var u := ResolveWidth(v, cbWidth); var underflow := cbWidth - v.EdgeTotal();
      !IsAuto(v.width) && !(0.0 <= underflow && IsAuto(v.marginLeft)) ==>
        u.marginLeft == ToPx(v.marginLeft) && u.marginRight == ToPx(v.marginRight) + underflow
  {
  }

  /** Two auto margins around a set width share the free space equally. */
  lemma AutoMarginsCentre(v: HorizontalValues, cbWidth: real)
    requires !IsAuto(v.width) && IsAuto(v.marginLeft) && IsAuto(v.marginRight)
    requires v.EdgeTotal() <= cbWidth
    ensures ResolveWidth(v, cbWidth).marginLeft == ResolveWidth(v, cbWidth).marginRight
    ensures ResolveWidth(v, cbWidth).marginLeft >= 0.0
  {
  }

  /** A 100px wide block with auto margins in an 800px container: since the
      width is left out of the total, each margin is 400px, not 350px. */
  lemma CentredHundredPixels(v: HorizontalValues)
    requires v == HorizontalValues(Length(100.0, Px), Keyword("auto"), Keyword("auto"), Zero, Zero, Zero, Zero)
    ensures ResolveWidth(v, 800.0).width == 100.0
    ensures ResolveWidth(v, 800.0).marginLeft == 400.0 && ResolveWidth(v, 800.0).marginRight == 400.0
  {
    assert v.EdgeTotal() == 0.0;
  }

  /** `calculateBlockWidth` exactly as written: `auto` is a new `Keyword`
      and every comparison with it (`===`, `!==`, `==`) compares objects by
      identity. No looked-up value is that object, so the width always
      counts as set and the margins never as auto: only the first
      adjustment applies, and the right margin absorbs the underflow. An
      absent `width` stays `undefined`, and `width.toPx()` throws. */
  function ResolveWidthAsWritten(sn: StyleNode, cbWidth: real): (r: Result<UsedWidths, LayoutError>)
    ensures r.Success? <==> sn.ValueOf("width").Some?
    ensures r.Success? ==> r.value.EdgeTotal() == cbWidth
  {
    var v := SpecifiedHorizontal(sn);
    match sn.ValueOf("width")
    case None => Failure(TypeError)
    case Some(w) =>
      Success(UsedWidths(ToPx(w), ToPx(v.marginLeft), ToPx(v.marginRight) + (cbWidth - v.EdgeTotal()),
                         ToPx(v.borderLeft), ToPx(v.borderRight), ToPx(v.paddingLeft), ToPx(v.paddingRight)))
  }

  /** As written, a 100px block with auto margins in an 800px container is
      pushed to the left (margins 0px and 800px) instead of centred, and a
      block without a `width` makes layout throw. */
  lemma WidthAsWrittenIgnoresAuto(sn: StyleNode, other: StyleNode)
    requires sn.specifiedValues == map["width" := Length(100.0, Px), "margin" := Keyword("auto")]
    requires "width" !in other.specifiedValues
    ensures ResolveWidthAsWritten(sn, 800.0) == Success(UsedWidths(100.0, 0.0, 800.0, 0.0, 0.0, 0.0, 0.0))
    ensures ResolveWidth(SpecifiedHorizontal(sn), 800.0) == UsedWidths(100.0, 400.0, 400.0, 0.0, 0.0, 0.0, 0.0)
    ensures ResolveWidthAsWritten(other, 800.0) == Failure(TypeError)
    ensures ResolveWidth(SpecifiedHorizontal(other), 800.0).width == 800.0 - SpecifiedHorizontal(other).EdgeTotal()
      || ResolveWidth(SpecifiedHorizontal(other), 800.0).width == 0.0
  {
    assert SpecifiedHorizontal(sn) == HorizontalValues(Length(100.0, Px), Keyword("auto"), Keyword("auto"), Zero, Zero, Zero, Zero);
  }

  // ---------------------------------------------------------------------
  // The shape of the layout tree

  datatype BoxType = BlockNode(node: StyleNode) | InlineNode(node: StyleNode) | AnonymousBlock

  datatype LayoutError =
    | AnonymousBoxHasNoStyle   // `getStyleNode` on an anonymous box
    | RootDisplayNone          // `buildLayoutTree` on a node with display: none
    | TypeError                // property access on `undefined`

  /** Edge sizes as values. */
  datatype EdgeVals = EdgeVals(left: real, right: real, top: real, bottom: real)

  /** What layout writes into one box: its content rectangle and the sizes
      in its shared edge object. */
  datatype Placement = Placement(content: Rect, edge: EdgeVals) {
    /** The height of the margin box: the content grown three times by the
        shared edge. */
    function MarginHeight(): real {
      content.height + 3.0 * (edge.top + edge.bottom)
    }
  }

  /** A layout tree as a value: the box types, nested. */
  datatype BoxShape = BoxShape(boxType: BoxType, children: seq<BoxShape>)

  /** The layout tree `buildLayoutTree` builds for a style node. */
  function BoxTree(sn: StyleNode): Result<BoxShape, LayoutError>
    decreases sn, 1
  {
    match sn.Display()
    case DisplayNone => Failure(RootDisplayNone)
    case Block =>
      var kids :- ChildBoxes(sn, true, |sn.children|);
      Success(BoxShape(BlockNode(sn), kids))
    case Inline =>
      var kids :- ChildBoxes(sn, false, |sn.children|);
      Success(BoxShape(InlineNode(sn), kids))
  }

  /** The children of the root built from the first `n` style children.
      Children with display none are skipped. A block root puts an inline
      child into a fresh anonymous box when it already has a child, and
      fails (`children[-1]` is `undefined`) when it has none; an inline root
      takes inline children itself. */
  function ChildBoxes(sn: StyleNode, block: bool, n: nat): Result<seq<BoxShape>, LayoutError>
    requires n <= |sn.children|
    decreases sn, 0, n
  {
    if n == 0 then Success([])
    else
      var kids :- ChildBoxes(sn, block, n - 1);
      var child := sn.children[n - 1];
      match child.Display()
      case DisplayNone => Success(kids)
      case Block =>
        var b :- BoxTree(child);
        Success(kids + [b])
      case Inline =>
        if !block then
          var b :- BoxTree(child);
          Success(kids + [b])
        else if kids == [] then Failure(TypeError)
        else
          var b :- BoxTree(child);
          Success(kids + [BoxShape(AnonymousBlock, [b])])
  }

  predicate NoAnonymousShape(s: BoxShape) {
    !s.boxType.AnonymousBlock? && forall i :: 0 <= i < |s.children| ==> NoAnonymousShape(s.children[i])
  }

  /** Style trees whose layout trees can be laid out: the root is shown,
      no block has a shown inline child, and the same holds below. */
  predicate Layable(sn: StyleNode) {
    sn.Display() != DisplayNone
    && forall i :: 0 <= i < |sn.children| && sn.children[i].Display() != DisplayNone ==>
         Layable(sn.children[i]) && (sn.Display() == Block ==> sn.children[i].Display() == Block)
  }

  /** The built tree has a box for the root and is free of anonymous boxes
      exactly for layable style trees: a block's first shown inline child
      makes the build fail, and any later one gets an anonymous box. */
  lemma {:induction false} LayableIff(sn: StyleNode)
    ensures BoxTree(sn).Success? && NoAnonymousShape(BoxTree(sn).value) <==> Layable(sn)
    ensures BoxTree(sn).Success? ==> BoxTree(sn).value.boxType.node == sn
    decreases sn, 1
  {
    if sn.Display() != DisplayNone {
      ChildBoxesIff(sn, sn.Display() == Block, |sn.children|);
    }
  }

  /** The right-hand side of `ChildBoxesIff`: the first `n` children are
      all fine. */
  predicate ChildrenLayable(sn: StyleNode, block: bool, n: nat)
    requires n <= |sn.children|
  {
    forall i :: 0 <= i < n && sn.children[i].Display() != DisplayNone ==>
      Layable(sn.children[i]) && (block ==> sn.children[i].Display() == Block)
  }

  predicate AllNoAnonymous(shapes: seq<BoxShape>) {
    forall k :: 0 <= k < |shapes| ==> NoAnonymousShape(shapes[k])
  }

  lemma {:induction false} ChildBoxesIff(sn: StyleNode, block: bool, n: nat)
    requires n <= |sn.children|
    requires block <==> sn.Display() == Block
    ensures ChildBoxes(sn, block, n).Success? && AllNoAnonymous(ChildBoxes(sn, block, n).value)
      <==> ChildrenLayable(sn, block, n)
    decreases sn, 0, n
  {
    if n > 0 {
      ChildBoxesIff(sn, block, n - 1);
      var child := sn.children[n - 1];
      var r := ChildBoxes(sn, block, n - 1);
      var r' := ChildBoxes(sn, block, n);
      assert ChildrenLayable(sn, block, n) <==>
        (ChildrenLayable(sn, block, n - 1)
         && (child.Display() != DisplayNone ==> Layable(child) && (block ==> child.Display() == Block)));
      if child.Display() != DisplayNone {
        LayableIff(child);
      }
      if r.Success? && r'.Success? && child.Display() != DisplayNone {
        assert r'.value[..|r.value|] == r.value;
        assert r'.value == r.value + [r'.value[|r.value|]];
        assert AllNoAnonymous(r'.value) <==> AllNoAnonymous(r.value) && NoAnonymousShape(r'.value[|r.value|]);
      }
    }
  }

  // ---------------------------------------------------------------------
  // Heights and positions

  /** The value that ends up in the shared edge object's `top`: the source
      writes `margin-top`, `border-top-width` and `padding-top` into it, and
      finally `padding-bottom` (through `padding.top` once more). */
  function SharedTop(sn: StyleNode): real {
    ToPx(sn.Lookup("padding-bottom", "padding", Zero))
  }

  /** The value that ends up in the shared edge object's `bottom`:
      `margin-bottom` is overwritten by `border-bottom-width`. */
  function SharedBottom(sn: StyleNode): real {
    ToPx(sn.Lookup("border-bottom-width", "border-width", Zero))
  }

  /** A set `height` replaces the height the children add up to. */
  function UsedHeight(sn: StyleNode, contentHeight: real): real {
    match sn.ValueOf("height")
    case Some(h) => ToPx(h)
    case None => contentHeight
  }

  /** The margin box of a placed box, with one edge object for padding,
      border and margin: the content grown three times by that edge. */
  function MarginRect(p: Placement): Rect {
    var e := p.edge;
    Rect(p.content.x - 3.0 * e.left, p.content.y - 3.0 * e.top,
         p.content.width + 3.0 * (e.left + e.right), p.content.height + 3.0 * (e.top + e.bottom))
  }

  /** Where layout puts a block or inline box in a containing block `cb`,
      given the height its content has once its children are placed:
      - the width and the horizontal margins are those of `ResolveWidth`;
      - the shared edge object keeps the last values written into it;
      - the content lies `3 * left` right of the container's left edge
        (margin, border and padding are the one edge object) and `3 * top`
        below what the container holds so far;
      - a set height replaces the given one. */
  function Place(bt: BoxType, cb: Rect, height: real): (p: Placement)
    requires !bt.AnonymousBlock?
    ensures MarginRect(p).x == cb.x && MarginRect(p).y == cb.y + cb.height
    ensures p.content.width == ResolveWidth(SpecifiedHorizontal(bt.node), cb.width).width
    ensures p.content.height == UsedHeight(bt.node, height)
  {
    var sn := bt.node;
    var u := ResolveWidth(SpecifiedHorizontal(sn), cb.width);
    var e := EdgeVals(u.marginLeft, u.marginRight, SharedTop(sn), SharedBottom(sn));
    Placement(Rect(cb.x + 3.0 * e.left, cb.y + cb.height + 3.0 * e.top, u.width, UsedHeight(sn, height)), e)
  }

  // ---------------------------------------------------------------------
  // Snapshots of the layout tree

  /** The boxes of a layout tree and their nesting, as seen at one moment,
      with `repr`, the objects layout may change in the tree: the
      dimensions and the edge object of each of its boxes. The layout
      methods take one as a ghost argument that names the tree they work
      on. */
  datatype Tree = Tree(box: LayoutBox, kids: seq<Tree>, repr: set<object>)

  ghost function Boxes(t: Tree): set<LayoutBox>
    decreases t, 1
  {
    {t.box} + KidBoxes(t, |t.kids|)
  }

  /** The boxes of the first `n` children of `t`. */
  ghost function KidBoxes(t: Tree, n: nat): set<LayoutBox>
    requires n <= |t.kids|
    decreases t, 0, n
  {
    if n == 0 then {} else KidBoxes(t, n - 1) + Boxes(t.kids[n - 1])
  }

  /** A tree proper: each box has one edge object for padding, border and
      margin; its objects are in `repr`; each child's `repr` lies inside
      its parent's and holds none of the parent's objects; and the
      children's `repr`s are pairwise apart. */
  ghost predicate WellFormed(t: Tree)
    decreases t
  {
    t.box.dimensions.SharedEdges()
    && t.box.dimensions in t.repr && t.box.dimensions.margin in t.repr
    && (forall i :: 0 <= i < |t.kids| ==>
          WellFormed(t.kids[i]) && t.kids[i].repr <= t.repr
          && t.box.dimensions !in t.kids[i].repr && t.box.dimensions.margin !in t.kids[i].repr)
    && (forall i, j :: 0 <= i < j < |t.kids| ==> t.kids[i].repr !! t.kids[j].repr)
  }

  /** The boxes' `children` in the heap are those of the tree; `s` holds
      every box of the tree. */
  ghost predicate Shaped(t: Tree, s: set<LayoutBox>)
    reads s
    decreases t
  {
    t.box in s && |t.box.children| == |t.kids|
    && forall i :: 0 <= i < |t.kids| ==> t.box.children[i] == t.kids[i].box && Shaped(t.kids[i], s)
  }

  /** Every box of the tree has the content height `h0` records for it. */
  ghost predicate HeightsAt(t: Tree, h0: map<LayoutBox, real>)
    reads t.repr
    decreases t
  {
    t.box.dimensions in t.repr && t.box.dimensions.content.height == HeightIn(h0, t.box)
    && forall i :: 0 <= i < |t.kids| ==> t.kids[i].repr <= t.repr && HeightsAt(t.kids[i], h0)
  }

  /** The tree has the box types and the nesting of `s`. */
  ghost predicate Depicts(t: Tree, s: BoxShape)
    decreases t
  {
    t.box.boxType == s.boxType && |t.kids| == |s.children|
    && forall i :: 0 <= i < |t.kids| ==> Depicts(t.kids[i], s.children[i])
  }

  /** No box of the tree is anonymous. */
  ghost predicate NoAnon(t: Tree)
    decreases t, 1
  {
    !t.box.boxType.AnonymousBlock? && KidsNoAnon(t, |t.kids|)
  }

  /** No box of the first `n` children of `t` is anonymous. */
  ghost predicate KidsNoAnon(t: Tree, n: nat)
    requires n <= |t.kids|
    decreases t, 0, n
  {
    n == 0 || (KidsNoAnon(t, n - 1) && NoAnon(t.kids[n - 1]))
  }

  lemma {:induction false} NoAnonDepicts(t: Tree, s: BoxShape)
    requires Depicts(t, s)
    ensures NoAnon(t) <==> NoAnonymousShape(s)
    decreases t, 1
  {
    KidsNoAnonDepicts(t, s, |t.kids|);
  }

  lemma {:induction false} KidsNoAnonDepicts(t: Tree, s: BoxShape, n: nat)
    requires Depicts(t, s) && n <= |t.kids|
    ensures KidsNoAnon(t, n) <==> forall i :: 0 <= i < n ==> NoAnonymousShape(s.children[i])
    decreases t, 0, n
  {
    if n > 0 {
      KidsNoAnonDepicts(t, s, n - 1);
      NoAnonDepicts(t.kids[n - 1], s.children[n - 1]);
    }
  }

  /** A prefix of children without anonymous boxes stays so when cut shorter. */
  lemma {:induction false} KidsNoAnonPrefix(t: Tree, m: nat, n: nat)
    requires m <= n <= |t.kids| && KidsNoAnon(t, n)
    ensures KidsNoAnon(t, m)
    decreases n
  {
    if m < n {
      KidsNoAnonPrefix(t, m, n - 1);
    }
  }

  /** The content height `h0` records for `b`, zero if none. */
  ghost function HeightIn(h0: map<LayoutBox, real>, b: LayoutBox): real {
    if b in h0 then h0[b] else 0.0
  }

  /** Where the root's content starts before its children are placed:
      where `Place` puts it, with the height it had. */
  ghost function Top(t: Tree, cb: Rect, h0: map<LayoutBox, real>): Rect
    requires NoAnon(t)
  {
    Place(t.box.boxType, cb, 0.0).content.(height := HeightIn(h0, t.box))
  }

  /** Where layout puts every box of `t` laid out in `cb`, when the boxes'
      content heights are `h0` before: the root where `Place` puts it, each
      child inside the root's content (which starts at the root's old
      height), below the margin boxes of the children before it, and the
      root's content height grown by the height of the children's margin
      boxes. */
  ghost function Plan(t: Tree, cb: Rect, h0: map<LayoutBox, real>): (r: map<LayoutBox, Placement>)
    requires NoAnon(t)
    ensures t.box in r
    decreases t, 1
  {
    Assemble(t, cb, h0, ChildPlans(t, Top(t, cb, h0), h0, |t.kids|))
  }

  /** The children's placements `kids` with the root's own added: where
      `Place` puts it once its content has grown by the children's height. */
  ghost function Assemble(t: Tree, cb: Rect, h0: map<LayoutBox, real>, kids: (map<LayoutBox, Placement>, real)): map<LayoutBox, Placement>
    requires !t.box.boxType.AnonymousBlock?
  {
    kids.0[t.box := Place(t.box.boxType, cb, HeightIn(h0, t.box) + kids.1)]
  }

  /** The placements of the boxes of the first `n` children of `t`, laid
      out one below the other in `top`, and the height of their margin
      boxes together. */
  ghost function ChildPlans(t: Tree, top: Rect, h0: map<LayoutBox, real>, n: nat): (r: (map<LayoutBox, Placement>, real))
    requires n <= |t.kids| && KidsNoAnon(t, n)
    decreases t, 0, n
  {
    if n == 0 then (map[], 0.0) else Stack(ChildPlans(t, top, h0, n - 1), t.kids[n - 1], top, h0)
  }

  /** The placements `before` of the children above `k`, and the height
      of their margin boxes, with `k` laid out below them. */
  ghost function Stack(before: (map<LayoutBox, Placement>, real), k: Tree, top: Rect, h0: map<LayoutBox, real>)
    : (map<LayoutBox, Placement>, real)
    requires NoAnon(k)
    decreases k, 2
  {
    var m := Plan(k, top.(height := top.height + before.1), h0);
    (before.0 + m, before.1 + m[k.box].MarginHeight())
  }

  /** The keys of a merge are the keys of both maps. */
  lemma MergeKeys<K, V>(a: map<K, V>, b: map<K, V>)
    ensures (a + b).Keys == a.Keys + b.Keys
  {
  }

  /** Layout places exactly the boxes of the tree. */
  lemma {:induction false} PlanKeys(t: Tree, cb: Rect, h0: map<LayoutBox, real>)
    requires NoAnon(t)
    ensures Plan(t, cb, h0).Keys == Boxes(t)
    decreases t, 1
  {
    ChildPlansKeys(t, Top(t, cb, h0), h0, |t.kids|);
  }

  lemma {:induction false} ChildPlansKeys(t: Tree, top: Rect, h0: map<LayoutBox, real>, n: nat)
    requires n <= |t.kids| && KidsNoAnon(t, n)
    ensures ChildPlans(t, top, h0, n).0.Keys == KidBoxes(t, n)
    decreases t, 0, n
  {
    if n > 0 {
      var before := ChildPlans(t, top, h0, n - 1);
      ChildPlansKeys(t, top, h0, n - 1);
      PlanKeys(t.kids[n - 1], top.(height := top.height + before.1), h0);
      MergeKeys(before.0, Plan(t.kids[n - 1], top.(height := top.height + before.1), h0));
    }
  }

  /** Where the `i`-th child of `t` goes when the children are stacked in
      the content rectangle `top`. */
  ghost function KidPlacement(t: Tree, top: Rect, h0: map<LayoutBox, real>, i: nat): Placement
    requires i < |t.kids| && KidsNoAnon(t, i + 1)
  {
    Plan(t.kids[i], top.(height := top.height + ChildPlans(t, top, h0, i).1), h0)[t.kids[i].box]
  }

  /** Block children stack: the `i`-th child's margin box starts at the
      left edge of the parent's content, right below the margin boxes of
      the children before it, and adds its own height to theirs. */
  lemma ChildrenStack(t: Tree, top: Rect, h0: map<LayoutBox, real>, i: nat)
    requires i < |t.kids| && KidsNoAnon(t, i + 1)
    ensures MarginRect(KidPlacement(t, top, h0, i)).x == top.x
    ensures MarginRect(KidPlacement(t, top, h0, i)).y == top.y + top.height + ChildPlans(t, top, h0, i).1
    ensures ChildPlans(t, top, h0, i + 1).1 == ChildPlans(t, top, h0, i).1 + MarginRect(KidPlacement(t, top, h0, i)).height
  {
    var k := t.kids[i];
    var cb := top.(height := top.height + ChildPlans(t, top, h0, i).1);
    PlanKeys(k, cb, h0);
    assert Plan(k, cb, h0)[k.box] == Place(k.box.boxType, cb, HeightIn(h0, k.box) + ChildPlans(k, Top(k, cb, h0), h0, |k.kids|).1);
  }

  /** Consecutive children abut: each margin box begins where the one
      before it ends. */
  lemma SiblingsAbut(t: Tree, top: Rect, h0: map<LayoutBox, real>, i: nat)
    requires i + 1 < |t.kids| && KidsNoAnon(t, i + 2)
    ensures MarginRect(KidPlacement(t, top, h0, i + 1)).y
      == MarginRect(KidPlacement(t, top, h0, i)).y + MarginRect(KidPlacement(t, top, h0, i)).height
  {
    ChildrenStack(t, top, h0, i);
    ChildrenStack(t, top, h0, i + 1);
  }

  /** In a freshly built tree (all content heights zero) a box without a
      set `height` is exactly as tall as its stacked children: the first
      child's margin box starts at the top of its content, and the last
      one ends at its bottom. */
  lemma ChildrenFillParent(t: Tree, cb: Rect)
    requires NoAnon(t) && |t.kids| > 0 && t.box.boxType.node.ValueOf("height").None?
    ensures (KidsNoAnonPrefix(t, 1, |t.kids|);
      var p := Plan(t, cb, map[])[t.box];
      var top := Top(t, cb, map[]);
      var first := KidPlacement(t, top, map[], 0);
      var last := KidPlacement(t, top, map[], |t.kids| - 1);
      MarginRect(first).y == p.content.y
      && MarginRect(last).y + MarginRect(last).height == p.content.y + p.content.height)
  {
    var top := Top(t, cb, map[]);
    var n := |t.kids|;
    KidsNoAnonPrefix(t, 1, n);
    ChildrenStack(t, top, map[], 0);
    ChildrenStack(t, top, map[], n - 1);
  }

  /** A box that agrees with a placement has the margin box of that
      placement. */
  lemma AgreesMarginBox(b: LayoutBox, p: Placement)
    requires b.dimensions.SharedEdges() && b.Agrees(p)
    ensures b.dimensions.MarginBox() == MarginRect(p)
  {
    MarginBoxOfSharedEdges(b.dimensions);
  }

  /** Every placed box owns objects in `fp` and is where the map puts it. */
  ghost predicate Holds(m: map<LayoutBox, Placement>, fp: set<object>)
    reads fp
  {
    forall b :: b in m ==> b.dimensions in fp && b.dimensions.margin in fp && b.Agrees(m[b])
  }

  /** The state of `layoutBlockChildren` after `i` children: they are
      placed in the objects `acc`, the parent's content has grown from
      `start` by their margin boxes, and the later children are untouched. */
  ghost predicate Progress(t: Tree, i: nat, start: Rect, h0: map<LayoutBox, real>, acc: set<object>)
    requires i <= |t.kids|
    reads t.repr
  {
    t.box.dimensions in t.repr && acc <= t.repr && t.box.dimensions !in acc
    && KidsNoAnon(t, i)
    && t.box.dimensions.content == start.(height := start.height + ChildPlans(t, start, h0, i).1)
    && Holds(ChildPlans(t, start, h0, i).0, acc)
    && forall j :: i <= j < |t.kids| ==> acc !! t.kids[j].repr && t.kids[j].repr <= t.repr && HeightsAt(t.kids[j], h0)
  }

  /** Placements that hold separately hold together. */
  lemma HoldsUnion(a: map<LayoutBox, Placement>, fa: set<object>, b: map<LayoutBox, Placement>, fb: set<object>)
    requires Holds(a, fa) && Holds(b, fb)
    ensures Holds(a + b, fa + fb)
  {
  }

  /** A box that is where `p` puts it joins placements that hold. */
  lemma HoldsPut(m: map<LayoutBox, Placement>, fp: set<object>, b: LayoutBox, p: Placement, fp2: set<object>)
    requires Holds(m, fp) && b.Agrees(p) && fp <= fp2 && b.dimensions in fp2 && b.dimensions.margin in fp2
    ensures Holds(m[b := p], fp2)
  {
  }

  /** A root where `Place` puts it, above children whose placements
      hold, gives placements that hold. */
  lemma HoldsAssemble(t: Tree, cb: Rect, h0: map<LayoutBox, real>, kids: (map<LayoutBox, Placement>, real),
                      fp: set<object>, fp2: set<object>)
    requires !t.box.boxType.AnonymousBlock? && Holds(kids.0, fp)
    requires t.box.Agrees(Place(t.box.boxType, cb, HeightIn(h0, t.box) + kids.1))
    requires fp <= fp2 && t.box.dimensions in fp2 && t.box.dimensions.margin in fp2
    ensures Holds(Assemble(t, cb, h0, kids), fp2)
  {
    HoldsPut(kids.0, fp, t.box, Place(t.box.boxType, cb, HeightIn(h0, t.box) + kids.1), fp2);
  }

  /** Grows the content of `d` by `h`, keeping the placements of `keep`,
      none of which involve `d`. */
  method GrowContent(d: Dimensions, h: real, ghost keep: map<LayoutBox, Placement>, ghost fp: set<object>)
    requires Holds(keep, fp) && d !in fp
    modifies d
    ensures d.content == old(d.content).(height := old(d.content.height) + h)
    ensures Holds(keep, fp)
  {
    d.content := d.content.(height := d.content.height + h);
  }

  // ---------------------------------------------------------------------
  // The layout tree

  /** A box of the layout tree. Its dimensions object and its type never
      change; `children` grows while the tree is built. */
  class LayoutBox {
    const dimensions: Dimensions
    const boxType: BoxType
    var children: seq<LayoutBox>

    /** `LayoutBox.n`: a childless box with a zero content rectangle and one
        zero `EdgeSizes` object for padding, border and margin. */
    constructor (boxType: BoxType)
      ensures this.boxType == boxType && children == []
      ensures fresh(dimensions) && fresh(dimensions.margin) && dimensions.SharedEdges()
      ensures dimensions.content == Rect(0.0, 0.0, 0.0, 0.0)
    {
      var edge := new EdgeSizes(0.0, 0.0, 0.0, 0.0);
      dimensions := new Dimensions(Rect(0.0, 0.0, 0.0, 0.0), edge, edge, edge);
      this.boxType := boxType;
      children := [];
    }

    /** The style node of a block or inline box; an anonymous box has none. */
    function GetStyleNode(): (r: Result<StyleNode, LayoutError>)
      ensures r.Success? <==> !boxType.AnonymousBlock?
      ensures r.Success? ==> r.value == boxType.node
      ensures r.Failure? ==> r.error == AnonymousBoxHasNoStyle
    {
      match boxType
      case BlockNode(node) => Success(node)
      case InlineNode(node) => Success(node)
      case AnonymousBlock => Failure(AnonymousBoxHasNoStyle)
    }

    /** The box's dimensions and shared edge object hold `p`. */
    predicate Agrees(p: Placement)
      reads dimensions, dimensions.margin
    {
      var e := dimensions.margin;
      dimensions.content == p.content
      && e.left == p.edge.left && e.right == p.edge.right
      && e.top == p.edge.top && e.bottom == p.edge.bottom
    }

    /** `calculateBlockWidth`: the sequence of adjustments of the source,
        step by step, on the looked-up values. */
    method CalculateBlockWidth(cb: Dimensions) returns (o: Outcome<LayoutError>)
      requires dimensions.SharedEdges() && cb != dimensions
      modifies dimensions, dimensions.margin
      ensures o.Pass? <==> !boxType.AnonymousBlock?
      ensures o.Fail? ==> o.error == AnonymousBoxHasNoStyle
      ensures o.Fail? ==> unchanged(dimensions, dimensions.margin)
      ensures o.Pass? ==>
        var u := ResolveWidth(SpecifiedHorizontal(boxType.node), cb.content.width);
        dimensions.content == old(dimensions.content).(width := u.width)
        && dimensions.margin.left == u.marginLeft && dimensions.margin.right == u.marginRight
        && dimensions.margin.top == old(dimensions.margin.top)
        && dimensions.margin.bottom == old(dimensions.margin.bottom)
    {
      var r := GetStyleNode();
      if r.Failure? {
        return Fail(r.error);
      }
      var u := UsedHorizontal(r.value, cb.content.width);
      var d := dimensions;
      d.content := d.content.(width := u.width);
      d.padding.left := u.paddingLeft;
      d.padding.right := u.paddingRight;
      d.border.left := u.borderLeft;
      d.border.right := u.borderRight;
      d.margin.left := u.marginLeft;
      d.margin.right := u.marginRight;
      return Pass;
    }

    /** `calculateBlockPosition`: the vertical edges, then the position
        below what the container holds so far. */
    method CalculateBlockPosition(cb: Dimensions) returns (o: Outcome<LayoutError>)
      requires dimensions.SharedEdges() && cb != dimensions
      modifies dimensions, dimensions.margin
      ensures o.Pass? <==> !boxType.AnonymousBlock?
      ensures o.Fail? ==> unchanged(dimensions, dimensions.margin)
      ensures o.Pass? ==>
        var e := dimensions.margin;
        e.top == SharedTop(boxType.node) && e.bottom == SharedBottom(boxType.node)
        && e.left == old(e.left) && e.right == old(e.right)
        && dimensions.content == old(dimensions.content).(
             x := cb.content.x + 3.0 * e.left,
             y := cb.content.y + cb.content.height + 3.0 * e.top)
    {
      var r := GetStyleNode();
      if r.Failure? {
        return Fail(r.error);
      }
      var style := r.value;
      var d := dimensions;
      var zero := Length(0.0, Px);
      d.margin.top := ToPx(style.Lookup("margin-top", "margin", zero));
      d.margin.bottom := ToPx(style.Lookup("margin-bottom", "margin", zero));
      d.border.top := ToPx(style.Lookup("border-top-width", "border-width", zero));
      d.border.bottom := ToPx(style.Lookup("border-bottom-width", "border-width", zero));
      d.padding.top := ToPx(style.Lookup("padding-top", "padding", zero));
      d.padding.top := ToPx(style.Lookup("padding-bottom", "padding", zero));
      d.content := d.content.(x := cb.content.x + d.margin.left + d.border.left + d.padding.left);
      d.content := d.content.(y := cb.content.height + cb.content.y + d.margin.top + d.border.top + d.padding.top);
      return Pass;
    }

    /** `calculateBlockHeight`. */
    method CalculateBlockHeight() returns (o: Outcome<LayoutError>)
      modifies dimensions
      ensures o.Pass? <==> !boxType.AnonymousBlock?
      ensures o.Fail? ==> unchanged(dimensions)
      ensures o.Pass? ==>
        dimensions.content == old(dimensions.content).(height := UsedHeight(boxType.node, old(dimensions.content.height)))
    {
      var r := GetStyleNode();
      if r.Failure? {
        return Fail(r.error);
      }
      var height := r.value.ValueOf("height");
      if height.Some? {
        dimensions.content := dimensions.content.(height := ToPx(height.value));
      }
      return Pass;
    }

    /** `layout`: the box type is always set, so every box is laid out as a
        block. It fails on the first anonymous box it meets; otherwise every
        box of the tree ends up where `Plan` puts it. */
    method Layout(cb: Dimensions, ghost t: Tree, ghost h0: map<LayoutBox, real>, ghost s: set<LayoutBox>)
      returns (o: Outcome<LayoutError>)
      requires t.box == this && WellFormed(t) && Shaped(t, s) && s !! t.repr && HeightsAt(t, h0) && cb !in t.repr
      modifies t.repr
      ensures o.Pass? <==> NoAnon(t)
      ensures o.Fail? ==> o.error == AnonymousBoxHasNoStyle
      ensures o.Pass? ==> Holds(Plan(t, cb.content, h0), t.repr)
      decreases t, 4
    {
      o := LayoutBlock(cb, t, h0, s);
    }

    /** `layoutBlock`: width, position, children, then height. */
    method LayoutBlock(cb: Dimensions, ghost t: Tree, ghost h0: map<LayoutBox, real>, ghost s: set<LayoutBox>)
      returns (o: Outcome<LayoutError>)
      requires t.box == this && WellFormed(t) && Shaped(t, s) && s !! t.repr && HeightsAt(t, h0) && cb !in t.repr
      modifies t.repr
      ensures o.Pass? <==> NoAnon(t)
      ensures o.Fail? ==> o.error == AnonymousBoxHasNoStyle
      ensures o.Pass? ==> Holds(Plan(t, cb.content, h0), t.repr)
      decreases t, 3
    {
      o := CalculateBlockWidth(cb);
      if o.Fail? {
        return;
      }
      o := CalculateBlockPosition(cb);
      assert o.Pass?;
      ghost var top := dimensions.content;
      assert top == Place(boxType, cb.content, 0.0).content.(height := HeightIn(h0, this));
      ghost var acc;
      o, acc := LayoutBlockChildren(t, h0, s);
      if o.Fail? {
        return;
      }
      assert top == Top(t, cb.content, h0);
      o := FinishBlock(cb, t, h0, acc);
    }

    /** The last step of `layoutBlock`: the height, once the children are
        placed in the objects `acc`. */
    method FinishBlock(cb: Dimensions, ghost t: Tree, ghost h0: map<LayoutBox, real>, ghost acc: set<object>)
      returns (o: Outcome<LayoutError>)
      requires t.box == this && NoAnon(t) && cb != dimensions
      requires dimensions.margin.left == Place(boxType, cb.content, 0.0).edge.left
      requires dimensions.margin.right == Place(boxType, cb.content, 0.0).edge.right
      requires dimensions.margin.top == Place(boxType, cb.content, 0.0).edge.top
      requires dimensions.margin.bottom == Place(boxType, cb.content, 0.0).edge.bottom
      requires Progress(t, |t.kids|, Top(t, cb.content, h0), h0, acc) && dimensions.margin in t.repr
      modifies dimensions
      ensures o.Pass? && Holds(Plan(t, cb.content, h0), t.repr)
    {
      o := CalculateBlockHeight();
      assert o.Pass?;
      assert Agrees(Place(boxType, cb.content, HeightIn(h0, this) + ChildPlans(t, Top(t, cb.content, h0), h0, |t.kids|).1));
      HoldsAssemble(t, cb.content, h0, ChildPlans(t, Top(t, cb.content, h0), h0, |t.kids|), acc, t.repr);
    }

    /** One step of `layoutBlockChildren`: lays this box out inside the
        parent's dimensions `d` and grows the parent's content by this
        box's margin box. The placements `keep`, held in the objects `acc`,
        are left alone. */
    method LayoutChild(d: Dimensions, ghost k: Tree, ghost h0: map<LayoutBox, real>, ghost s: set<LayoutBox>,
                       ghost start: Rect, ghost before: (map<LayoutBox, Placement>, real), ghost acc: set<object>)
      returns (o: Outcome<LayoutError>)
      requires k.box == this && WellFormed(k) && Shaped(k, s) && s !! k.repr && HeightsAt(k, h0)
      requires d.content == start.(height := start.height + before.1)
      requires d !in k.repr && Holds(before.0, acc) && acc !! k.repr && d !in acc
      modifies k.repr, d
      ensures o.Pass? <==> NoAnon(k)
      ensures o.Fail? ==> o.error == AnonymousBoxHasNoStyle
      ensures o.Pass? ==>
        d.content == start.(height := start.height + Stack(before, k, start, h0).1)
        && Holds(Stack(before, k, start, h0).0, acc + k.repr)
      decreases k, 5
    {
      o := Layout(d, k, h0, s);
      if o.Fail? {
        return;
      }
      ghost var m := Plan(k, old(d.content), h0);
      assert Agrees(m[this]);
      var margins := dimensions.MarginBox();
      MarginBoxOfSharedEdges(dimensions);
      HoldsUnion(before.0, acc, m, k.repr);
      GrowContent(d, margins.height, before.0 + m, acc + k.repr);
    }

    /** The body of the loop of `layoutBlockChildren` for child `i`: the
        children before it are placed in the objects `acc` and the content
        has grown by their margin boxes. */
    method LayoutNext(ghost t: Tree, i: nat, ghost h0: map<LayoutBox, real>, ghost s: set<LayoutBox>,
                      ghost start: Rect, ghost acc: set<object>)
      returns (o: Outcome<LayoutError>, ghost acc2: set<object>)
      requires t.box == this && WellFormed(t) && Shaped(t, s) && s !! t.repr && i < |t.kids|
      requires Progress(t, i, start, h0, acc)
      modifies t.repr
      ensures o.Pass? <==> NoAnon(t.kids[i])
      ensures o.Fail? ==> o.error == AnonymousBoxHasNoStyle
      ensures Shaped(t, s) && unchanged(dimensions.margin)
      ensures o.Pass? ==> Progress(t, i + 1, start, h0, acc2)
      decreases t, 1
    {
      var c := children[i];
      o := c.LayoutChild(dimensions, t.kids[i], h0, s, start, ChildPlans(t, start, h0, i), acc);
      acc2 := acc + t.kids[i].repr;
    }

    /** `layoutBlockChildren`: each child is laid out inside this box's
        content, whose height grows by the child's margin box. The children's
        objects are returned as `acc`. */
    method LayoutBlockChildren(ghost t: Tree, ghost h0: map<LayoutBox, real>, ghost s: set<LayoutBox>)
      returns (o: Outcome<LayoutError>, ghost acc: set<object>)
      requires t.box == this && WellFormed(t) && Shaped(t, s) && s !! t.repr
      requires Progress(t, 0, dimensions.content, h0, {})
      modifies t.repr
      ensures o.Pass? <==> KidsNoAnon(t, |t.kids|)
      ensures o.Fail? ==> o.error == AnonymousBoxHasNoStyle
      ensures unchanged(dimensions.margin)
      ensures o.Pass? ==> Progress(t, |t.kids|, old(dimensions.content), h0, acc)
      decreases t, 2
    {
      ghost var start := dimensions.content;
      acc := {};
      for i := 0 to |children|
        invariant Progress(t, i, start, h0, acc) && Shaped(t, s) && unchanged(dimensions.margin)
      {
        o, acc := LayoutNext(t, i, h0, s, start, acc);
        if o.Fail? {
          if KidsNoAnon(t, |t.kids|) {
            KidsNoAnonPrefix(t, i + 1, |t.kids|);
          }
          return;
        }
      }
      return Pass, acc;
    }

    /** `getInlineContainer`: an inline or anonymous box takes inline
        children itself. A block box gets a fresh anonymous box appended
        for each one, unless it has no children yet: then it answers
        `children[-1]`, which is `undefined`. */
    method GetInlineContainer() returns (r: Result<LayoutBox, LayoutError>)
      modifies this
      ensures !boxType.BlockNode? ==> r == Success(this) && children == old(children)
      ensures boxType.BlockNode? && old(children) == [] ==> r == Failure(TypeError) && children == old(children)
      ensures boxType.BlockNode? && old(children) != [] ==>
        r.Success? && fresh(r.value) && children == old(children) + [r.value]
        && r.value.boxType == AnonymousBlock && r.value.children == []
        && fresh(r.value.dimensions) && fresh(r.value.dimensions.margin) && r.value.dimensions.SharedEdges()
        && r.value.dimensions.content.height == 0.0
    {
      if !boxType.BlockNode? {
        return Success(this);
      }
      if |children| != 0 {
        var anonymous := new LayoutBox(AnonymousBlock);
        children := children + [anonymous];
      }
      if children == [] {
        return Failure(TypeError);
      }
      return Success(children[|children| - 1]);
    }
  }

  // ---------------------------------------------------------------------
  // Building the layout tree

  /** A tree shaped within a set of boxes is shaped within a larger one. */
  lemma {:induction false} ShapedMono(t: Tree, s: set<LayoutBox>, s': set<LayoutBox>)
    requires Shaped(t, s) && s <= s'
    ensures Shaped(t, s')
    decreases t
  {
    forall i | 0 <= i < |t.kids|
      ensures Shaped(t.kids[i], s')
    {
      ShapedMono(t.kids[i], s, s');
    }
  }

  /** Once building the children fails, it fails with the same error. */
  lemma {:induction false} ChildBoxesFailureStays(sn: StyleNode, block: bool, n: nat, m: nat)
    requires n <= m <= |sn.children| && ChildBoxes(sn, block, n).Failure?
    ensures ChildBoxes(sn, block, m).Failure? && ChildBoxes(sn, block, m).error == ChildBoxes(sn, block, n).error
    decreases m
  {
    if n < m {
      ChildBoxesFailureStays(sn, block, n, m - 1);
    }
  }

  /** The root's `children` are the boxes of `kids`. */
  ghost predicate KidsOf(root: LayoutBox, kids: seq<Tree>)
    reads root
  {
    |root.children| == |kids| && forall j :: 0 <= j < |kids| ==> root.children[j] == kids[j].box
  }

  /** The root and `kids` with the objects `repr` make a well-formed tree
      whose content heights are all zero; the children's boxes are in `s`,
      apart from `repr` and from the root. */
  ghost predicate Grown(root: LayoutBox, kids: seq<Tree>, repr: set<object>, s: set<LayoutBox>)
    reads s, repr
  {
    WellFormed(Tree(root, kids, repr)) && root !in s && root !in repr && s !! repr
    && (forall j :: 0 <= j < |kids| ==> Shaped(kids[j], s))
    && HeightsAt(Tree(root, kids, repr), map[])
  }

  /** The state of `buildLayoutTree` after some of the style children. */
  ghost predicate Built(root: LayoutBox, kids: seq<Tree>, repr: set<object>, s: set<LayoutBox>)
    reads root, s, repr
  {
    KidsOf(root, kids) && Grown(root, kids, repr, s)
  }

  /** A new well-formed child, apart from everything built so far, keeps
      the tree growing. */
  lemma GrownSnoc(root: LayoutBox, kids: seq<Tree>, repr: set<object>, s: set<LayoutBox>, k: Tree, ks: set<LayoutBox>)
    requires Grown(root, kids, repr, s)
    requires WellFormed(k) && Shaped(k, ks) && HeightsAt(k, map[])
    requires root !in k.repr && root !in ks && ks !! k.repr && repr !! k.repr && s !! k.repr && ks !! repr
    ensures Grown(root, kids + [k], repr + k.repr, s + ks)
  {
    var t := Tree(root, kids, repr);
    var t' := Tree(root, kids + [k], repr + k.repr);
    assert root.dimensions in repr && root.dimensions.margin in repr;
    forall j | 0 <= j < |t'.kids|
      ensures Shaped(t'.kids[j], s + ks)
    {
      if j < |kids| {
        ShapedMono(kids[j], s, s + ks);
      } else {
        ShapedMono(k, ks, s + ks);
      }
    }
    assert WellFormed(t');
  }

  /** An anonymous box around a well-formed child is a well-formed child. */
  lemma AnonymousKid(anon: LayoutBox, kt: Tree, ks: set<LayoutBox>)
    requires anon.boxType == AnonymousBlock && anon.children == [kt.box] && anon.dimensions.SharedEdges()
    requires anon.dimensions.content.height == 0.0
    requires WellFormed(kt) && Shaped(kt, ks) && HeightsAt(kt, map[])
    requires anon !in ks && anon.dimensions !in kt.repr && anon.dimensions.margin !in kt.repr
    ensures var k := Tree(anon, [kt], {anon.dimensions, anon.dimensions.margin} + kt.repr);
      WellFormed(k) && Shaped(k, ks + {anon}) && HeightsAt(k, map[])
  {
    ShapedMono(kt, ks, ks + {anon});
  }

  /** `buildLayoutTree`: a box for the root, then one for each shown style
      child, in order. Everything it builds is new. */
  method BuildLayoutTree(sn: StyleNode) returns (r: Result<LayoutBox, LayoutError>, ghost t: Tree, ghost s: set<LayoutBox>)
    ensures r.Success? <==> BoxTree(sn).Success?
    ensures r.Failure? ==> r.error == BoxTree(sn).error
    ensures r.Success? ==>
      t.box == r.value && Depicts(t, BoxTree(sn).value) && WellFormed(t) && Shaped(t, s) && s !! t.repr
      && HeightsAt(t, map[]) && fresh(t.repr) && fresh(s)
    decreases sn, 1
  {
    var display := sn.Display();
    var root := new LayoutBox(if display == Block then BlockNode(sn) else InlineNode(sn));
    ghost var kids: seq<Tree> := [];
    ghost var repr: set<object> := {root.dimensions, root.dimensions.margin};
    s := {};
    t := Tree(root, kids, repr);
    if display == DisplayNone {
      return Failure(RootDisplayNone), t, s;
    }
    for i := 0 to |sn.children|
      invariant ChildBoxes(sn, display == Block, i).Success?
      invariant Depicts(Tree(root, kids, repr), BoxShape(root.boxType, ChildBoxes(sn, display == Block, i).value))
      invariant Built(root, kids, repr, s) && fresh(repr) && fresh(s)
    {
      var o;
      o, kids, repr, s := PushChild(root, sn, i, kids, repr, s);
      if o.Fail? {
        ChildBoxesFailureStays(sn, display == Block, i + 1, |sn.children|);
        return Failure(o.error), t, s;
      }
    }
    t := Tree(root, kids, repr);
    forall j | 0 <= j < |kids|
      ensures Shaped(kids[j], s + {root})
    {
      ShapedMono(kids[j], s, s + {root});
    }
    s := s + {root};
    return Success(root), t, s;
  }

  /** Depicting grows child by child. */
  lemma DepictsSnoc(t: Tree, shape: BoxShape, k: Tree, kShape: BoxShape, repr: set<object>)
    requires Depicts(t, shape) && Depicts(k, kShape)
    ensures Depicts(Tree(t.box, t.kids + [k], repr), BoxShape(shape.boxType, shape.children + [kShape]))
  {
  }

  /** The body of the loop of `buildLayoutTree` for style child `i`: a
      block child's box is appended to the root, an inline child's box to
      the root's inline container, and a child with display none is
      skipped. */
  method PushChild(root: LayoutBox, sn: StyleNode, i: nat, ghost kids: seq<Tree>, ghost repr: set<object>, ghost s: set<LayoutBox>)
    returns (o: Outcome<LayoutError>, ghost kids': seq<Tree>, ghost repr': set<object>, ghost s': set<LayoutBox>)
    requires i < |sn.children| && !root.boxType.AnonymousBlock? && root.boxType.node == sn
    requires ChildBoxes(sn, root.boxType.BlockNode?, i).Success?
    requires Depicts(Tree(root, kids, repr), BoxShape(root.boxType, ChildBoxes(sn, root.boxType.BlockNode?, i).value))
    requires Built(root, kids, repr, s)
    modifies root
    ensures o.Pass? <==> ChildBoxes(sn, root.boxType.BlockNode?, i + 1).Success?
    ensures o.Fail? ==> o.error == ChildBoxes(sn, root.boxType.BlockNode?, i + 1).error
    ensures o.Pass? ==>
      Built(root, kids', repr', s') && repr <= repr' && s <= s' && fresh(repr' - repr) && fresh(s' - s)
      && Depicts(Tree(root, kids', repr'), BoxShape(root.boxType, ChildBoxes(sn, root.boxType.BlockNode?, i + 1).value))
    decreases sn, 0
  {
    kids', repr', s' := kids, repr, s;
    var child := sn.children[i];
    var display := child.Display();
    if display == DisplayNone {
      return Pass, kids', repr', s';
    }
    ghost var kid: Tree, ks: set<LayoutBox>;
    ghost var anonymous := false;
    if display == Block {
      o, kid, ks := AppendToRoot(root, child, kids, repr, s);
    } else {
      var c := root.GetInlineContainer();
      if c.Failure? {
        return Fail(c.error), kids', repr', s';
      }
      if c.value == root {
        o, kid, ks := AppendToRoot(root, child, kids, repr, s);
      } else {
        o, kid, ks := AppendToAnonymous(root, c.value, child, kids, repr, s);
        anonymous := true;
      }
    }
    if o.Fail? {
      return;
    }
    ghost var shape := if anonymous then BoxShape(AnonymousBlock, [BoxTree(child).value]) else BoxTree(child).value;
    assert ChildBoxes(sn, root.boxType.BlockNode?, i + 1).value
      == ChildBoxes(sn, root.boxType.BlockNode?, i).value + [shape];
    DepictsSnoc(Tree(root, kids, repr), BoxShape(root.boxType, ChildBoxes(sn, root.boxType.BlockNode?, i).value),
                kid, shape, repr + kid.repr);
    kids', repr', s' := kids + [kid], repr + kid.repr, s + ks;
  }

  /** `root.children.push(buildLayoutTree(child))`. */
  method AppendToRoot(root: LayoutBox, child: StyleNode, ghost kids: seq<Tree>, ghost repr: set<object>, ghost s: set<LayoutBox>)
    returns (o: Outcome<LayoutError>, ghost kid: Tree, ghost ks: set<LayoutBox>)
    requires Built(root, kids, repr, s)
    modifies root
    ensures o.Pass? <==> BoxTree(child).Success?
    ensures o.Fail? ==> o.error == BoxTree(child).error
    ensures o.Pass? ==>
      Built(root, kids + [kid], repr + kid.repr, s + ks) && Depicts(kid, BoxTree(child).value)
      && fresh(kid.repr) && fresh(ks)
    decreases child, 2
  {
    var b;
    b, kid, ks := BuildLayoutTree(child);
    if b.Failure? {
      return Fail(b.error), kid, ks;
    }
    root.children := root.children + [b.value];
    GrownSnoc(root, kids, repr, s, kid, ks);
    o := Pass;
  }

  /** `container.children.push(buildLayoutTree(child))` for the anonymous
      box `anon` that `getInlineContainer` has just appended to the root. */
  method AppendToAnonymous(root: LayoutBox, anon: LayoutBox, child: StyleNode,
                           ghost kids: seq<Tree>, ghost repr: set<object>, ghost s: set<LayoutBox>)
    returns (o: Outcome<LayoutError>, ghost kid: Tree, ghost ks: set<LayoutBox>)
    requires Grown(root, kids, repr, s)
    requires |root.children| == |kids| + 1 && root.children[|kids|] == anon
    requires forall j :: 0 <= j < |kids| ==> root.children[j] == kids[j].box
    requires anon.boxType == AnonymousBlock && anon.children == [] && anon.dimensions.SharedEdges()
    requires anon.dimensions.content.height == 0.0
    requires anon != root && anon !in s && anon !in repr
    requires anon.dimensions !in repr && anon.dimensions.margin !in repr
    modifies anon
    ensures o.Pass? <==> BoxTree(child).Success?
    ensures o.Fail? ==> o.error == BoxTree(child).error
    ensures o.Pass? ==>
      Built(root, kids + [kid], repr + kid.repr, s + ks) && Depicts(kid, BoxShape(AnonymousBlock, [BoxTree(child).value]))
      && kid.box == anon && fresh(kid.repr - {anon.dimensions, anon.dimensions.margin}) && fresh(ks - {anon})
    decreases child, 2
  {
    var b, kt, ks0 := BuildLayoutTree(child);
    if b.Failure? {
      return Fail(b.error), kt, ks0;
    }
    anon.children := anon.children + [b.value];
    AnonymousKid(anon, kt, ks0);
    kid := Tree(anon, [kt], {anon.dimensions, anon.dimensions.margin} + kt.repr);
    ks := ks0 + {anon};
    GrownSnoc(root, kids, repr, s, kid, ks);
    o := Pass;
  }

  /** `layoutTree`: the containing block's height is reset to zero, the
      layout tree is built, then laid out in it. This succeeds exactly for
      layable style trees, and then every box is where `Plan` puts it. */
  method LayoutTree(sn: StyleNode, cb: Dimensions) returns (r: Result<LayoutBox, LayoutError>, ghost t: Tree)
    modifies cb
    ensures cb.content == old(cb.content).(height := 0.0)
    ensures r.Success? <==> Layable(sn)
    ensures r.Failure? ==> r.error == if BoxTree(sn).Failure? then BoxTree(sn).error else AnonymousBoxHasNoStyle
    ensures r.Success? ==>
      t.box == r.value && fresh(t.repr) && BoxTree(sn).Success? && Depicts(t, BoxTree(sn).value) && NoAnon(t)
      && Holds(Plan(t, cb.content, map[]), t.repr)
  {
    cb.content := cb.content.(height := 0.0);
    var b;
    ghost var s;
    b, t, s := BuildLayoutTree(sn);
    LayableIff(sn);
    if b.Failure? {
      return Failure(b.error), t;
    }
    NoAnonDepicts(t, BoxTree(sn).value);
    var o := b.value.Layout(cb, t, map[], s);
    if o.Fail? {
      return Failure(o.error), t;
    }
    r := Success(b.value);
  }
}
