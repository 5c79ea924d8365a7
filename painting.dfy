/** Painting (src/painting.ts): the display list of a layout tree, and a
    canvas the commands are painted onto. */
module Painting {
  import opened Wrappers
  import opened Css
  import opened Style
  import opened BoxModel
  import opened Layout

  // ---------------------------------------------------------------------
  // Display commands

  /** The one kind of display command: a rectangle filled with a color. */
  datatype DisplayCommand = SolidColor(color: Color, rect: Rect)

  /** `getColor`: the color a block or inline box's style holds under
      `name`; none for an anonymous box, for a missing property or for a
      value that is not a color. */
  function GetColor(box: LayoutBox, name: string): (r: Option<Color>)
    ensures r.Some? <==> !box.boxType.AnonymousBlock? && name in box.boxType.node.specifiedValues
                         && box.boxType.node.specifiedValues[name].ColorValue?
    ensures r.Some? ==> box.boxType.node.specifiedValues[name] == ColorValue(r.value)
    ensures box.boxType.AnonymousBlock? ==> r.None?
  {
    match box.boxType
    case AnonymousBlock => None
    case _ =>
      match box.boxType.node.ValueOf(name)
      case Some(ColorValue(c)) => Some(c)
      case _ => None
  }

  /** `renderBackground`: the border box filled with the box's color, which
      is looked up under `border-color`, as written. */
  function Background(box: LayoutBox): seq<DisplayCommand>
    reads box.dimensions, box.dimensions.border
  {
    match GetColor(box, "border-color")
    case None => []
    case Some(color) => [SolidColor(color, box.dimensions.BorderBox())]
  }

  /** `renderBorders`: four strips along the inside of the border box,
      left, right, top and bottom. */
  function Borders(box: LayoutBox): seq<DisplayCommand>
    reads box.dimensions, box.dimensions.border
  {
    match GetColor(box, "border-color")
    case None => []
    case Some(color) =>
      var d := box.dimensions;
      var bb := d.BorderBox();
      [SolidColor(color, Rect(bb.x, bb.y, d.border.left, bb.height)),
       SolidColor(color, Rect(bb.x + bb.width - d.border.right, bb.y, d.border.right, bb.height)),
       SolidColor(color, Rect(bb.x, bb.y, bb.width, d.border.top)),
       SolidColor(color, Rect(bb.x, bb.y + bb.height - d.border.bottom, bb.width, d.border.bottom))]
  }

  /** What one box contributes, before its children. */
  function BoxCommands(box: LayoutBox): seq<DisplayCommand>
    reads box.dimensions, box.dimensions.border
  {
    Background(box) + Borders(box)
  }

  /** A box contributes five commands, all in its color, when its style
      holds a color under `border-color`, and none otherwise (so never for
      an anonymous box); the first fills its border box, and the four
      strips run along the edges of the border box with the widths of
      the border, inside it when the border fits. */
  lemma BoxCommandsShape(box: LayoutBox)
    ensures var cmds := BoxCommands(box);
      var color := GetColor(box, "border-color");
      (color.None? ==> cmds == [])
      && (color.Some? ==> |cmds| == 5 && forall i :: 0 <= i < 5 ==> cmds[i].color == color.value)
    ensures var cmds := BoxCommands(box);
      var d := box.dimensions;
      var bb := d.BorderBox();
      GetColor(box, "border-color").Some? ==>
        cmds[0].rect == bb
        && cmds[1].rect.x == bb.x && cmds[1].rect.y == bb.y
        && cmds[1].rect.width == d.border.left && cmds[1].rect.height == bb.height
        && cmds[2].rect.x + cmds[2].rect.width == bb.x + bb.width && cmds[2].rect.y == bb.y
        && cmds[2].rect.width == d.border.right && cmds[2].rect.height == bb.height
        && cmds[3].rect.x == bb.x && cmds[3].rect.y == bb.y
        && cmds[3].rect.width == bb.width && cmds[3].rect.height == d.border.top
        && cmds[4].rect.x == bb.x && cmds[4].rect.y + cmds[4].rect.height == bb.y + bb.height
        && cmds[4].rect.width == bb.width && cmds[4].rect.height == d.border.bottom
    ensures var cmds := BoxCommands(box);
      var d := box.dimensions;
      var bb := d.BorderBox();
      GetColor(box, "border-color").Some? && d.border.NonNegative()
      && d.border.left <= bb.width && d.border.right <= bb.width
      && d.border.top <= bb.height && d.border.bottom <= bb.height ==>
        forall i :: 1 <= i < 5 ==> bb.Contains(cmds[i].rect)
  {
  }

  // ---------------------------------------------------------------------
  // The display list

  /** The display list of a layout tree: pre-order, each box's commands
      before those of its children, the children in order. */
  ghost function DisplayList(t: Tree): seq<DisplayCommand>
    requires WellFormed(t)
    reads t.repr
    decreases t, 1
  {
    BoxCommands(t.box) + KidsList(t, |t.kids|)
  }

  /** The display lists of the first `n` children of `t`, one after the
      other. */
  ghost function KidsList(t: Tree, n: nat): seq<DisplayCommand>
    requires WellFormed(t) && n <= |t.kids|
    reads t.repr
    decreases t, 0, n
  {
    if n == 0 then [] else KidsList(t, n - 1) + DisplayList(t.kids[n - 1])
  }

  /** Whether a box has a color under `border-color`. */
  predicate Colored(box: LayoutBox) {
    GetColor(box, "border-color").Some?
  }

  /** The number of boxes of the tree that have a color. */
  function ColoredBoxes(t: Tree): nat
    decreases t, 1
  {
    (if Colored(t.box) then 1 else 0) + ColoredKids(t, |t.kids|)
  }

  function ColoredKids(t: Tree, n: nat): nat
    requires n <= |t.kids|
    decreases t, 0, n
  {
    if n == 0 then 0 else ColoredKids(t, n - 1) + ColoredBoxes(t.kids[n - 1])
  }

  /** Five commands per box with a color, none for any other box. */
  lemma {:induction false} DisplayListLength(t: Tree)
    requires WellFormed(t)
    decreases t, 1
    ensures |DisplayList(t)| == 5 * ColoredBoxes(t)
  {
    BoxCommandsShape(t.box);
    KidsListLength(t, |t.kids|);
  }

  lemma {:induction false} KidsListLength(t: Tree, n: nat)
    requires WellFormed(t) && n <= |t.kids|
    decreases t, 0, n
    ensures |KidsList(t, n)| == 5 * ColoredKids(t, n)
  {
    if n > 0 {
      KidsListLength(t, n - 1);
      DisplayListLength(t.kids[n - 1]);
    }
  }

  /** Pre-order: the list starts with the box's own commands, followed by
      the lists of the children before child `i`, followed by the list of
      child `i`. */
  lemma DisplayListOrder(t: Tree, i: nat)
    requires WellFormed(t) && i < |t.kids|
    ensures BoxCommands(t.box) + KidsList(t, i) + DisplayList(t.kids[i]) <= DisplayList(t)
  {
    var own, before, kid := BoxCommands(t.box), KidsList(t, i), DisplayList(t.kids[i]);
    KidsListPrefix(t, i + 1, |t.kids|);
    assert KidsList(t, i + 1) == before + kid;
    PrefixAppend(own, before + kid, KidsList(t, |t.kids|));
    assert own + before + kid == own + (before + kid);
  }

  lemma PrefixAppend<T>(a: seq<T>, b: seq<T>, c: seq<T>)
    requires b <= c
    ensures a + b <= a + c
  {
    assert a + c == a + b + c[|b|..];
  }

  /** The lists of the first children come first. */
  lemma {:induction false} KidsListPrefix(t: Tree, m: nat, n: nat)
    requires WellFormed(t) && m <= n <= |t.kids|
    decreases n
    ensures KidsList(t, m) <= KidsList(t, n)
  {
    if m < n {
      KidsListPrefix(t, m, n - 1);
    }
  }

  /** The list the render functions push onto. */
  class CommandList {
    var items: seq<DisplayCommand>

    constructor ()
      ensures items == []
    {
      items := [];
    }

    method Push(c: DisplayCommand)
      modifies this
      ensures items == old(items) + [c]
    {
      items := items + [c];
    }
  }

  /** `renderBackground`. */
  method RenderBackground(list: CommandList, box: LayoutBox)
    modifies list
    ensures list.items == old(list.items) + Background(box)
  {
    var color := GetColor(box, "border-color");
    if color.None? {
      return;
    }
    list.Push(SolidColor(color.value, box.dimensions.BorderBox()));
  }

  /** `renderBorders`. */
  method RenderBorders(list: CommandList, box: LayoutBox)
    modifies list
    ensures list.items == old(list.items) + Borders(box)
  {
    var color := GetColor(box, "border-color");
    if color.None? {
      return;
    }
    var d := box.dimensions;
    var borderBox := d.BorderBox();
    list.Push(SolidColor(color.value, Rect(borderBox.x, borderBox.y, d.border.left, borderBox.height)));
    list.Push(SolidColor(color.value, Rect(borderBox.x + borderBox.width - d.border.right, borderBox.y,
                                           d.border.right, borderBox.height)));
    list.Push(SolidColor(color.value, Rect(borderBox.x, borderBox.y, borderBox.width, d.border.top)));
    list.Push(SolidColor(color.value, Rect(borderBox.x, borderBox.y + borderBox.height - d.border.bottom,
                                           borderBox.width, d.border.bottom)));
  }

  /** `renderLayoutBox`: the box's background and borders, then each child
      in order. `t` is the tree rooted at the box and `s` its boxes. */
  method RenderLayoutBox(list: CommandList, box: LayoutBox, ghost t: Tree, ghost s: set<LayoutBox>)
    requires t.box == box && WellFormed(t) && Shaped(t, s) && list !in t.repr
    modifies list
    decreases t, 1
    ensures list.items == old(list.items) + DisplayList(t)
  {
    RenderBackground(list, box);
    RenderBorders(list, box);
    AppendAssoc(old(list.items), Background(box), Borders(box));
    RenderChildren(list, box, t, s);
    AppendAssoc(old(list.items), BoxCommands(box), KidsList(t, |t.kids|));
  }

  /** The loop of `renderLayoutBox` over the children of `box`, in order. */
  method RenderChildren(list: CommandList, box: LayoutBox, ghost t: Tree, ghost s: set<LayoutBox>)
    requires t.box == box && WellFormed(t) && Shaped(t, s) && list !in t.repr
    modifies list
    decreases t, 0
    ensures list.items == old(list.items) + KidsList(t, |t.kids|)
  {
    for i := 0 to |box.children|
      invariant list.items == old(list.items) + KidsList(t, i)
    {
      RenderLayoutBox(list, box.children[i], t.kids[i], s);
      AppendAssoc(old(list.items), KidsList(t, i), DisplayList(t.kids[i]));
      assert KidsList(t, i + 1) == KidsList(t, i) + DisplayList(t.kids[i]);
    }
  }

  lemma AppendAssoc<T>(a: seq<T>, b: seq<T>, c: seq<T>)
    ensures a + b + c == a + (b + c)
  {
  }

  /** `buildDisplayList`. */
  method BuildDisplayList(layoutRoot: LayoutBox, ghost t: Tree, ghost s: set<LayoutBox>) returns (list: seq<DisplayCommand>)
    requires t.box == layoutRoot && WellFormed(t) && Shaped(t, s)
    ensures list == DisplayList(t)
  {
    var l := new CommandList();
    RenderLayoutBox(l, layoutRoot, t, s);
    list := l.items;
  }

  // ---------------------------------------------------------------------
  // The canvas

  /** `clamp(target)(lower, upper)`: `Math.min(Math.max(target, lower),
      upper)`. */
  function Clamp(target: real, lower: real, upper: real): (r: real)
    ensures lower <= upper ==> lower <= r <= upper
    ensures lower <= target <= upper ==> r == target
    ensures upper < lower ==> r == upper
  {
    var atLeast := if target > lower then target else lower;
    if atLeast < upper then atLeast else upper
  }

  /** Clamping twice changes nothing more. */
  lemma ClampIdempotent(target: real, lower: real, upper: real)
    requires lower <= upper
    ensures Clamp(Clamp(target, lower, upper), lower, upper) == Clamp(target, lower, upper)
  {
  }

  const White := Color(Some(255), Some(255), Some(255), Some(255))

  /** The index of pixel `(x, y)` in a canvas `width` wide. */
  function PixelIndex(width: real, x: real, y: real): real {
    y * width + x
  }

  /** The left and right edges of a rectangle, clipped to the canvas. */
  function ClippedXs(width: real, rect: Rect): (xs: seq<real>)
    ensures |xs| == 2 && forall i :: 0 <= i < 2 ==> (0.0 <= width ==> 0.0 <= xs[i] <= width)
  {
    [Clamp(rect.x, 0.0, width), Clamp(rect.x + rect.width, 0.0, width)]
  }

  /** The top and bottom edges of a rectangle, clipped to the canvas. */
  function ClippedYs(height: real, rect: Rect): (ys: seq<real>)
    ensures |ys| == 2 && forall i :: 0 <= i < 2 ==> (0.0 <= height ==> 0.0 <= ys[i] <= height)
  {
    [Clamp(rect.y, 0.0, height), Clamp(rect.y + rect.height, 0.0, height)]
  }

  /** The pixel indices `paintItem` writes for a rectangle, in the order it
      writes them: the top edge before the bottom one and, on each, the
      left edge before the right one. These are the four corners of the
      rectangle clipped to the canvas; coordinates are not rounded. */
  function Corners(width: real, height: real, rect: Rect): (keys: seq<real>)
    ensures |keys| == 4
  {
    var xs := ClippedXs(width, rect);
    var ys := ClippedYs(height, rect);
    [PixelIndex(width, xs[0], ys[0]), PixelIndex(width, xs[1], ys[0]),
     PixelIndex(width, xs[0], ys[1]), PixelIndex(width, xs[1], ys[1])]
  }

  /** Corner `2 * i + j` is on edge `i` of the top and bottom and edge `j`
      of the left and right. */
  lemma CornerAt(width: real, height: real, rect: Rect, i: nat, j: nat)
    requires i < 2 && j < 2
    ensures Corners(width, height, rect)[2 * i + j]
         == PixelIndex(width, ClippedXs(width, rect)[j], ClippedYs(height, rect)[i])
  { }

  /** `pixels` after `pixels[k] = color` for each `k` of `keys` in turn. */
  function Stamp(pixels: map<real, Color>, keys: seq<real>, color: Color): map<real, Color> {
    if keys == [] then pixels
    else Stamp(pixels, keys[..|keys| - 1], color)[keys[|keys| - 1] := color]
  }

  lemma StampSnoc(pixels: map<real, Color>, keys: seq<real>, n: nat, color: Color)
    requires n < |keys|
    ensures Stamp(pixels, keys[..n + 1], color) == Stamp(pixels, keys[..n], color)[keys[n] := color]
  {
    assert keys[..n + 1][..n] == keys[..n];
  }

  /** Stamping gives the color to the stamped keys and leaves every other
      pixel as it was. */
  lemma {:induction false} StampEffect(pixels: map<real, Color>, keys: seq<real>, color: Color, k: real)
    ensures k in keys ==> k in Stamp(pixels, keys, color) && Stamp(pixels, keys, color)[k] == color
    ensures k !in keys ==> (k in Stamp(pixels, keys, color) <==> k in pixels)
    ensures k !in keys && k in pixels ==> Stamp(pixels, keys, color)[k] == pixels[k]
  {
    if keys != [] {
      var init := keys[..|keys| - 1];
      StampEffect(pixels, init, color, k);
      assert keys == init + [keys[|keys| - 1]];
    }
  }

  /** The pixels after `paintItem(item)`. */
  function Painted(pixels: map<real, Color>, width: real, height: real, item: DisplayCommand): map<real, Color> {
    Stamp(pixels, Corners(width, height, item.rect), item.color)
  }

  /** The pixels after painting `items` in order. */
  function PaintAll(pixels: map<real, Color>, width: real, height: real, items: seq<DisplayCommand>): map<real, Color> {
    if items == [] then pixels
    else Painted(PaintAll(pixels, width, height, items[..|items| - 1]), width, height, items[|items| - 1])
  }

  /** Later writes win: a pixel has the color of the last command that
      writes it. */
  lemma {:induction false} LaterWritesWin(pixels: map<real, Color>, width: real, height: real, items: seq<DisplayCommand>, i: nat, k: real)
    requires i < |items| && k in Corners(width, height, items[i].rect)
    requires forall j :: i < j < |items| ==> k !in Corners(width, height, items[j].rect)
    ensures k in PaintAll(pixels, width, height, items)
    ensures PaintAll(pixels, width, height, items)[k] == items[i].color
  {
    var init := items[..|items| - 1];
    var before := PaintAll(pixels, width, height, init);
    var last := items[|items| - 1];
    if i == |items| - 1 {
      StampEffect(before, Corners(width, height, last.rect), last.color, k);
    } else {
      assert init[i] == items[i];
      forall j | i < j < |init|
        ensures k !in Corners(width, height, init[j].rect)
      {
        assert init[j] == items[j];
      }
      LaterWritesWin(pixels, width, height, init, i, k);
      StampEffect(before, Corners(width, height, last.rect), last.color, k);
    }
  }

  /** A pixel no command writes keeps its value (or its absence). */
  lemma {:induction false} UntouchedPixelsKeep(pixels: map<real, Color>, width: real, height: real, items: seq<DisplayCommand>, k: real)
    requires forall j :: 0 <= j < |items| ==> k !in Corners(width, height, items[j].rect)
    ensures k in PaintAll(pixels, width, height, items) <==> k in pixels
    ensures k in pixels ==> PaintAll(pixels, width, height, items)[k] == pixels[k]
  {
    if items != [] {
      var init := items[..|items| - 1];
      var last := items[|items| - 1];
      forall j | 0 <= j < |init|
        ensures k !in Corners(width, height, init[j].rect)
      {
        assert init[j] == items[j];
      }
      UntouchedPixelsKeep(pixels, width, height, init, k);
      StampEffect(PaintAll(pixels, width, height, init), Corners(width, height, last.rect), last.color, k);
    }
  }

  /** A canvas: pixels by index, and its size. The pixel array is sparse:
      only the indices written so far hold a color. */
  class Canvas {
    var pixels: map<real, Color>
    const width: real
    const height: real

    constructor (pixels: map<real, Color>, width: real, height: real)
      ensures this.pixels == pixels && this.width == width && this.height == height
    {
      this.pixels := pixels;
      this.width := width;
      this.height := height;
    }

    /** `Canvas.n`: ONE white pixel, at index 0, whatever the size. */
    static method N(width: real, height: real) returns (c: Canvas)
      ensures fresh(c) && c.width == width && c.height == height
      ensures c.pixels == map[0.0 := White]
    {
      c := new Canvas(map[0.0 := White], width, height);
    }

    /** `paintItem`: the item's color at the four corner indices of its
        rectangle clipped to the canvas. */
    method PaintItem(item: DisplayCommand)
      modifies this
      ensures pixels == Painted(old(pixels), width, height, item)
    {
      var x0 := Clamp(item.rect.x, 0.0, width);
      var y0 := Clamp(item.rect.y, 0.0, height);
      var x1 := Clamp(item.rect.x + item.rect.width, 0.0, width);
      var y1 := Clamp(item.rect.y + item.rect.height, 0.0, height);
      var ys := [y0, y1];
      var xs := [x0, x1];
      ghost var keys := Corners(width, height, item.rect);
      assert xs == ClippedXs(width, item.rect) && ys == ClippedYs(height, item.rect);
      for i := 0 to 2
        invariant pixels == Stamp(old(pixels), keys[..2 * i], item.color)
      {
        for j := 0 to 2
          invariant pixels == Stamp(old(pixels), keys[..2 * i + j], item.color)
        {
          CornerAt(width, height, item.rect, i, j);
          StampSnoc(old(pixels), keys, 2 * i + j, item.color);
          pixels := pixels[PixelIndex(width, xs[j], ys[i]) := item.color];
        }
      }
      assert keys[..4] == keys;
    }
  }

  /** `paint`: the display list of the layout tree painted in order onto a
      new canvas of the size of `bounds`. */
  method Paint(layoutRoot: LayoutBox, bounds: Rect, ghost t: Tree, ghost s: set<LayoutBox>) returns (canvas: Canvas)
    requires t.box == layoutRoot && WellFormed(t) && Shaped(t, s)
    ensures fresh(canvas) && canvas.width == bounds.width && canvas.height == bounds.height
    ensures canvas.pixels == PaintAll(map[0.0 := White], bounds.width, bounds.height, DisplayList(t))
  {
    var displayList := BuildDisplayList(layoutRoot, t, s);
    canvas := Canvas.N(bounds.width, bounds.height);
    for i := 0 to |displayList|
      invariant canvas.pixels == PaintAll(map[0.0 := White], bounds.width, bounds.height, displayList[..i])
    {
      assert displayList[..i + 1][..i] == displayList[..i];
      canvas.PaintItem(displayList[i]);
    }
    assert displayList[..|displayList|] == displayList;
  }
}
