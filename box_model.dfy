/** The CSS box model of src/layout.ts: rectangles, edge sizes and the
    dimensions of a box. All sizes are in px. */
module BoxModel {

  /** A rectangle: origin and size. Rectangles are only ever replaced as a
      whole or have one coordinate overwritten, so a value suits them. */
  datatype Rect = Rect(x: real, y: real, width: real, height: real) {

    /** The rectangle grown by `edge` on each side: the left and top sides
        move out by `edge.left` and `edge.top`, the right and bottom sides by
        `edge.right` and `edge.bottom`. */
    function ExpandedBy(edge: EdgeSizes): (r: Rect)
      reads edge
      ensures r.x == x - edge.left && r.y == y - edge.top
      ensures r.x + r.width == x + width + edge.right
      ensures r.y + r.height == y + height + edge.bottom
    {
      Rect(x - edge.left, y - edge.top, width + edge.left + edge.right, height + edge.top + edge.bottom)
    }

    /** `other` lies inside this rectangle. */
    predicate Contains(other: Rect) {
      x <= other.x && other.x + other.width <= x + width
      && y <= other.y && other.y + other.height <= y + height
    }
  }

  /** The four sizes of one edge (padding, border or margin). */
  class EdgeSizes {
    var left: real
    var right: real
    var top: real
    var bottom: real

    constructor (left: real, right: real, top: real, bottom: real)
      ensures this.left == left && this.right == right
      ensures this.top == top && this.bottom == bottom
    {
      this.left := left;
      this.right := right;
      this.top := top;
      this.bottom := bottom;
    }

    predicate NonNegative()
      reads this
    {
      0.0 <= left && 0.0 <= right && 0.0 <= top && 0.0 <= bottom
    }
  }

  /** Growing by non-negative edges gives a rectangle that contains the
      original one. */
  lemma ExpansionContains(r: Rect, edge: EdgeSizes)
    requires edge.NonNegative()
    ensures r.ExpandedBy(edge).Contains(r)
  {
  }

  /** Growing by one edge and then by another grows by the sum of their
      sizes, side by side. */
  lemma ExpandTwice(r: Rect, first: EdgeSizes, second: EdgeSizes)
    ensures r.ExpandedBy(first).ExpandedBy(second)
      == Rect(r.x - first.left - second.left, r.y - first.top - second.top,
              r.width + first.left + first.right + second.left + second.right,
              r.height + first.top + first.bottom + second.top + second.bottom)
  {
  }

  /** The content rectangle and the three edges around it. The edge objects
      are fixed at construction; their sizes and the content rectangle are
      updated by layout. */
  class Dimensions {
    var content: Rect
    const padding: EdgeSizes
    const border: EdgeSizes
    const margin: EdgeSizes

    constructor (content: Rect, padding: EdgeSizes, border: EdgeSizes, margin: EdgeSizes)
      ensures this.content == content
      ensures this.padding == padding && this.border == border && this.margin == margin
    {
      this.content := content;
      this.padding := padding;
      this.border := border;
      this.margin := margin;
    }

    /** `paddingBox` grows the content by the BORDER sizes, not the padding
        sizes, as written; the padding sizes play no part in any box. */
    function PaddingBox(): (r: Rect)
      reads this, border
      ensures r.x == content.x - border.left && r.y == content.y - border.top
      ensures r.width == content.width + border.left + border.right
      ensures r.height == content.height + border.top + border.bottom
    {
      content.ExpandedBy(border)
    }

    /** The border box is the content grown twice by the border sizes. */
    function BorderBox(): (r: Rect)
      reads this, border
      ensures r.x == content.x - 2.0 * border.left && r.y == content.y - 2.0 * border.top
      ensures r.width == content.width + 2.0 * (border.left + border.right)
      ensures r.height == content.height + 2.0 * (border.top + border.bottom)
    {
      ExpandTwice(content, border, border);
      PaddingBox().ExpandedBy(border)
    }

    /** The margin box is the content grown twice by the border sizes and
        once by the margin sizes. */
    function MarginBox(): (r: Rect)
      reads this, border, margin
      ensures r.x == content.x - 2.0 * border.left - margin.left
      ensures r.y == content.y - 2.0 * border.top - margin.top
      ensures r.width == content.width + 2.0 * (border.left + border.right) + margin.left + margin.right
      ensures r.height == content.height + 2.0 * (border.top + border.bottom) + margin.top + margin.bottom
    {
      BorderBox().ExpandedBy(margin)
    }

    /** Every box of the layout tree is built with one `EdgeSizes` object
        shared by its padding, border and margin. */
    predicate SharedEdges()
    {
      padding == border && border == margin
    }
  }

  /** With one shared edge object, the margin box is the content grown
      three times by that edge: once each for "padding" (really the
      border), border and margin. */
  lemma MarginBoxOfSharedEdges(d: Dimensions)
    requires d.SharedEdges()
    ensures var e := d.margin;
      d.MarginBox() == Rect(d.content.x - 3.0 * e.left, d.content.y - 3.0 * e.top,
                            d.content.width + 3.0 * (e.left + e.right),
                            d.content.height + 3.0 * (e.top + e.bottom))
  {
  }

  /** With non-negative edges each box contains the one inside it. */
  lemma BoxesNest(d: Dimensions)
    requires d.border.NonNegative() && d.margin.NonNegative()
    ensures d.PaddingBox().Contains(d.content)
    ensures d.BorderBox().Contains(d.PaddingBox())
    ensures d.MarginBox().Contains(d.BorderBox())
  {
    ExpansionContains(d.content, d.border);
    ExpansionContains(d.PaddingBox(), d.border);
    ExpansionContains(d.BorderBox(), d.margin);
  }
}
