/** The document tree produced by the HTML parser (src/dom.ts). A node is
    built once by `Text` or `Elem` and never changed afterwards, so nodes
    are values. */
module Dom {

  /** Attribute names to attribute values (a plain JavaScript object). */
  type AttrMap = map<string, string>

  datatype ElementData = ElementData(tagName: string, attributes: AttrMap)

  /** A node's type is either its text or its element data. */
  datatype NodeType = TextData(text: string) | Element(data: ElementData)

  datatype DomNode = DomNode(children: seq<DomNode>, nodeType: NodeType) {
    predicate IsElement() {
      nodeType.Element?
    }
  }

  /** A text leaf. */
  function Text(data: string): (n: DomNode)
    ensures n.children == [] && !n.IsElement()
    ensures n.nodeType == TextData(data)
  {
    DomNode([], TextData(data))
  }

  /** An element with the given tag name, attributes and children. */
  function Elem(name: string, attrs: AttrMap, children: seq<DomNode>): (n: DomNode)
    ensures n.IsElement()
    ensures n.nodeType.data == ElementData(name, attrs)
    ensures n.children == children
  {
    DomNode(children, Element(ElementData(name, attrs)))
  }

  /** Whatever their arguments, the two factories never build the same node:
      a text node is never an element. */
  lemma TextIsNotElem(data: string, name: string, attrs: AttrMap, children: seq<DomNode>)
    ensures Text(data) != Elem(name, attrs, children)
  {
  }
}
