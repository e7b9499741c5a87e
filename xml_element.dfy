/** The output element of the `xml_builder` crate, as a value.
    The Rust generator mutates an `XMLElement` through `add_text`, `add_child` and
    `add_attribute`; here each of those returns the updated element. */
module XmlElement {

  datatype Element = Element(
    name: string,
    attributes: seq<(string, string)>,
    texts: seq<string>,
    children: seq<Element>)

  /** `XMLElement::new(name)`: a named element with nothing in it. */
  function New(name: string): Element {
    Element(name, [], [], [])
  }

  /** `add_text`: the text is appended to what the element already holds. */
  function AddText(e: Element, text: string): Element {
    e.(texts := e.texts + [text])
  }

  /** `add_child`: the child goes after the existing children. */
  function AddChild(e: Element, child: Element): Element {
    e.(children := e.children + [child])
  }

  /** `add_attribute`: the pair goes after the existing attributes. */
  function AddAttribute(e: Element, name: string, value: string): Element {
    e.(attributes := e.attributes + [(name, value)])
  }

  /** No element anywhere in the tree carries an attribute. */
  predicate NoAttributes(e: Element)
    decreases e
  {
    e.attributes == [] && forall i :: 0 <= i < |e.children| ==> NoAttributes(e.children[i])
  }
}
