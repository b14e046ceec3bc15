/**
 * An abstract HTML document as the post-build pass sees it after parsing: the
 * children of <head> and the elements under <body>, each in document order.
 */
module Dom {
  import opened Text

  datatype Attribute = Attribute(name: string, value: string)

  /**
   * An element with its tag name, attributes in source order and text
   * content. The tag is the lower-case local name the HTML parser produces,
   * which is what a type selector such as `style` matches.
   */
  datatype Element = Element(tag: string, attributes: seq<Attribute>, text: string)

  /** head: the children of <head>; body: the elements under <body> in document order. */
  datatype Document = Document(head: seq<Element>, body: seq<Element>)

  predicate HasAttribute(e: Element, name: string) {
    exists i :: 0 <= i < |e.attributes| && e.attributes[i].name == name
  }

  /** The parser and the serialiser of the DOM library, which this model does not open up. */
  datatype DomLibrary = DomLibrary(parse: string -> Document, serialize: Document -> string)

  /** The outer HTML of an element that has an end tag: ` name="value"` per attribute. */
  function OuterHtml(e: Element): string {
    "<" + e.tag + AttributesHtml(e.attributes) + ">" + e.text + "</" + e.tag + ">"
  }

  function AttributesHtml(attributes: seq<Attribute>): string {
    if attributes == [] then ""
    else " " + attributes[0].name + "=\"" + attributes[0].value + "\"" + AttributesHtml(attributes[1..])
  }

  /** The outer HTML of an element with one attribute, grouped as open tag, value, text and end tag. */
  lemma OuterHtmlSingle(tag: string, name: string, value: string, text: string)
    ensures OuterHtml(Element(tag, [Attribute(name, value)], text))
      == ("<" + tag + " " + name + "=\"") + value + "\">" + text + ("</" + tag + ">")
  {
    var e := Element(tag, [Attribute(name, value)], text);
    assert AttributesHtml(e.attributes) == " " + name + "=\"" + value + "\"" by {
      assert AttributesHtml(e.attributes[1..]) == "";
    }
  }
}
