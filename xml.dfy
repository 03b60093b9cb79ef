/** The part of System.Xml.Linq the core uses, on an abstract element
    tree: XML text and its parser are not modelled, a parsed document is a
    tree of elements, and a document the parser rejects is `Malformed`. */
module Xml {
  import opened Wrappers

  datatype Attribute = Attribute(name: string, value: string)

  /** An element with its attributes, child elements in document order, and
      its string value (`XElement.Value`, the concatenated character data). */
  datatype Element = Element(
    name: string,
    attributes: seq<Attribute>,
    children: seq<Element>,
    text: string)

  /** The outcome of `XDocument.Parse`. */
  datatype XmlDocument = Malformed | Document(root: Element)

  /** `e.Attribute(name)?.Value`. */
  function Attr(e: Element, name: string): Option<string> {
    FindAttribute(e.attributes, name)
  }

  function FindAttribute(attrs: seq<Attribute>, name: string): Option<string>
    decreases |attrs|
  {
    if attrs == [] then None
    else if attrs[0].name == name then Some(attrs[0].value)
    else FindAttribute(attrs[1..], name)
  }

  /** The attribute found is the first one with that name. */
  lemma {:induction false} FindAttributeFirst(attrs: seq<Attribute>, name: string)
    ensures FindAttribute(attrs, name).None? <==> forall k :: 0 <= k < |attrs| ==> attrs[k].name != name
    ensures FindAttribute(attrs, name).Some? ==>
      exists i :: 0 <= i < |attrs| && attrs[i] == Attribute(name, FindAttribute(attrs, name).value) &&
        forall k :: 0 <= k < i ==> attrs[k].name != name
    decreases |attrs|
  {
    if attrs != [] && attrs[0].name != name {
      FindAttributeFirst(attrs[1..], name);
      var r := FindAttribute(attrs, name);
      if r.Some? {
        var i :| 0 <= i < |attrs[1..]| && attrs[1..][i] == Attribute(name, r.value) &&
          forall k :: 0 <= k < i ==> attrs[1..][k].name != name;
        assert attrs[i + 1] == Attribute(name, r.value);
      }
    }
  }

  /** `es.Where(x => x.Name == name)`, i.e. `e.Elements(name)` on `e.children`. */
  function Named(es: seq<Element>, name: string): (r: seq<Element>)
    ensures |r| <= |es|
    ensures forall k :: 0 <= k < |r| ==> r[k].name == name
    decreases |es|
  {
    if es == [] then []
    else
      var init := Named(es[..|es| - 1], name);
      var last := es[|es| - 1];
      if last.name == name then init + [last] else init
  }

  /** `e.Elements(name)`. */
  function Elements(e: Element, name: string): seq<Element> {
    Named(e.children, name)
  }

  /** `e.Element(name)`: the first child with that name. */
  function Child(e: Element, name: string): (r: Option<Element>)
    ensures r.Some? <==> Elements(e, name) != []
    ensures r.Some? ==> r.value == Elements(e, name)[0]
  {
    var es := Elements(e, name);
    if es == [] then None else Some(es[0])
  }

  /** `es.FirstOrDefault(x => x.Attribute(attr)?.Value == value)`. */
  function FirstWithAttr(es: seq<Element>, attr: string, value: string): (r: Option<Element>)
    ensures r.Some? ==> Attr(r.value, attr) == Some(value)
    decreases |es|
  {
    if es == [] then None
    else if Attr(es[0], attr) == Some(value) then Some(es[0])
    else FirstWithAttr(es[1..], attr, value)
  }

  /** The element found is the first one that matches, and none is found
      only when none matches. */
  lemma {:induction false} FirstWithAttrIsFirst(es: seq<Element>, attr: string, value: string)
    ensures FirstWithAttr(es, attr, value).None? <==> forall k :: 0 <= k < |es| ==> Attr(es[k], attr) != Some(value)
    ensures FirstWithAttr(es, attr, value).Some? ==>
      exists i :: 0 <= i < |es| && es[i] == FirstWithAttr(es, attr, value).value &&
        forall k :: 0 <= k < i ==> Attr(es[k], attr) != Some(value)
    decreases |es|
  {
    if es != [] && Attr(es[0], attr) != Some(value) {
      FirstWithAttrIsFirst(es[1..], attr, value);
      var r := FirstWithAttr(es, attr, value);
      if r.Some? {
        var i :| 0 <= i < |es[1..]| && es[1..][i] == r.value &&
          forall k :: 0 <= k < i ==> Attr(es[1..][k], attr) != Some(value);
        assert es[i + 1] == r.value;
      }
    }
  }
}
