/** The part of System.Xml.Linq the extractor reads replies through: an element with a
    name, attributes, its own text and child elements, and the axis functions
    XDocument.Element, XElement.Element, XElement.Elements, XElement.Attribute and
    XElement.Value. Parsing the reply text into a tree is not modelled: replies are trees. */
module Xml {
  import opened Wrappers

  datatype Attribute = Attribute(name: string, value: string)

  datatype Element = Element(name: string, attributes: seq<Attribute>, text: string, children: seq<Element>)

  datatype Document = Document(root: Element)

  /** XElement.Value: the element's text followed by the text of its descendants in
      document order. */
  function Value(e: Element): string
    decreases e, 1
  {
    e.text + ValueOfAll(e.children)
  }

  function ValueOfAll(cs: seq<Element>): string
    decreases cs, 0
  {
    if cs == [] then "" else Value(cs[0]) + ValueOfAll(cs[1..])
  }

  /** The elements of `xs` called `name`, in document order. */
  function Named(xs: seq<Element>, name: string): (r: seq<Element>)
    ensures |r| <= |xs|
    ensures forall i :: 0 <= i < |r| ==> r[i].name == name && r[i] in xs
    ensures r == [] <==> forall i :: 0 <= i < |xs| ==> xs[i].name != name
  {
    if xs == [] then []
    else if xs[0].name == name then [xs[0]] + Named(xs[1..], name)
    else Named(xs[1..], name)
  }

  /** Filtering a concatenation filters each part. */
  lemma {:induction false} NamedConcat(xs: seq<Element>, ys: seq<Element>, name: string)
    ensures Named(xs + ys, name) == Named(xs, name) + Named(ys, name)
  {
    if xs == [] {
      assert xs + ys == ys;
    } else {
      assert (xs + ys)[1..] == xs[1..] + ys;
      NamedConcat(xs[1..], ys, name);
    }
  }

  /** A list whose elements all carry the name is kept whole, in order. */
  lemma {:induction false} NamedAll(xs: seq<Element>, name: string)
    requires forall i :: 0 <= i < |xs| ==> xs[i].name == name
    ensures Named(xs, name) == xs
  {
    if xs != [] {
      NamedAll(xs[1..], name);
      assert [xs[0]] + xs[1..] == xs;
    }
  }

  /** The one element of a list carrying the name is all that the filter keeps. */
  lemma {:induction false} NamedOnly(xs: seq<Element>, name: string, k: nat)
    requires k < |xs| && xs[k].name == name
    requires forall i :: 0 <= i < |xs| && i != k ==> xs[i].name != name
    ensures Named(xs, name) == [xs[k]]
  {
    if k == 0 {
      assert Named(xs[1..], name) == [];
    } else {
      NamedOnly(xs[1..], name, k - 1);
    }
  }

  /** XElement.Elements(name). */
  function Children(e: Element, name: string): seq<Element> {
    Named(e.children, name)
  }

  /** XElement.Element(name): the first child with that name, or null. */
  function Child(e: Element, name: string): (r: Option<Element>)
    ensures r.None? <==> Children(e, name) == []
    ensures r.Some? ==> r.value == Children(e, name)[0] && r.value.name == name
  {
    var named := Children(e, name);
    if named == [] then None else Some(named[0])
  }

  /** XElement.Attribute(name).Value, or null when the attribute is absent. */
  function AttributeValue(e: Element, name: string): (r: Option<string>)
    ensures r.None? <==> forall i :: 0 <= i < |e.attributes| ==> e.attributes[i].name != name
    ensures r.Some? ==> exists i :: 0 <= i < |e.attributes| && e.attributes[i] == Attribute(name, r.value)
  {
    FirstAttribute(e.attributes, name)
  }

  function FirstAttribute(attrs: seq<Attribute>, name: string): (r: Option<string>)
    ensures r.None? <==> forall i :: 0 <= i < |attrs| ==> attrs[i].name != name
    ensures r.Some? ==> exists i :: 0 <= i < |attrs| && attrs[i] == Attribute(name, r.value)
  {
    if attrs == [] then None
    else if attrs[0].name == name then Some(attrs[0].value)
    else
      var r := FirstAttribute(attrs[1..], name);
      assert r.Some? ==> exists i :: 0 <= i < |attrs[1..]| && attrs[1..][i] == Attribute(name, r.value);
      r
  }

  /** XDocument.Element(name): the root element when it carries that name. */
  function Root(d: Document, name: string): (r: Option<Element>)
    ensures r.Some? <==> d.root.name == name
    ensures r.Some? ==> r.value == d.root
  {
    if d.root.name == name then Some(d.root) else None
  }

  /** An element holding nothing but text, as `<Name>Foo</Name>`. */
  function Leaf(name: string, text: string): (e: Element)
    ensures e.name == name && Value(e) == text && e.children == []
  {
    Element(name, [], text, [])
  }
}
