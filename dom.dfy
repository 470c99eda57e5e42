/**
 * The part of the DOM that the payload builder uses: elements with an
 * ordered attribute list and child nodes, text nodes, and a document whose
 * root element carries a namespace URI.  Serialisation to XML text is not
 * modelled.
 */
module Dom {
  import opened Wrappers
  import opened Sequences

  datatype Attr = Attr(name: string, value: string)

  datatype Node =
    | Element(tag: string, attrs: seq<Attr>, children: seq<Node>)
    | Text(text: string)

  datatype Document = Document(namespaceUri: string, root: Node)

  /** The attribute names of an element, in document order. */
  function Names(attrs: seq<Attr>): (r: seq<string>)
    ensures |r| == |attrs|
    ensures forall i :: 0 <= i < |attrs| ==> r[i] == attrs[i].name
  {
    if attrs == [] then [] else [attrs[0].name] + Names(attrs[1..])
  }

  /** DOM getAttribute: the value of the named attribute, None when it is not set. */
  function GetAttribute(attrs: seq<Attr>, name: string): Option<string>
  {
    if attrs == [] then None
    else if attrs[0].name == name then Some(attrs[0].value)
    else GetAttribute(attrs[1..], name)
  }

  /**
   * DOM setAttribute: an attribute already set keeps its place and takes the
   * new value; a new attribute goes after all existing ones.
   */
  function SetAttribute(attrs: seq<Attr>, name: string, value: string): (r: seq<Attr>)
    ensures GetAttribute(r, name) == Some(value)
  {
    if attrs == [] then [Attr(name, value)]
    else if attrs[0].name == name then [Attr(name, value)] + attrs[1..]
    else [attrs[0]] + SetAttribute(attrs[1..], name, value)
  }

  /** DOM appendChild on an element: the child goes last. */
  function AppendChild(parent: Node, child: Node): (r: Node)
    requires parent.Element?
    ensures r.Element? && r.tag == parent.tag && r.attrs == parent.attrs
    ensures |r.children| == |parent.children| + 1
    ensures r.children[..|parent.children|] == parent.children && r.children[|parent.children|..] == [child]
  {
    parent.(children := parent.children + [child])
  }

  /** A name already set keeps its place; a new name goes after all existing ones. */
  lemma {:induction false} SetAttributeNames(attrs: seq<Attr>, name: string, value: string)
    ensures Names(SetAttribute(attrs, name, value))
         == if name in Names(attrs) then Names(attrs) else Names(attrs) + [name]
  {
    if attrs != [] {
      assert Names(attrs) == [attrs[0].name] + Names(attrs[1..]);
      if attrs[0].name != name {
        SetAttributeNames(attrs[1..], name, value);
        assert name in Names(attrs) <==> name in Names(attrs[1..]);
      }
    }
  }

  /** Setting one attribute leaves every other attribute's value as it was. */
  lemma {:induction false} SetAttributeKeepsOthers(attrs: seq<Attr>, name: string, value: string, other: string)
    requires other != name
    ensures GetAttribute(SetAttribute(attrs, name, value), other) == GetAttribute(attrs, other)
  {
    if attrs != [] && attrs[0].name != name {
      SetAttributeKeepsOthers(attrs[1..], name, value, other);
    }
  }

  /** Setting a name that is not yet set appends exactly one attribute. */
  lemma {:induction false} SetAttributeFresh(attrs: seq<Attr>, name: string, value: string)
    requires name !in Names(attrs)
    ensures SetAttribute(attrs, name, value) == attrs + [Attr(name, value)]
  {
    if attrs != [] {
      assert attrs[0].name == Names(attrs)[0];
      assert Names(attrs[1..]) == Names(attrs)[1..];
      SetAttributeFresh(attrs[1..], name, value);
      assert attrs == [attrs[0]] + attrs[1..];
    }
  }

  /** With distinct names, getAttribute finds each attribute's own value. */
  lemma {:induction false} GetAttributeAt(attrs: seq<Attr>, i: nat)
    requires Distinct(Names(attrs)) && i < |attrs|
    ensures GetAttribute(attrs, attrs[i].name) == Some(attrs[i].value)
  {
    if i > 0 {
      assert attrs[0].name != attrs[i].name by { assert Names(attrs)[0] != Names(attrs)[i]; }
      assert Names(attrs[1..]) == Names(attrs)[1..];
      GetAttributeAt(attrs[1..], i - 1);
    }
  }

  /** getAttribute finds nothing for a name that is not set. */
  lemma {:induction false} GetAttributeAbsent(attrs: seq<Attr>, name: string)
    requires name !in Names(attrs)
    ensures GetAttribute(attrs, name) == None
  {
    if attrs != [] {
      assert attrs[0].name == Names(attrs)[0];
      assert Names(attrs[1..]) == Names(attrs)[1..];
      GetAttributeAbsent(attrs[1..], name);
    }
  }

}
