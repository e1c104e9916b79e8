// Queries over the children of an XML element: how many element children
// have a given name, the n-th of them, and all of them in document order;
// adding an element child, adding text, and reading content and
// attributes. The tree itself is abstract: a node knows its kind, its name,
// its text and attributes, and the list of its children.

module Xml {
  import opened Errors
  import opened Text

  /** Elements are the only nodes the child queries count; text and every other kind are skipped. */
  datatype NodeKind = ElementNode | TextNode | OtherNode

  /** A child of the given name, in the sense of the queries: an element whose name is name. */
  predicate Matches(node: XmlNode, name: string)
  {
    node.kind == ElementNode && node.name == name
  }

  /** The children in cs that match name, in document order. */
  function Matching(cs: seq<XmlNode>, name: string): (r: seq<XmlNode>)
    ensures |r| <= |cs|
  {
    if |cs| == 0 then []
    else Matching(cs[..|cs| - 1], name) + (if Matches(cs[|cs| - 1], name) then [cs[|cs| - 1]] else [])
  }

  /** The text of the text nodes in cs, concatenated in document order. */
  function TextContent(cs: seq<XmlNode>): string
  {
    if |cs| == 0 then ""
    else TextContent(cs[..|cs| - 1]) + (if cs[|cs| - 1].kind == TextNode then cs[|cs| - 1].text else "")
  }

  lemma MatchingSnoc(cs: seq<XmlNode>, c: XmlNode, name: string)
    ensures Matching(cs + [c], name) == Matching(cs, name) + (if Matches(c, name) then [c] else [])
  {
    assert (cs + [c])[..|cs|] == cs;
  }

  lemma TextContentSnoc(cs: seq<XmlNode>, c: XmlNode)
    ensures TextContent(cs + [c]) == TextContent(cs) + (if c.kind == TextNode then c.text else "")
  {
    assert (cs + [c])[..|cs|] == cs;
  }

  /** The matches of two runs of children are the matches of each, in order. */
  lemma {:induction false} MatchingAppend(a: seq<XmlNode>, b: seq<XmlNode>, name: string)
    ensures Matching(a + b, name) == Matching(a, name) + Matching(b, name)
    decreases |b|
  {
    if |b| > 0 {
      var init, c := b[..|b| - 1], b[|b| - 1];
      assert b == init + [c];
      assert a + b == (a + init) + [c];
      MatchingAppend(a, init, name);
      MatchingSnoc(a + init, c, name);
      MatchingSnoc(init, c, name);
    } else {
      assert a + b == a;
    }
  }

  /** A node is among the matches exactly when it is a child that matches. */
  lemma {:induction false} MatchingMembers(cs: seq<XmlNode>, name: string, x: XmlNode)
    ensures x in Matching(cs, name) <==> x in cs && Matches(x, name)
    decreases |cs|
  {
    if |cs| > 0 {
      var init, c := cs[..|cs| - 1], cs[|cs| - 1];
      assert cs == init + [c];
      MatchingMembers(init, name, x);
    }
  }

  /** The matches found in the first k children are the first matches of all of them. */
  lemma MatchingPrefix(cs: seq<XmlNode>, k: nat, name: string)
    requires k <= |cs|
    ensures |Matching(cs[..k], name)| <= |Matching(cs, name)|
    ensures Matching(cs[..k], name) == Matching(cs, name)[..|Matching(cs[..k], name)|]
  {
    assert cs == cs[..k] + cs[k..];
    MatchingAppend(cs[..k], cs[k..], name);
  }

  /** Text and other nodes never count, whatever their name. */
  lemma OnlyElementsMatch(cs: seq<XmlNode>, c: XmlNode, name: string)
    requires c.kind != ElementNode
    ensures Matching(cs + [c], name) == Matching(cs, name)
  {
    MatchingSnoc(cs, c, name);
  }

  /** Adding an element child adds one to the count of its name and leaves every other name's count alone. */
  lemma AddedChildCounts(cs: seq<XmlNode>, c: XmlNode, name: string, other: string)
    requires c.kind == ElementNode && c.name == name && other != name
    ensures |Matching(cs + [c], name)| == |Matching(cs, name)| + 1
    ensures Matching(cs + [c], name)[|Matching(cs, name)|] == c
    ensures Matching(cs + [c], other) == Matching(cs, other)
  {
    MatchingSnoc(cs, c, name);
    MatchingSnoc(cs, c, other);
  }

  class XmlNode {
    const kind: NodeKind
    const name: string
    /** The content of a text node; empty for every other kind. */
    const text: string
    const attributes: map<string, string>
    var children: seq<XmlNode>

    /** A new element without children or attributes. */
    constructor Element(name: string)
      ensures kind == ElementNode && this.name == name && text == "" && attributes == map[] && children == []
    {
      kind := ElementNode;
      this.name := name;
      text := "";
      attributes := map[];
      children := [];
    }

    /** A new text node; the XML library names every text node "text". */
    constructor NewText(content: string)
      ensures kind == TextNode && name == "text" && text == content && attributes == map[] && children == []
    {
      kind := TextNode;
      name := "text";
      text := content;
      attributes := map[];
      children := [];
    }

    /** A node as a parsed document holds it. */
    constructor Parsed(kind: NodeKind, name: string, text: string, attributes: map<string, string>, children: seq<XmlNode>)
      ensures this.kind == kind && this.name == name && this.text == text
      ensures this.attributes == attributes && this.children == children
    {
      this.kind := kind;
      this.name := name;
      this.text := text;
      this.attributes := attributes;
      this.children := children;
    }

    /** Appends a new element child of the given name and returns it. */
    method Add(name: string) returns (child: XmlNode)
      modifies this
      ensures fresh(child)
      ensures child.kind == ElementNode && child.name == name && child.attributes == map[] && child.children == []
      ensures children == old(children) + [child]
    {
      child := new XmlNode.Element(name);
      children := children + [child];
    }

    /** Appends a text child holding content. */
    method ContentSet(content: string)
      modifies this
      ensures |children| == |old(children)| + 1 && children[..|old(children)|] == old(children)
      ensures fresh(children[|old(children)|])
      ensures children[|old(children)|].kind == TextNode && children[|old(children)|].text == content
    {
      var t := new XmlNode.NewText(content);
      children := children + [t];
      assert children[..|old(children)|] == old(children);
    }

    /** The value of an attribute; an absent attribute has none. */
    function Attribute(name: string): (r: Option<string>)
      ensures r.Some? <==> name in attributes
      ensures r.Some? ==> r.value == attributes[name]
    {
      if name in attributes then Some(attributes[name]) else None
    }

    /** Counts the element children named name. */
    method ChildTotal(name: string) returns (total: nat)
      ensures total == |Matching(children, name)|
    {
      total := 0;
      var k := 0;
      while k < |children|
        invariant 0 <= k <= |children|
        invariant total == |Matching(children[..k], name)|
      {
        assert children[..k + 1] == children[..k] + [children[k]];
        MatchingSnoc(children[..k], children[k], name);
        if children[k].kind == ElementNode && children[k].name == name {
          total := total + 1;
        }
        k := k + 1;
      }
      assert children[..k] == children;
    }

    /** The element children named name, in document order. */
    method ChildList(name: string) returns (list: seq<XmlNode>)
      ensures list == Matching(children, name)
    {
      list := [];
      var k := 0;
      while k < |children|
        invariant 0 <= k <= |children|
        invariant list == Matching(children[..k], name)
      {
        assert children[..k + 1] == children[..k] + [children[k]];
        MatchingSnoc(children[..k], children[k], name);
        if children[k].kind == ElementNode && children[k].name == name {
          list := list + [children[k]];
        }
        k := k + 1;
      }
      assert children[..k] == children;
    }

    /**
     * The element child named name with the given (0-based) index among
     * them; past the last one there is none, or a format error when the
     * caller requires it.
     */
    method ChildN(name: string, index: nat, errorOnMissing: bool) returns (r: Result<Option<XmlNode>>)
      ensures index < |Matching(children, name)| ==> r == Ok(Some(Matching(children, name)[index]))
      ensures index >= |Matching(children, name)| && !errorOnMissing ==> r == Ok(None)
      ensures index >= |Matching(children, name)| && errorOnMissing ==>
                r == Fail(Error(FormatError, "unable to find child '" + name + "':" + NatToDecimal(index) + " in node '" + this.name + "'"))
    {
      var child: Option<XmlNode> := None;
      var childIdx := 0;
      var k := 0;
      while k < |children|
        invariant 0 <= k <= |children|
        invariant childIdx == |Matching(children[..k], name)| && childIdx <= index
      {
        var c := children[k];
        assert children[..k + 1] == children[..k] + [c];
        MatchingSnoc(children[..k], c, name);
        if c.kind == ElementNode && c.name == name {
          if childIdx == index {
            MatchingPrefix(children, k + 1, name);
            child := Some(c);
            break;
          }
          childIdx := childIdx + 1;
        }
        k := k + 1;
      }
      if child == None {
        assert children[..k] == children;
      }
      if child == None && errorOnMissing {
        r := Fail(Error(FormatError, "unable to find child '" + name + "':" + NatToDecimal(index) + " in node '" + this.name + "'"));
      } else {
        r := Ok(child);
      }
    }
  }

  /**
   * The content of a node: none without a node, the text of a text node,
   * and the text of its text children for any other node.
   */
  function Content(node: XmlNode?): (r: Option<string>)
    reads node
    ensures r.None? <==> node == null
    ensures node != null && node.kind != TextNode ==> r == Some(TextContent(node.children))
  {
    if node == null then None
    else if node.kind == TextNode then Some(node.text)
    else Some(TextContent(node.children))
  }

  /** Setting content appends to the content of an element and leaves every child count alone. */
  lemma ContentSetAppends(before: seq<XmlNode>, t: XmlNode, name: string)
    requires t.kind == TextNode
    ensures TextContent(before + [t]) == TextContent(before) + t.text
    ensures Matching(before + [t], name) == Matching(before, name)
  {
    TextContentSnoc(before, t);
    OnlyElementsMatch(before, t, name);
  }

  /** The children of the listing below: which match "Contents", and their text. */
  lemma ListingChildren(first: XmlNode, prefix: XmlNode, last: XmlNode, t: XmlNode)
    requires Matches(first, "Contents") && Matches(last, "Contents") && Matches(prefix, "Prefix")
    requires t.kind == TextNode && t.text == "abc"
    ensures Matching([first, prefix, last, t], "Contents") == [first, last]
    ensures TextContent([first, prefix, last, t]) == "abc"
  {
    var a, b, c := [first], [first, prefix], [first, prefix, last];
    assert a == [] + [first] && b == a + [prefix] && c == b + [last] && [first, prefix, last, t] == c + [t];
    MatchingSnoc([], first, "Contents");
    MatchingSnoc(a, prefix, "Contents");
    MatchingSnoc(b, last, "Contents");
    MatchingSnoc(c, t, "Contents");
    TextContentSnoc([], first);
    TextContentSnoc(a, prefix);
    TextContentSnoc(b, last);
    TextContentSnoc(c, t);
  }

  /** Builds an element with two "Contents" children, a "Prefix" child and some text. */
  method Listing() returns (root: XmlNode)
    ensures |root.children| == 4 && root.children[2].name == "Contents"
    ensures Matching(root.children, "Contents") == [root.children[0], root.children[2]]
    ensures root.name == "ListBucketResult" && Content(root) == Some("abc")
  {
    root := new XmlNode.Element("ListBucketResult");
    var first := root.Add("Contents");
    var prefix := root.Add("Prefix");
    var last := root.Add("Contents");
    root.ContentSet("abc");
    assert root.children == [first, prefix, last, root.children[3]];
    ListingChildren(first, prefix, last, root.children[3]);
  }

  /**
   * On that element: two "Contents" children, index 1 is the second one,
   * index 2 is missing, and the text is the content.
   */
  method ListingQueries() returns (total: nat, second: Result<Option<XmlNode>>, missing: Result<Option<XmlNode>>,
                                   absent: Result<Option<XmlNode>>, content: Option<string>)
    ensures total == 2
    ensures second.Ok? && second.value.Some? && second.value.value.name == "Contents"
    ensures missing == Fail(Error(FormatError, "unable to find child '" + "Contents" + "':" + "2" + " in node '" + "ListBucketResult" + "'"))
    ensures absent == Ok(None)
    ensures content == Some("abc")
  {
    var root := Listing();
    total := root.ChildTotal("Contents");
    second := root.ChildN("Contents", 1, true);
    missing := root.ChildN("Contents", 2, true);
    assert NatToDecimal(2) == "2";
    absent := root.ChildN("Contents", 2, false);
    content := Content(root);
  }
}
