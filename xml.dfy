/** The parsed XML the converter reads, as an abstract tree, and the two
    lookups it walks that tree with.  Parsing the XML text is not modelled:
    the tree is the input. */
module Xml {
  import opened Wrappers

  /** A DOM node: an element with its attributes in document order and its
      child nodes, a text node (character data, CDATA included), or any other
      node (a comment or a processing instruction) that carries no text. */
  datatype XNode =
    | Element(tag: string, attrs: seq<(string, string)>, children: seq<XNode>)
    | Text(data: string)
    | Other(data: string)

  /** `getAttribute(name)`: the value of the first attribute of that name, the
      empty string when there is none (what the DOM implementation returns). */
  function GetAttribute(attrs: seq<(string, string)>, name: string): (v: string)
    ensures v != "" ==> exists i :: 0 <= i < |attrs| && attrs[i] == (name, v)
  {
    if attrs == [] then ""
    else if attrs[0].0 == name then attrs[0].1
    else GetAttribute(attrs[1..], name)
  }

  /** `hasAttribute(name)`. */
  predicate HasAttribute(attrs: seq<(string, string)>, name: string)
  {
    exists i :: 0 <= i < |attrs| && attrs[i].0 == name
  }

  function Attr(n: XNode, name: string): string
  {
    if n.Element? then GetAttribute(n.attrs, name) else ""
  }

  /** The child nodes of an element; other nodes have none. */
  function Children(n: XNode): seq<XNode>
  {
    if n.Element? then n.children else []
  }

  /** `textContent`: the character data of a node and of all its descendants
      in document order; comments and processing instructions contribute
      nothing. */
  function TextContent(n: XNode): string
    decreases n, 1
  {
    match n
    case Element(_, _, kids) => TextOfAll(kids)
    case Text(d) => d
    case Other(_) => ""
  }

  function TextOfAll(kids: seq<XNode>): string
    decreases kids, 0
  {
    if kids == [] then "" else TextOfAll(kids[..|kids| - 1]) + TextContent(kids[|kids| - 1])
  }

  /** An element the walkers look at: `nodeType === 1` with that tag name. */
  predicate IsElementNamed(n: XNode, tag: string)
  {
    n.Element? && n.tag == tag
  }

  // ---------------------------------------------------------------------------
  // getChildrenByTagName

  /** The element children with the tag, in document order. */
  function ElementsNamed(kids: seq<XNode>, tag: string): (r: seq<XNode>)
    ensures |r| <= |kids|
    ensures forall x :: x in r <==> x in kids && IsElementNamed(x, tag)
  {
    if kids == [] then []
    else
      var init := ElementsNamed(kids[..|kids| - 1], tag);
      assert kids == kids[..|kids| - 1] + [kids[|kids| - 1]];
      if IsElementNamed(kids[|kids| - 1], tag) then init + [kids[|kids| - 1]] else init
  }

  /** Filtering a concatenation filters each part. */
  lemma {:induction false} ElementsNamedAppend(a: seq<XNode>, b: seq<XNode>, tag: string)
    ensures ElementsNamed(a + b, tag) == ElementsNamed(a, tag) + ElementsNamed(b, tag)
    decreases |b|
  {
    if b == [] {
      assert a + b == a;
    } else {
      var b' := b[..|b| - 1];
      assert (a + b)[..|a + b| - 1] == a + b';
      assert (a + b)[|a + b| - 1] == b[|b| - 1];
      ElementsNamedAppend(a, b', tag);
    }
  }

  /** `getChildrenByTagName(parent, tagName)`: the loop over `childNodes`
      keeping the element children with that tag name. */
  method ChildrenByTagName(parent: XNode, tag: string) returns (matched: seq<XNode>)
    ensures matched == ElementsNamed(Children(parent), tag)
  {
    matched := [];
    if !parent.Element? {
      return;
    }
    var kids := parent.children;
    for i := 0 to |kids|
      invariant matched == ElementsNamed(kids[..i], tag)
    {
      assert kids[..i + 1][..i] == kids[..i];
      var childNode := kids[i];
      if IsElementNamed(childNode, tag) {
        matched := matched + [childNode];
      }
    }
    assert kids[..|kids|] == kids;
  }

  // ---------------------------------------------------------------------------
  // firstElementByTagName

  /** `firstElementByTagName(parent, tagName)`: for each element child in
      turn, the child itself if it has the tag, else the first match inside
      it; `None` (null) when nothing matches.  The parent itself is never a
      match. */
  function FirstElementByTagName(parent: XNode, tag: string): Option<XNode>
  {
    if parent.Element? then FirstIn(parent.children, tag) else None
  }

  function FirstIn(kids: seq<XNode>, tag: string): Option<XNode>
    decreases kids
  {
    if kids == [] then None
    else
      var c := kids[0];
      if !c.Element? then FirstIn(kids[1..], tag)
      else if c.tag == tag then Some(c)
      else
        match FirstIn(c.children, tag)
        case Some(e) => Some(e)
        case None => FirstIn(kids[1..], tag)
  }

  /** The elements below a list of siblings in pre-order (document order):
      each element child, then the elements inside it. */
  function PreOrder(kids: seq<XNode>): seq<XNode>
    decreases kids
  {
    if kids == [] then []
    else
      var c := kids[0];
      (if c.Element? then [c] + PreOrder(c.children) else []) + PreOrder(kids[1..])
  }

  /** The first element of a list with the tag. */
  function FirstNamed(xs: seq<XNode>, tag: string): (r: Option<XNode>)
    ensures r.Some? ==> IsElementNamed(r.value, tag) && r.value in xs
    ensures r.None? ==> forall x :: x in xs ==> !IsElementNamed(x, tag)
  {
    if xs == [] then None
    else if IsElementNamed(xs[0], tag) then Some(xs[0])
    else FirstNamed(xs[1..], tag)
  }

  lemma {:induction false} FirstNamedAppend(a: seq<XNode>, b: seq<XNode>, tag: string)
    ensures FirstNamed(a + b, tag) == if FirstNamed(a, tag).Some? then FirstNamed(a, tag) else FirstNamed(b, tag)
  {
    if a != [] {
      assert (a + b)[1..] == a[1..] + b;
      FirstNamedAppend(a[1..], b, tag);
    } else {
      assert a + b == b;
    }
  }

  /** The search is the first element with the tag in document order, which
      is every element below the parent in pre-order. */
  lemma {:induction false} FirstInIsPreOrder(kids: seq<XNode>, tag: string)
    ensures FirstIn(kids, tag) == FirstNamed(PreOrder(kids), tag)
    decreases kids
  {
    if kids != [] {
      var c := kids[0];
      FirstInIsPreOrder(kids[1..], tag);
      if c.Element? {
        FirstInIsPreOrder(c.children, tag);
        FirstNamedAppend([c] + PreOrder(c.children), PreOrder(kids[1..]), tag);
        FirstNamedAppend([c], PreOrder(c.children), tag);
      } else {
        assert [] + PreOrder(kids[1..]) == PreOrder(kids[1..]);
      }
    }
  }

  /** `firstElementByTagName` finds the first element with the tag, in
      document order, strictly below the parent. */
  lemma FirstElementIsPreOrder(parent: XNode, tag: string)
    requires parent.Element?
    ensures FirstElementByTagName(parent, tag) == FirstNamed(PreOrder(parent.children), tag)
  {
    FirstInIsPreOrder(parent.children, tag);
  }

  // ---------------------------------------------------------------------------
  // The last child with a tag

  /** The last element child with the tag: the one whose value a loop of
      `switch (childNode.tagName)` assignments leaves in place. */
  function LastNamed(kids: seq<XNode>, tag: string): (r: Option<XNode>)
    ensures r.Some? ==> IsElementNamed(r.value, tag) && r.value in kids
    ensures r.None? ==> forall x :: x in kids ==> !IsElementNamed(x, tag)
  {
    if kids == [] then None
    else if IsElementNamed(kids[|kids| - 1], tag) then Some(kids[|kids| - 1])
    else
      assert kids == kids[..|kids| - 1] + [kids[|kids| - 1]];
      LastNamed(kids[..|kids| - 1], tag)
  }

  /** One more child: it is the last with the tag if it has the tag. */
  lemma LastNamedStep(kids: seq<XNode>, i: nat, tag: string)
    requires i < |kids|
    ensures LastNamed(kids[..i + 1], tag)
      == if IsElementNamed(kids[i], tag) then Some(kids[i]) else LastNamed(kids[..i], tag)
  {
    assert kids[..i + 1][..i] == kids[..i];
  }

  /** The `w:val` attribute of the last element child with the tag. */
  function LastVal(kids: seq<XNode>, tag: string): Option<string>
  {
    match LastNamed(kids, tag)
    case Some(e) => Some(Attr(e, "w:val"))
    case None => None
  }
}
