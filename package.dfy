/** The package level of the docx reader (dist/node/docx2ht.js): the
    relationships part, the styles part, the `Docx` object that holds the
    parsed parts, the pass that resolves the images and formulas of the
    document tree through an outside resolver, and `createHT`. */
module Package {
  import opened Wrappers
  import opened Js
  import opened Xml
  import opened Elem
  import opened ElemHtml
  import Numbering
  import DocxTree

  // ---------------------------------------------------------------------------
  // Relations (word/_rels/document.xml.rels)

  /** One `Relationship` element: its `Id` and `Target` attributes, empty
      when absent. */
  datatype Relation = Relation(id: string, target: string)

  function RelationOf(relElement: XNode): Relation
  {
    Relation(Attr(relElement, "Id"), Attr(relElement, "Target"))
  }

  /** One relation per `Relationship` element, in document order. */
  function RelationsIn(relElements: seq<XNode>): (rels: seq<Relation>)
    ensures |rels| == |relElements|
    ensures forall i :: 0 <= i < |rels| ==> rels[i] == RelationOf(relElements[i])
  {
    if relElements == [] then []
    else RelationsIn(relElements[..|relElements| - 1]) + [RelationOf(relElements[|relElements| - 1])]
  }

  /** `Relations.parse`: null without a relationships part. */
  function RelationsOf(relsRoot: Option<XNode>): Option<seq<Relation>>
  {
    if relsRoot.None? then None
    else Some(RelationsIn(ElementsNamed(Children(relsRoot.value), "Relationship")))
  }

  /** `Relations.parse` on the root element of the part: the `rels.push`
      loop over the `Relationship` children. */
  method ParseRelations(relsRoot: Option<XNode>) returns (relations: Option<seq<Relation>>)
    ensures relations == RelationsOf(relsRoot)
  {
    if relsRoot.None? {
      return None;
    }
    var relElements := ChildrenByTagName(relsRoot.value, "Relationship");
    var rels: seq<Relation> := [];
    for i := 0 to |relElements|
      invariant rels == RelationsIn(relElements[..i])
    {
      assert relElements[..i + 1][..i] == relElements[..i];
      rels := rels + [Relation(Attr(relElements[i], "Id"), Attr(relElements[i], "Target"))];
    }
    assert relElements[..|relElements|] == relElements;
    relations := Some(rels);
  }

  /** `Relations.getRelByRId`: the first relation whose id is exactly
      `rId`, undefined when there is none. */
  function FindRel(rels: seq<Relation>, rId: string): (r: Option<Relation>)
    ensures r.Some? ==> exists i :: 0 <= i < |rels| && rels[i] == r.value && r.value.id == rId
                                    && forall j :: 0 <= j < i ==> rels[j].id != rId
    ensures r.None? ==> forall i :: 0 <= i < |rels| ==> rels[i].id != rId
  {
    if rels == [] then None
    else if rels[0].id == rId then Some(rels[0])
    else
      var r := FindRel(rels[1..], rId);
      assert r.Some? ==> exists i :: 0 <= i < |rels| && rels[i] == r.value && r.value.id == rId
                                     && forall j :: 0 <= j < i ==> rels[j].id != rId by {
        if r.Some? {
          var i :| 0 <= i < |rels[1..]| && rels[1..][i] == r.value && r.value.id == rId
                   && forall j :: 0 <= j < i ==> rels[1..][j].id != rId;
          assert rels[i + 1] == r.value;
          assert forall j :: 0 < j < i + 1 ==> rels[j] == rels[1..][j - 1];
        }
      }
      assert r.None? ==> forall i :: 0 < i < |rels| ==> rels[i] == rels[1..][i - 1];
      r
  }

  /** Looking an id up in a parsed relationships part finds a relation iff
      some `Relationship` child carries that `Id`, and the relation found
      holds the `Target` of such a child. */
  lemma RelationLookup(relsRoot: XNode, rId: string)
    ensures FindRel(RelationsOf(Some(relsRoot)).value, rId).Some?
        <==> exists x :: x in Children(relsRoot) && IsElementNamed(x, "Relationship") && Attr(x, "Id") == rId
    ensures FindRel(RelationsOf(Some(relsRoot)).value, rId).Some? ==>
        exists x :: x in Children(relsRoot) && IsElementNamed(x, "Relationship") && Attr(x, "Id") == rId
          && FindRel(RelationsOf(Some(relsRoot)).value, rId).value.target == Attr(x, "Target")
  {
    var elems := ElementsNamed(Children(relsRoot), "Relationship");
    var rels := RelationsIn(elems);
    var r := FindRel(rels, rId);
    if r.Some? {
      var i :| 0 <= i < |rels| && rels[i] == r.value && r.value.id == rId;
      assert elems[i] in elems;
    } else {
      forall x | x in Children(relsRoot) && IsElementNamed(x, "Relationship")
        ensures Attr(x, "Id") != rId
      {
        var i :| 0 <= i < |elems| && elems[i] == x;
        assert rels[i] == RelationOf(x);
      }
    }
  }

  // ---------------------------------------------------------------------------
  // Styles (word/styles.xml)

  /** `Styles.parseParagraphStyle`: the `w:styleId`, and the `w:val` of the
      last `w:name` and `w:basedOn` children (undefined when there are
      none). */
  function ParagraphStyleOf(styleElem: XNode): ParagraphStyle
  {
    ParagraphStyle(Attr(styleElem, "w:styleId"), LastVal(Children(styleElem), "w:name"), LastVal(Children(styleElem), "w:basedOn"))
  }

  /** The loop of `Styles.parseParagraphStyle`. */
  method ParseParagraphStyle(styleElem: XNode) returns (paragraphStyle: ParagraphStyle)
    ensures paragraphStyle == ParagraphStyleOf(styleElem)
  {
    var kids := Children(styleElem);
    var name: Option<string> := None;
    var basedOn: Option<string> := None;
    for i := 0 to |kids|
      invariant name == LastVal(kids[..i], "w:name")
      invariant basedOn == LastVal(kids[..i], "w:basedOn")
    {
      LastNamedStep(kids, i, "w:name");
      LastNamedStep(kids, i, "w:basedOn");
      var childNode := kids[i];
      if childNode.Element? {
        var val := Attr(childNode, "w:val");
        if childNode.tag == "w:name" {
          name := Some(val);
        } else if childNode.tag == "w:basedOn" {
          basedOn := Some(val);
        }
      }
    }
    assert kids[..|kids|] == kids;
    paragraphStyle := ParagraphStyle(Attr(styleElem, "w:styleId"), name, basedOn);
  }

  /** The paragraph styles of the `w:style` children, in document order:
      those whose `w:type` is `paragraph`. */
  function ParagraphStylesIn(styleElems: seq<XNode>): (r: seq<ParagraphStyle>)
    ensures |r| <= |styleElems|
  {
    if styleElems == [] then []
    else
      var last := styleElems[|styleElems| - 1];
      ParagraphStylesIn(styleElems[..|styleElems| - 1])
        + (if Attr(last, "w:type") == "paragraph" then [ParagraphStyleOf(last)] else [])
  }

  /** The parsed styles part.  The character, table and numbering style
      parsers are stubs that return undefined, so their lists stay empty
      and are not kept. */
  datatype Styles = Styles(defaultFontSize: Num, paragraphStyles: seq<ParagraphStyle>)

  /** The `w:szCs` value of the default run properties, 0 when any of
      `w:rPrDefault`, its `w:rPr` or that one's `w:szCs` is missing. */
  function DefaultFontSizeOf(stylesRoot: XNode): Num
  {
    match FirstElementByTagName(stylesRoot, "w:rPrDefault")
    case None => Int(0)
    case Some(rPrDefaultElem) =>
      match FirstElementByTagName(rPrDefaultElem, "w:rPr")
      case None => Int(0)
      case Some(rPrElem) =>
        match FirstElementByTagName(rPrElem, "w:szCs")
        case None => Int(0)
        case Some(szCsElem) => ParseInt(Attr(szCsElem, "w:val"))
  }

  /** `Styles.parse`: null without a styles part. */
  function StylesOf(stylesRoot: Option<XNode>): Option<Styles>
  {
    if stylesRoot.None? then None
    else Some(Styles(DefaultFontSizeOf(stylesRoot.value),
                     ParagraphStylesIn(ElementsNamed(Children(stylesRoot.value), "w:style"))))
  }

  /** `Styles.parse` on the root element of the part. */
  method ParseStyles(stylesRoot: Option<XNode>) returns (styles: Option<Styles>)
    ensures styles == StylesOf(stylesRoot)
  {
    if stylesRoot.None? {
      return None;
    }
    var root := stylesRoot.value;
    var defaultFontSize := Int(0);
    var rPrDefaultElem := FirstElementByTagName(root, "w:rPrDefault");
    if rPrDefaultElem.Some? {
      var rPrElem := FirstElementByTagName(rPrDefaultElem.value, "w:rPr");
      if rPrElem.Some? {
        var szCsElem := FirstElementByTagName(rPrElem.value, "w:szCs");
        if szCsElem.Some? {
          defaultFontSize := ParseInt(Attr(szCsElem.value, "w:val"));
        }
      }
    }
    var styleElements := ChildrenByTagName(root, "w:style");
    var paragraphStyles: seq<ParagraphStyle> := [];
    for i := 0 to |styleElements|
      invariant paragraphStyles == ParagraphStylesIn(styleElements[..i])
    {
      assert styleElements[..i + 1][..i] == styleElements[..i];
      var styleElement := styleElements[i];
      var styleType := Attr(styleElement, "w:type");
      if styleType == "paragraph" {
        var paragraphStyle := ParseParagraphStyle(styleElement);
        paragraphStyles := paragraphStyles + [paragraphStyle];
      }
    }
    assert styleElements[..|styleElements|] == styleElements;
    styles := Some(Styles(defaultFontSize, paragraphStyles));
  }

  /** A style found among the parsed paragraph styles is the one parsed
      from a `w:style` element of type `paragraph` with that id, and only
      styles of other types, or with other ids, are missed. */
  lemma {:induction false} ParagraphStyleLookup(styleElems: seq<XNode>, id: string)
    ensures FindParagraphStyle(ParagraphStylesIn(styleElems), id).Some?
        <==> exists x :: x in styleElems && Attr(x, "w:type") == "paragraph" && Attr(x, "w:styleId") == id
    ensures FindParagraphStyle(ParagraphStylesIn(styleElems), id).Some? ==>
        exists x :: x in styleElems && Attr(x, "w:type") == "paragraph"
          && FindParagraphStyle(ParagraphStylesIn(styleElems), id).value == ParagraphStyleOf(x)
    decreases |styleElems|
  {
    if styleElems != [] {
      var init := styleElems[..|styleElems| - 1];
      var last := styleElems[|styleElems| - 1];
      assert styleElems == init + [last];
      ParagraphStyleLookup(init, id);
      var here := if Attr(last, "w:type") == "paragraph" then [ParagraphStyleOf(last)] else [];
      FindStyleAppend(ParagraphStylesIn(init), here, id);
      assert forall x :: x in styleElems <==> x in init || x == last;
    }
  }

  /** The first match in a concatenation is the first part's, if any. */
  lemma {:induction false} FindStyleAppend(a: seq<ParagraphStyle>, b: seq<ParagraphStyle>, id: string)
    ensures FindParagraphStyle(a + b, id)
      == if FindParagraphStyle(a, id).Some? then FindParagraphStyle(a, id) else FindParagraphStyle(b, id)
    decreases |a|
  {
    if a == [] {
      assert a + b == b;
    } else {
      assert (a + b)[0] == a[0];
      assert (a + b)[1..] == a[1..] + b;
      FindStyleAppend(a[1..], b, id);
    }
  }

  // ---------------------------------------------------------------------------
  // Images and formulas

  /** The outside resolver (`pConvtHelper`): the LaTeX of an embedded OLE
      formula, and the image source of a picture, given the part names, as
      pure functions. */
  datatype Resolver = Resolver(getLatex: string -> Val, getImgSrc: (string, Val) -> Val)

  /** `properties['imgRId']`, empty for components whose properties have no
      such key. */
  function ImgRIdOf(c: Comp): string
  {
    match c
    case DrawingRun(d) => d.imgRId
    case ObjectRun(o) => o.imgRId
    case _ => ""
  }

  /** The components `getDrawingAndObjects` collects. */
  predicate HasImage(c: Comp)
  {
    ImgRIdOf(c) != ""
  }

  /** The collected components of a tree, in pre-order. */
  function CollectedFrom(c: Comp): (r: seq<Comp>)
    decreases Size(c), 1
  {
    (if HasImage(c) then [c] else []) + (if IsContainer(c) then CollectedAll(c.children) else [])
  }

  function CollectedAll(cs: seq<Comp>): (r: seq<Comp>)
    decreases SizeAll(cs), 0
  {
    if cs == [] then [] else CollectedFrom(cs[0]) + CollectedAll(cs[1..])
  }

  lemma {:induction false} CollectedAllAppend(a: seq<Comp>, b: seq<Comp>)
    ensures CollectedAll(a + b) == CollectedAll(a) + CollectedAll(b)
    decreases |a|
  {
    if a == [] {
      assert a + b == b;
    } else {
      assert (a + b)[0] == a[0];
      assert (a + b)[1..] == a[1..] + b;
      CollectedAllAppend(a[1..], b);
    }
  }

  lemma CollectedAllSnoc(cs: seq<Comp>, i: nat)
    requires i < |cs|
    ensures CollectedAll(cs[..i + 1]) == CollectedAll(cs[..i]) + CollectedFrom(cs[i])
  {
    assert cs[..i + 1] == cs[..i] + [cs[i]];
    CollectedAllAppend(cs[..i], [cs[i]]);
    assert CollectedAll([cs[i]]) == CollectedFrom(cs[i]) + CollectedAll([]);
  }

  /** A child is smaller than the list it is in. */
  lemma {:induction false} SizeOfChild(cs: seq<Comp>, i: nat)
    requires i < |cs|
    ensures Size(cs[i]) < SizeAll(cs)
    decreases i
  {
    if i > 0 {
      SizeOfChild(cs[1..], i - 1);
    }
  }

  /** `getDrawingAndObjects(htElem, elems)`: pushes onto `elems`, in
      pre-order, every component whose properties carry a truthy `imgRId`. */
  method GetDrawingAndObjects(htElem: Comp, elems: seq<Comp>) returns (out: seq<Comp>)
    ensures out == elems + CollectedFrom(htElem)
    decreases Size(htElem)
  {
    var own := if HasImage(htElem) then [htElem] else [];
    out := elems + own;
    if !IsContainer(htElem) {
      assert CollectedFrom(htElem) == own + [];
      return;
    }
    var kids := htElem.children;
    assert kids[..0] == [];
    for i := 0 to |kids|
      invariant out == elems + own + CollectedAll(kids[..i])
    {
      SizeOfChild(kids, i);
      out := GetDrawingAndObjects(kids[i], out);
      CollectedAllSnoc(kids, i);
      AppendAssoc(elems + own, CollectedAll(kids[..i]), CollectedFrom(kids[i]));
    }
    assert kids[..|kids|] == kids;
    AppendAssoc(elems, own, CollectedAll(kids));
  }

  lemma AppendAssoc<T>(a: seq<T>, b: seq<T>, c: seq<T>)
    ensures a + b + c == a + (b + c)
  {
  }

  /** `rel && rel.Target` for the relation of `rId`: the target, when the
      package has a relationships part, the part has the id, and its target
      is not empty. */
  function TargetOf(relations: Option<seq<Relation>>, rId: string): (t: Option<string>)
    ensures t.Some? ==> t.value != ""
  {
    if relations.None? then None
    else
      match FindRel(relations.value, rId)
      case None => None
      case Some(rel) => if rel.target != "" then Some(rel.target) else None
  }

  /** `dealDrawingOrObject` on a drawing: the image source of its picture
      part. */
  function DealDrawing(d: DrawingPr, relations: Option<seq<Relation>>, res: Resolver): (r: DrawingPr)
    ensures r.(imgSrc := d.imgSrc) == d
  {
    if d.imgRId != "" && TargetOf(relations, d.imgRId).Some? then
      d.(imgSrc := res.getImgSrc("word/" + TargetOf(relations, d.imgRId).value, Undefined))
    else d
  }

  /** The OLE half of `dealDrawingOrObject` on an object: the LaTeX of its
      formula part, and a null image source when there is LaTeX (the SVG
      rendering is commented out in the source, so `svg` stays null). */
  function DealOle(o: ObjectPr, relations: Option<seq<Relation>>, res: Resolver): (r: ObjectPr)
    ensures r.(imgSrc := o.imgSrc, latex := o.latex) == o
  {
    if o.oleRId != "" && TargetOf(relations, o.oleRId).Some? then
      var latex := res.getLatex("word/" + TargetOf(relations, o.oleRId).value);
      o.(imgSrc := if latex.Truthy() then Null else o.imgSrc, latex := latex)
    else o
  }

  /** `dealDrawingOrObject` on an object: the OLE half, then the image
      source of its preview picture (`!svg` always holds). */
  function DealObject(o: ObjectPr, relations: Option<seq<Relation>>, res: Resolver): (r: ObjectPr)
    ensures r.(imgSrc := o.imgSrc, latex := o.latex) == o
  {
    var o1 := DealOle(o, relations, res);
    if o1.imgRId != "" && TargetOf(relations, o1.imgRId).Some? then
      o1.(imgSrc := res.getImgSrc("word/" + TargetOf(relations, o1.imgRId).value, Str(o.oleRId)))
    else o1
  }

  /** `dealDrawingOrObject`: only the `imgSrc` and `latex` properties of a
      drawing or an object change; other components have neither id. */
  function Deal(c: Comp, relations: Option<seq<Relation>>, res: Resolver): (r: Comp)
    ensures ImgRIdOf(r) == ImgRIdOf(c)
    ensures c.DrawingRun? ==> r.DrawingRun? && r.drawingPr.(imgSrc := c.drawingPr.imgSrc) == c.drawingPr
    ensures c.ObjectRun? ==> r.ObjectRun? && r.objectPr.(imgSrc := c.objectPr.imgSrc, latex := c.objectPr.latex) == c.objectPr
    ensures !c.DrawingRun? && !c.ObjectRun? ==> r == c
  {
    match c
    case DrawingRun(d) => DrawingRun(DealDrawing(d, relations, res))
    case ObjectRun(o) => ObjectRun(DealObject(o, relations, res))
    case _ => c
  }

  /** `dealDrawingOrObject(htElem, docx, pConvtHelper)`, writing into a
      copy of the component's properties. */
  method DealDrawingOrObject(htElem: Comp, relations: Option<seq<Relation>>, res: Resolver) returns (r: Comp)
    ensures r == Deal(htElem, relations, res)
  {
    r := htElem;
    if htElem.DrawingRun? {
      var properties := htElem.drawingPr;
      var imgRId := properties.imgRId;
      if imgRId != "" {
        var target := TargetOf(relations, imgRId);
        if target.Some? {
          var imgName := "word/" + target.value;
          properties := properties.(imgSrc := res.getImgSrc(imgName, Undefined));
        }
      }
      r := DrawingRun(properties);
    } else if htElem.ObjectRun? {
      var properties := htElem.objectPr;
      var imgRId := properties.imgRId;
      var oleRId := properties.oleRId;
      if oleRId != "" {
        var target := TargetOf(relations, oleRId);
        if target.Some? {
          var oleName := "word/" + target.value;
          var latex := res.getLatex(oleName);
          if latex.Truthy() {
            properties := properties.(imgSrc := Null);
          }
          properties := properties.(latex := latex);
        }
      }
      if imgRId != "" {
        var target := TargetOf(relations, imgRId);
        if target.Some? {
          var imgName := "word/" + target.value;
          properties := properties.(imgSrc := res.getImgSrc(imgName, Str(oleRId)));
        }
      }
      r := ObjectRun(properties);
    }
  }

  /** The tree after `createHT` has dealt with every collected component. */
  function Resolved(c: Comp, relations: Option<seq<Relation>>, res: Resolver): (r: Comp)
    ensures ImgRIdOf(r) == ImgRIdOf(c)
    ensures IsContainer(r) == IsContainer(c)
    decreases Size(c), 1
  {
    if HasImage(c) then Deal(c, relations, res)
    else if IsContainer(c) then c.(children := ResolvedAll(c.children, relations, res))
    else c
  }

  function ResolvedAll(cs: seq<Comp>, relations: Option<seq<Relation>>, res: Resolver): (r: seq<Comp>)
    ensures |r| == |cs|
    decreases SizeAll(cs), 0
  {
    if cs == [] then [] else [Resolved(cs[0], relations, res)] + ResolvedAll(cs[1..], relations, res)
  }

  /** The tree `createHT` renders: resolved when there is a resolver, as it
      is otherwise. */
  function Prepared(c: Comp, relations: Option<seq<Relation>>, res: Option<Resolver>): Comp
  {
    if res.Some? then Resolved(c, relations, res.value) else c
  }

  /** Each collected component dealt with, in order. */
  function DealtAll(elems: seq<Comp>, relations: Option<seq<Relation>>, res: Resolver): (r: seq<Comp>)
    ensures |r| == |elems|
    ensures forall i :: 0 <= i < |elems| ==> r[i] == Deal(elems[i], relations, res)
  {
    if elems == [] then [] else DealtAll(elems[..|elems| - 1], relations, res) + [Deal(elems[|elems| - 1], relations, res)]
  }

  /** The loop of `createHT`: each collected component is dealt with, none
      when there is no resolver. */
  method DealAll(elems: seq<Comp>, relations: Option<seq<Relation>>, res: Option<Resolver>) returns (dealt: seq<Comp>)
    ensures res.None? ==> dealt == elems
    ensures res.Some? ==> dealt == DealtAll(elems, relations, res.value)
  {
    if res.None? {
      return elems;
    }
    dealt := [];
    for i := 0 to |elems|
      invariant dealt == DealtAll(elems[..i], relations, res.value)
    {
      assert elems[..i + 1][..i] == elems[..i];
      var htElem := DealDrawingOrObject(elems[i], relations, res.value);
      dealt := dealt + [htElem];
    }
    assert elems[..|elems|] == elems;
  }

  /** Dealing with a concatenation deals with each part. */
  lemma {:induction false} DealtAllAppend(a: seq<Comp>, b: seq<Comp>, relations: Option<seq<Relation>>, res: Resolver)
    ensures DealtAll(a + b, relations, res) == DealtAll(a, relations, res) + DealtAll(b, relations, res)
    decreases |b|
  {
    if b == [] {
      assert a + b == a;
    } else {
      var b' := b[..|b| - 1];
      assert (a + b)[..|a + b| - 1] == a + b';
      assert (a + b)[|a + b| - 1] == b[|b| - 1];
      DealtAllAppend(a, b', relations, res);
      AppendAssoc(DealtAll(a, relations, res), DealtAll(b', relations, res), [Deal(b[|b| - 1], relations, res)]);
    }
  }

  /** The resolved tree holds, in the same pre-order places, exactly the
      collected components, each dealt with once: resolving touches the
      components `getDrawingAndObjects` collects and no others. */
  lemma {:induction false} ResolvedCollected(c: Comp, relations: Option<seq<Relation>>, res: Resolver)
    ensures CollectedFrom(Resolved(c, relations, res)) == DealtAll(CollectedFrom(c), relations, res)
    decreases Size(c), 1
  {
    if HasImage(c) {
      LeafCollected(c, relations, res);
    } else if IsContainer(c) {
      ResolvedChildren(c, relations, res);
      ContainerCollected(c);
      ContainerCollected(Resolved(c, relations, res));
      ResolvedAllCollected(c.children, relations, res);
    } else {
      assert CollectedFrom(c) == [];
    }
  }

  lemma LeafCollected(c: Comp, relations: Option<seq<Relation>>, res: Resolver)
    requires HasImage(c)
    ensures CollectedFrom(Resolved(c, relations, res)) == DealtAll(CollectedFrom(c), relations, res)
  {
    var d := Deal(c, relations, res);
    assert !IsContainer(c) && !IsContainer(d);
    assert CollectedFrom(d) == [d] + [];
    assert CollectedFrom(c) == [c] + [];
  }

  lemma ResolvedChildren(c: Comp, relations: Option<seq<Relation>>, res: Resolver)
    requires IsContainer(c) && !HasImage(c)
    ensures IsContainer(Resolved(c, relations, res)) && !HasImage(Resolved(c, relations, res))
    ensures Resolved(c, relations, res).children == ResolvedAll(c.children, relations, res)
  {
  }

  lemma ContainerCollected(c: Comp)
    requires IsContainer(c) && !HasImage(c)
    ensures CollectedFrom(c) == CollectedAll(c.children)
  {
    assert CollectedFrom(c) == [] + CollectedAll(c.children);
  }

  lemma {:induction false} ResolvedAllCollected(cs: seq<Comp>, relations: Option<seq<Relation>>, res: Resolver)
    ensures CollectedAll(ResolvedAll(cs, relations, res)) == DealtAll(CollectedAll(cs), relations, res)
    decreases SizeAll(cs), 0
  {
    if cs != [] {
      var rs := ResolvedAll(cs, relations, res);
      assert rs[0] == Resolved(cs[0], relations, res) && rs[1..] == ResolvedAll(cs[1..], relations, res);
      ResolvedCollected(cs[0], relations, res);
      ResolvedAllCollected(cs[1..], relations, res);
      DealtAllAppend(CollectedFrom(cs[0]), CollectedAll(cs[1..]), relations, res);
    }
  }

  /** A tree with nothing to collect is left as it is. */
  lemma {:induction false} NothingCollectedUnchanged(c: Comp, relations: Option<seq<Relation>>, res: Resolver)
    requires CollectedFrom(c) == []
    ensures Resolved(c, relations, res) == c
    decreases Size(c), 1
  {
    if IsContainer(c) {
      NothingCollectedUnchangedAll(c.children, relations, res);
    }
  }

  lemma {:induction false} NothingCollectedUnchangedAll(cs: seq<Comp>, relations: Option<seq<Relation>>, res: Resolver)
    requires CollectedAll(cs) == []
    ensures ResolvedAll(cs, relations, res) == cs
    decreases SizeAll(cs), 0
  {
    if cs != [] {
      NothingCollectedUnchanged(cs[0], relations, res);
      NothingCollectedUnchangedAll(cs[1..], relations, res);
    }
  }

  /** A drawing gets the image source the resolver gives for
      `'word/' + Target`, and stays as it is when its relation is
      missing. */
  lemma DrawingResolution(d: DrawingPr, relations: Option<seq<Relation>>, res: Resolver)
    requires d.imgRId != ""
    ensures TargetOf(relations, d.imgRId).Some? ==>
      Deal(DrawingRun(d), relations, res).drawingPr.imgSrc
        == res.getImgSrc("word/" + TargetOf(relations, d.imgRId).value, Undefined)
    ensures TargetOf(relations, d.imgRId).None? ==> Deal(DrawingRun(d), relations, res) == DrawingRun(d)
  {
  }

  /** An object gets the LaTeX of its OLE part and the image source of its
      preview picture, each through `'word/' + Target`.  A truthy LaTeX nulls
      the image source only when the picture's relation is missing, since the
      picture's source is written after it. */
  lemma ObjectResolution(o: ObjectPr, relations: Option<seq<Relation>>, res: Resolver)
    requires o.imgRId != ""
    ensures o.oleRId != "" && TargetOf(relations, o.oleRId).Some? ==>
      Deal(ObjectRun(o), relations, res).objectPr.latex == res.getLatex("word/" + TargetOf(relations, o.oleRId).value)
    ensures !(o.oleRId != "" && TargetOf(relations, o.oleRId).Some?) ==>
      Deal(ObjectRun(o), relations, res).objectPr.latex == o.latex
    ensures TargetOf(relations, o.imgRId).Some? ==>
      Deal(ObjectRun(o), relations, res).objectPr.imgSrc
        == res.getImgSrc("word/" + TargetOf(relations, o.imgRId).value, Str(o.oleRId))
    ensures TargetOf(relations, o.imgRId).None? && o.oleRId != "" && TargetOf(relations, o.oleRId).Some?
            && res.getLatex("word/" + TargetOf(relations, o.oleRId).value).Truthy() ==>
      Deal(ObjectRun(o), relations, res).objectPr.imgSrc == Null
    ensures TargetOf(relations, o.imgRId).None? && (o.oleRId == "" || TargetOf(relations, o.oleRId).None?) ==>
      Deal(ObjectRun(o), relations, res) == ObjectRun(o)
  {
  }

  // ---------------------------------------------------------------------------
  // The Docx object

  /** `Docx`: the parsed parts of a package, each absent (null) when the
      package lacks it.  The numbering counters change while the document
      is rendered, and `createHT` writes the resolved images and formulas
      into the document tree. */
  class Docx {
    const relations: Option<seq<Relation>>
    const numbering: Numbering.Numbering?
    const styles: Option<Styles>
    var document: Option<Comp>

    constructor (relations: Option<seq<Relation>>, numbering: Numbering.Numbering?, styles: Option<Styles>, document: Option<Comp>)
      ensures this.relations == relations && this.numbering == numbering
      ensures this.styles == styles && this.document == document
    {
      this.relations := relations;
      this.numbering := numbering;
      this.styles := styles;
      this.document := document;
    }

    /** `Docx.getRelByRId`: the first relation with that id; none without a
        relationships part. */
    function GetRelByRId(rId: string): (r: Option<Relation>)
      ensures r.Some? ==> relations.Some? && r.value in relations.value && r.value.id == rId
      ensures r.None? ==> relations.None? || forall rel :: rel in relations.value ==> rel.id != rId
    {
      if relations.None? then None else FindRel(relations.value, rId)
    }

    /** `Docx.getParagraphStyle`: the first paragraph style with that id;
        none without a styles part. */
    function GetParagraphStyle(styleId: string): (r: Option<ParagraphStyle>)
      ensures r.Some? ==> styles.Some? && r.value in styles.value.paragraphStyles && r.value.id == styleId
      ensures r.Some? ==> FirstWith(styles.value.paragraphStyles, r.value, StyleIdIs(styleId))
      ensures r.None? ==> styles.None? || forall s :: s in styles.value.paragraphStyles ==> s.id != styleId
    {
      if styles.None? then None else FindParagraphStyle(styles.value.paragraphStyles, styleId)
    }

    /** What rendering reads from this object. */
    function View(): DocxView
      reads numbering
    {
      DocxView(if styles.None? then None else Some(styles.value.paragraphStyles),
               if numbering == null then None else Some(numbering.nums))
    }

    /** The counters of the lists numbered so far; none without a numbering
        part. */
    function Counters(): Numbering.Counters
      reads numbering
    {
      if numbering == null then map[] else numbering.numbering
    }

    /** `Docx.setNumLevel`: null, and nothing changes, without a numbering
        part; otherwise one step of the numbering's counters, the one the
        renderer's pure walk takes. */
    method SetNumLevel(numId: Option<string>, ilvl: Option<string>) returns (r: Try<Option<Numbering.NumObj>>)
      modifies numbering
      ensures numbering != null ==> numbering.nums == old(numbering.nums)
      ensures Numbering.Outcome(r, Counters()) == ElemHtml.SetNumLevel(View(), old(Counters()), numId, ilvl)
    {
      if numbering == null {
        return Ok(None);
      }
      r := numbering.SetNumLevel(numId, ilvl);
    }

    /** `createHT`: nothing without a document; otherwise the collected
        drawings and objects are resolved in the tree (left as they are
        without a resolver) and the tree is rendered, advancing the list
        counters.  The markup is returned as a tree, not as text; the
        document keeps the rowspan marks rendering writes into its tables. */
    method CreateHT(res: Option<Resolver>) returns (r: Try<Option<HtNode>>)
      modifies this, numbering
      ensures numbering != null ==> numbering.nums == old(numbering.nums)
      ensures old(document).None? ==> document == old(document) && r == Ok(None)
      ensures old(document).Some? ==>
        (r.Throws? <==> ToHt(Prepared(old(document).value, relations, res), View(), old(Counters())).Throws?)
      ensures old(document).Some? && r.Throws? ==> document == Some(Prepared(old(document).value, relations, res))
      ensures old(document).Some? && r.Ok? ==>
        document == Some(Marked(Prepared(old(document).value, relations, res))) &&
        r.value == ToHt(Prepared(old(document).value, relations, res), View(), old(Counters())).value.0
      ensures old(document).Some? && r.Ok? && numbering != null ==>
        numbering.numbering == ToHt(Prepared(old(document).value, relations, res), View(), old(Counters())).value.1
    {
      if document.None? {
        return Ok(None);
      }
      var doc := document.value;
      var elems := GetDrawingAndObjects(doc, []);
      var dealt := DealAll(elems, relations, res);
      if res.Some? {
        ResolvedCollected(doc, relations, res.value);
        doc := Resolved(doc, relations, res.value);
        assert CollectedFrom(doc) == dealt;
      }
      document := Some(doc);
      var out := ToHt(doc, View(), Counters());
      if out.Throws? {
        return Throws;
      }
      document := Some(Marked(doc));
      if numbering != null {
        numbering.numbering := out.value.1;
      }
      r := Ok(out.value.0);
    }
  }

  /** `parseDocx` on the root elements of the parts (none for a missing
      part): relations, numbering, styles, then the document, whose parse
      may throw. */
  method ParseDocx(relsRoot: Option<XNode>, numberingRoot: Option<XNode>, stylesRoot: Option<XNode>, documentRoot: Option<XNode>)
    returns (r: Try<Docx>)
    ensures r.Throws? <==> DocxTree.DocumentOf(documentRoot).Throws?
    ensures r.Ok? ==> fresh(r.value) && r.value.relations == RelationsOf(relsRoot) && r.value.styles == StylesOf(stylesRoot)
    ensures r.Ok? ==> Ok(r.value.document) == DocxTree.DocumentOf(documentRoot)
    ensures r.Ok? ==> (r.value.numbering == null <==> numberingRoot.None?)
    ensures r.Ok? && r.value.numbering != null ==> fresh(r.value.numbering) && r.value.numbering.numbering == map[]
    ensures r.Ok? && r.value.numbering != null ==> r.value.numbering.nums == Numbering.Resolved(
      Numbering.NumDefsOf(ElementsNamed(Children(numberingRoot.value), "w:num")),
      Numbering.AbstractNumsOf(ElementsNamed(Children(numberingRoot.value), "w:abstractNum")))
  {
    var relations := ParseRelations(relsRoot);
    var numbering: Numbering.Numbering? := null;
    if numberingRoot.Some? {
      numbering := new Numbering.Numbering(numberingRoot.value);
    }
    var styles := ParseStyles(stylesRoot);
    var document := DocxTree.ParseDocument(documentRoot);
    if document.Throws? {
      return Throws;
    }
    var docx := new Docx(relations, numbering, styles, document.value);
    r := Ok(docx);
  }
}
