/** The `toHTElem` methods of `src/elem.js`: each component of the
    simplified tree becomes an element of the HTML output, or nothing.  The
    output document is a value; the numbering counters the paragraphs
    advance through `Docx.setNumLevel` are threaded through the walk. */
module ElemHtml {
  import opened Wrappers
  import opened Js
  import opened Elem
  import Numbering
  import Xml

  /** A node of the HTML output: an element with its attributes in the order
      they are set, or a text node. */
  datatype HtNode = HElem(tag: string, attrs: seq<(string, string)>, children: seq<HtNode>) | HText(text: string)

  /** A paragraph style of styles.xml. */
  datatype ParagraphStyle = ParagraphStyle(id: string, name: Option<string>, basedOn: Option<string>)

  /** What the walk reads from the `Docx`: its paragraph styles and its
      numbering definitions, each absent when the package has no such part. */
  datatype DocxView = DocxView(styles: Option<seq<ParagraphStyle>>, nums: Option<seq<Numbering.NumDef>>)

  /** The key `_.find(this.paragraphStyles, {id: styleId})` matches on. */
  function StyleIdIs(id: string): ParagraphStyle -> bool
  {
    (s: ParagraphStyle) => s.id == id
  }

  /** `Styles.getParagraphStyle`: the first style with that id. */
  function FindParagraphStyle(styles: seq<ParagraphStyle>, id: string): (r: Option<ParagraphStyle>)
    ensures r.Some? ==> r.value in styles && r.value.id == id
    ensures r.Some? ==> FirstWith(styles, r.value, StyleIdIs(id))
    ensures r.None? ==> forall s :: s in styles ==> s.id != id
  {
    if styles == [] then None
    else if styles[0].id == id then assert FirstWith(styles, styles[0], StyleIdIs(id)) by { assert styles[0] == styles[0]; } Some(styles[0])
    else
      var r := FindParagraphStyle(styles[1..], id);
      if r.Some? then FirstWithTail(styles, r.value, StyleIdIs(id)); r else r
  }

  /** `Docx.getParagraphStyle`: null without a styles part. */
  function GetParagraphStyle(v: DocxView, id: string): Option<ParagraphStyle>
  {
    if v.styles.None? then None else FindParagraphStyle(v.styles.value, id)
  }

  /** `Docx.setNumLevel`: null, counters untouched, without a numbering
      part. */
  function SetNumLevel(v: DocxView, c: Numbering.Counters, numId: Option<string>, ilvl: Option<string>): Numbering.Outcome
  {
    if v.nums.None? then Numbering.Outcome(Ok(None), c) else Numbering.Step(v.nums.value, c, numId, ilvl)
  }

  /** The `style` attribute, set only when the style string is not empty. */
  function StyleAttr(st: StyleMap): seq<(string, string)>
  {
    if Obj2StyleString(st) != "" then [("style", Obj2StyleString(st))] else []
  }

  function PxText(n: Num): string
  {
    NumText(n) + "px"
  }

  const NbspNbsp: string := "\U{00A0}\U{00A0}"

  // ---------------------------------------------------------------------------
  // Paragraph

  /** `PStyleName2Tag[name] || 'p'`. */
  function HeadingTag(name: string): (tag: string)
    ensures tag == "p" || (|tag| == 2 && tag[0] == 'h' && '1' <= tag[1] <= '6' && name == "heading " + [tag[1]])
    ensures tag == "p" <==> !(|name| == 9 && name[..8] == "heading " && '1' <= name[8] <= '6')
  {
    if |name| == 9 && name[..8] == "heading " && '1' <= name[8] <= '6' then
      assert name == name[..8] + [name[8]];
      "h" + [name[8]]
    else "p"
  }

  /** The tag of a paragraph: the heading level its style names, else `p`. */
  function ParagraphTag(pPr: Option<ParagraphPr>, v: DocxView): string
  {
    if pPr.Some? && Filled(pPr.value.styleId) then
      match GetParagraphStyle(v, pPr.value.styleId.value)
      case Some(style) => if Filled(style.name) then HeadingTag(style.name.value) else "p"
      case None => "p"
    else "p"
  }

  function SetIf(st: StyleMap, cond: bool, k: string, v: string): StyleMap
  {
    if cond then SetStyle(st, k, v) else st
  }

  function IndentStyles(st: StyleMap, ident: IndentPr): (r: StyleMap)
    ensures StyleGet(r, "line-height") == StyleGet(st, "line-height")
  {
    var s1 := SetIf(st, ident.firstLine.Truthy(), "text-indent", PxText(Dxa2PxNum(ident.firstLine)));
    var s2 := SetIf(s1, ident.left.Truthy(), "margin-left", PxText(Dxa2PxNum(ident.left)));
    SetIf(s2, ident.right.Truthy(), "margin-right", PxText(Dxa2PxNum(ident.right)))
  }

  function SpacingStyles(st: StyleMap, spacing: SpacingPr): (r: StyleMap)
    ensures StyleGet(r, "line-height")
      == if spacing.line.Truthy() then Some(PxText(Dxa2PxNum(spacing.line))) else StyleGet(st, "line-height")
  {
    var s1 := SetIf(st, spacing.before.Truthy(), "margin-top", PxText(Dxa2PxNum(spacing.before)));
    var s2 := SetIf(s1, spacing.after.Truthy(), "margin-bottom", PxText(Dxa2PxNum(spacing.after)));
    SetIf(s2, spacing.line.Truthy(), "line-height", PxText(Dxa2PxNum(spacing.line)))
  }

  /** The padding and the borders of a bordered paragraph. */
  function BorderStage(st: StyleMap, border: Option<PBorderPr>): Try<StyleMap>
  {
    if border.Some? then SetPBorderStyle(SetStyle(st, "padding", "5px"), border.value) else Ok(st)
  }

  /** The spacing, the default line height, the alignment. */
  function SpacingStage(st: StyleMap, p: ParagraphPr): (r: StyleMap)
    ensures StyleGet(r, "line-height")
      == if p.spacing.Some? && p.spacing.value.line.Truthy() then Some(PxText(Dxa2PxNum(p.spacing.value.line)))
         else if StyleGet(st, "line-height").Some? then StyleGet(st, "line-height") else Some("1.8")
  {
    var s1 := if p.spacing.Some? then SpacingStyles(st, p.spacing.value) else st;
    var s2 := if StyleGet(s1, "line-height").None? then SetStyle(s1, "line-height", "1.8") else s1;
    SetIf(s2, Filled(p.textAlign), "text-align", if p.textAlign.Some? then p.textAlign.value else "")
  }

  /** The paragraph's style dictionary: indentation, border (which may
      throw), spacing, the default line height, alignment. */
  function ParagraphStyles(pPr: Option<ParagraphPr>): (r: Try<StyleMap>)
    ensures r.Throws? <==> pPr.Some? && pPr.value.border.Some? && pPr.value.border.value.top.Some?
                           && (pPr.value.border.value.bottom.None? || pPr.value.border.value.left.None?)
  {
    if pPr.None? then Ok(SetStyle([], "line-height", "1.8"))
    else
      var p := pPr.value;
      var s1 := if p.ident.Some? then IndentStyles([], p.ident.value) else [];
      var s2 :- BorderStage(s1, p.border);
      Ok(SpacingStage(s2, p))
  }

  /** The number in front of a numbered paragraph: a span with its text,
      then two non-breaking spaces; nothing when `setNumLevel` returns
      null. */
  function NumberPrefix(pPr: Option<ParagraphPr>, v: DocxView, c: Numbering.Counters): (r: Try<(seq<HtNode>, Numbering.Counters)>)
    ensures r.Ok? ==> r.value.0 == [] || (|r.value.0| == 2 && r.value.0[1] == HText(NbspNbsp))
  {
    if pPr.None? || pPr.value.numPr.None? then Ok(([], c))
    else
      var numPr := pPr.value.numPr.value;
      var o := SetNumLevel(v, c, numPr.numId, numPr.level);
      match o.obj
      case Throws => Throws
      case Ok(None) => Ok(([], o.counters))
      case Ok(Some(numObj)) =>
        var numStyle := SetStyle(SetStyle([], "padding-left", PxText(Dxa2PxNum(OrNaN(numObj.indentLeft)))), "text-align", "right");
        Ok(([HElem("span", [("style", Obj2StyleString(numStyle))], [HText(numObj.text)]), HText(NbspNbsp)], o.counters))
  }

  // ---------------------------------------------------------------------------
  // Runs

  /** A run's style dictionary: its border, its background, its font, then
      the emphasis of its text. */
  function RunStyles(p: RunPr): StyleMap
  {
    TextStyles(FontStyles(Background(if p.border.Some? then SetBorderStyle([], p.border.value, "") else [], p), p), p.textPr)
  }

  function Background(st: StyleMap, p: RunPr): StyleMap
  {
    if Filled(p.highlight) then SetStyle(st, "background-color", p.highlight.value)
    else if Filled(p.shdFillColor) then SetStyle(st, "background-color", "#" + p.shdFillColor.value)
    else st
  }

  function FontStyles(st: StyleMap, p: RunPr): StyleMap
  {
    var s1 := SetIf(st, Filled(p.fontName), "font-family", if p.fontName.Some? then p.fontName.value else "");
    var s2 := SetIf(s1, NonZero(p.fontSize), "font-size", DecimalString(FontSz2Px(OrNaN(p.fontSize))) + "px");
    SetIf(s2, Filled(p.textColor), "color", if p.textColor.Some? then "#" + p.textColor.value else "")
  }

  function TextStyles(st: StyleMap, t: TextPr): StyleMap
  {
    SetIf(SetIf(SetIf(st, t.bold, "font-weight", "800"), t.italics, "font-style", "italic"), t.underline, "text-decoration", "underline")
  }

  /** The element a run's content goes into, inside its span. */
  function RunWrapper(rPr: Option<RunPr>): Option<string>
  {
    if rPr.None? then None
    else if rPr.value.textPr.vertAlign == Some("superscript") then Some("sup")
    else if rPr.value.textPr.vertAlign == Some("subscript") then Some("sub")
    else None
  }

  function RunHt(rPr: Option<RunPr>, content: seq<HtNode>): HtNode
  {
    var st := if rPr.Some? then RunStyles(rPr.value) else [];
    match RunWrapper(rPr)
    case Some(w) => HElem("span", StyleAttr(st), [HElem(w, [], content)])
    case None => HElem("span", StyleAttr(st), content)
  }

  /** `SPCharRun.toHTElem`: a tab is two non-breaking spaces, a break a
      `br`, anything else nothing. */
  function SPCharHt(spChar: string): Option<HtNode>
  {
    if spChar == "tab" then Some(HText(NbspNbsp))
    else if spChar == "br" then Some(HElem("br", [], []))
    else None
  }

  /** The style of an image: floating right when the drawing floats,
      aligned to the text otherwise. */
  function ImageStyle(floats: bool): (st: StyleMap)
    ensures Obj2StyleString(st) == if floats then "float:right;" else "vertical-align:middle;"
  {
    if floats then SetStyle([], "float", "right") else SetStyle([], "vertical-align", "middle")
  }

  function DrawingHt(d: DrawingPr): HtNode
  {
    HElem("img",
      [("src", d.imgSrc.Text())]
      + (if Filled(d.title) then [("alt", d.title.value)] else [])
      + (if NonZero(d.cx) then [("width", NumText(Emu2PxNum(d.cx.value)))] else [])
      + (if NonZero(d.cy) then [("height", NumText(Emu2PxNum(d.cy.value)))] else [])
      + [("data-rid", d.imgRId)]
      + StyleAttr(ImageStyle(d.floatPr.Some?)),
      [])
  }

  /** `ObjectRun.toHTElem` looks for a `floatPr` its properties never have. */
  function ObjectHt(o: ObjectPr): HtNode
  {
    HElem("img",
      [("src", o.imgSrc.Text())]
      + (if o.latex.Truthy() then [("alt", o.latex.s)] else [])
      + [("data-rid", o.imgRId)]
      + StyleAttr(ImageStyle(false)),
      [])
  }

  // ---------------------------------------------------------------------------
  // Tables

  function TableAttrs(tblPr: Option<TablePr>): seq<(string, string)>
  {
    var p := if tblPr.Some? then tblPr.value else TablePr(None, None, None, None, None, None, None);
    var cellPadding :=
      if p.cellMargin.None? then None
      else if NonZero(p.cellMargin.value.top) then p.cellMargin.value.top
      else p.cellMargin.value.bottom;
    var st1 := SetStyle([], "border-collapse", "collapse");
    var st2 := SetIf(st1, p.alignment == Some("center"), "margin", "auto");
    var st3 := if p.floatPr.Some? then SetStyle(SetStyle(st2, "float", "right"), "margin-top", "30px") else st2;
    (if NonZero(p.width) then [("width", NumText(Dxa2PxNum(p.width.value)))] else [])
    + [("border", "1")]
    + (if NonZero(cellPadding) then [("cellpadding", PxText(Dxa2PxNum(cellPadding.value)))] else [])
    + StyleAttr(st3)
  }

  function TableRowTag(trPr: Option<TableRowPr>): string
  {
    if trPr.Some? && trPr.value.tblHeader then "th" else "tr"
  }

  function TableRowStyles(trPr: Option<TableRowPr>): (st: StyleMap)
    ensures StyleGet(st, "vertical-align") == Some("top")
    ensures StyleGet(st, "height").Some? <==> trPr.Some? && NonZero(trPr.value.height)
    ensures StyleAttr(st) != []
  {
    var st := if trPr.Some? && NonZero(trPr.value.height) then SetStyle([], "height", PxText(Dxa2PxNum(trPr.value.height.value))) else [];
    SetStyle(st, "vertical-align", "top")
  }

  /** The attributes of a cell's `td`; none for a cell that continues a
      vertical merge, which renders as nothing. */
  function TableCellAttrs(tcPr: Option<TableCellPr>): (r: Option<seq<(string, string)>>)
    ensures r.None? <==> tcPr.Some? && tcPr.value.vMerge == Some("continue")
    ensures r.Some? ==> (Xml.HasAttribute(r.value, "colspan") <==> tcPr.Some? && NonZero(tcPr.value.gridSpan))
    ensures r.Some? ==> (Xml.HasAttribute(r.value, "rowspan")
                         <==> tcPr.Some? && tcPr.value.rowSpan.Some? && tcPr.value.rowSpan.value != 0)
  {
    var p := if tcPr.Some? then tcPr.value else TableCellPr(None, None, None, None, None);
    if p.vMerge == Some("continue") then None
    else
      var colspan := if NonZero(p.gridSpan) then [("colspan", NumText(p.gridSpan.value))] else [];
      var rowspan := if p.rowSpan.Some? && p.rowSpan.value != 0 then [("rowspan", DecimalString(p.rowSpan.value))] else [];
      var style := StyleAttr(TableCellStyles(p));
      assert "style"[0] == 's' && "colspan"[0] == 'c' && "rowspan"[0] == 'r';
      assert colspan != [] ==> colspan[0].0 == "colspan";
      assert rowspan != [] ==> rowspan[0].0 == "rowspan";
      assert style != [] ==> style[0].0 == "style";
      assert |colspan| <= 1 && |rowspan| <= 1 && |style| <= 1;
      HasAttributeAppend(colspan, rowspan + style, "colspan");
      HasAttributeAppend(rowspan, style, "colspan");
      HasAttributeAppend(colspan, rowspan + style, "rowspan");
      HasAttributeAppend(rowspan, style, "rowspan");
      Some(colspan + (rowspan + style))
  }

  function TableCellStyles(p: TableCellPr): StyleMap
  {
    var st := SetIf([], NonZero(p.width), "width", if p.width.Some? then PxText(Dxa2PxNum(p.width.value)) else "");
    SetIf(st, Filled(p.vAlign), "vertical-align",
          if p.vAlign == Some("center") then "middle" else if p.vAlign.Some? then p.vAlign.value else "")
  }

  lemma HasAttributeAppend(a: seq<(string, string)>, b: seq<(string, string)>, name: string)
    ensures Xml.HasAttribute(a + b, name) <==> Xml.HasAttribute(a, name) || Xml.HasAttribute(b, name)
  {
    if Xml.HasAttribute(a + b, name) {
      var i :| 0 <= i < |a + b| && (a + b)[i].0 == name;
      if i >= |a| {
        assert b[i - |a|].0 == name;
      }
    }
    if Xml.HasAttribute(a, name) {
      var i :| 0 <= i < |a| && a[i].0 == name;
      assert (a + b)[i].0 == name;
    }
    if Xml.HasAttribute(b, name) {
      var i :| 0 <= i < |b| && b[i].0 == name;
      assert (a + b)[|a| + i].0 == name;
    }
  }

  // ---------------------------------------------------------------------------
  // The walk

  /** `toHTElem` of a component: its HTML node (none for a merged cell or a
      placeholder), and the numbering counters after it. */
  function ToHt(c: Comp, v: DocxView, counters: Numbering.Counters): Try<(Option<HtNode>, Numbering.Counters)>
    decreases Size(c), 1
  {
    match c
    case Document(kids) =>
      var r :- ToHtAll(kids, v, counters);
      Ok((Some(HElem("html", [], r.0)), r.1))
    case Body(kids) =>
      var r :- ToHtAll(kids, v, counters);
      Ok((Some(HElem("body", [], r.0)), r.1))
    case Paragraph(pPr, kids) =>
      var st :- ParagraphStyles(pPr);
      var prefix :- NumberPrefix(pPr, v, counters);
      var body :- if kids == [] then Ok(([HElem("span", [], [])], prefix.1)) else ToHtAll(kids, v, prefix.1);
      Ok((Some(HElem(ParagraphTag(pPr, v), StyleAttr(st), prefix.0 + body.0)), body.1))
    case Run(rPr, kids) =>
      var r :- ToHtAll(kids, v, counters);
      Ok((Some(RunHt(rPr, r.0)), r.1))
    case TextRun(t) => Ok((Some(HText(t)), counters))
    case SPCharRun(sp) => Ok((SPCharHt(sp), counters))
    case DrawingRun(d) => Ok((Some(DrawingHt(d)), counters))
    case ObjectRun(o) => Ok((Some(ObjectHt(o)), counters))
    case HyperLink(kids) =>
      var r :- ToHtAll(kids, v, counters);
      Ok((Some(HElem("a", [], r.0)), r.1))
    case OMath(_) => Ok((Some(HElem("math", [], [])), counters))
    case Table(tblPr, kids) =>
      RowSpannedSize(kids);
      var r :- ToHtAll(RowSpanned(kids), v, counters);
      Ok((Some(HElem("table", TableAttrs(tblPr), r.0)), r.1))
    case TableRow(trPr, kids) =>
      var r :- ToHtAll(kids, v, counters);
      Ok((Some(HElem(TableRowTag(trPr), StyleAttr(TableRowStyles(trPr)), r.0)), r.1))
    case TableCell(tcPr, kids) =>
      if TableCellAttrs(tcPr).None? then Ok((None, counters))
      else
        var r :- ToHtAll(kids, v, counters);
        Ok((Some(HElem("td", TableCellAttrs(tcPr).value, r.0)), r.1))
    case Placeholder => Ok((None, counters))
  }

  /** `buildChildren`: the children's nodes in order, skipping the ones
      that render as nothing. */
  function ToHtAll(cs: seq<Comp>, v: DocxView, counters: Numbering.Counters): Try<(seq<HtNode>, Numbering.Counters)>
    decreases SizeAll(cs), 0
  {
    if cs == [] then Ok(([], counters))
    else
      var h :- ToHt(cs[0], v, counters);
      var t :- ToHtAll(cs[1..], v, h.1);
      Ok(((if h.0.Some? then [h.0.value] else []) + t.0, t.1))
  }

  /** The tree as `toHTElem` leaves it once it has rendered: every table it
      reaches has had its rows through the rowspan pass, which writes
      `rowSpan` into the cells (src/elem.js:712-755). A cell that continues
      a merge is never rendered, so the tables inside it keep their marks
      unset. The pass rewrites the tree in place: it has as many components
      as before. */
  function Marked(c: Comp): (r: Comp)
    ensures Size(r) == Size(c)
    decreases Size(c), 1
  {
    match c
    case Table(tblPr, kids) =>
      RowSpannedSize(kids);
      Table(tblPr, MarkedAll(RowSpanned(kids)))
    case TableCell(tcPr, kids) =>
      if TableCellAttrs(tcPr).None? then c else TableCell(tcPr, MarkedAll(kids))
    case Document(kids) => Document(MarkedAll(kids))
    case Body(kids) => Body(MarkedAll(kids))
    case Paragraph(pPr, kids) => Paragraph(pPr, MarkedAll(kids))
    case Run(rPr, kids) => Run(rPr, MarkedAll(kids))
    case HyperLink(kids) => HyperLink(MarkedAll(kids))
    case TableRow(trPr, kids) => TableRow(trPr, MarkedAll(kids))
    case _ => c
  }

  /** `Marked` over a list of siblings, in order. */
  function MarkedAll(cs: seq<Comp>): (r: seq<Comp>)
    ensures |r| == |cs| && SizeAll(r) == SizeAll(cs)
    decreases SizeAll(cs), 0
  {
    if cs == [] then [] else [Marked(cs[0])] + MarkedAll(cs[1..])
  }

  /** No table anywhere in the tree. */
  predicate TableFree(c: Comp)
    decreases Size(c), 1
  {
    !c.Table? && (IsContainer(c) ==> TableFreeAll(c.children))
  }

  predicate TableFreeAll(cs: seq<Comp>)
    decreases SizeAll(cs), 0
  {
    cs == [] || (TableFree(cs[0]) && TableFreeAll(cs[1..]))
  }

  /** The rowspan marks are the only thing rendering writes into the tree:
      a tree without tables comes out of it as it went in. */
  lemma {:induction false} MarkedTableFree(c: Comp)
    requires TableFree(c)
    ensures Marked(c) == c
    decreases Size(c), 1
  {
    if IsContainer(c) {
      MarkedAllTableFree(c.children);
    }
  }

  lemma {:induction false} MarkedAllTableFree(cs: seq<Comp>)
    requires TableFreeAll(cs)
    ensures MarkedAll(cs) == cs
    decreases SizeAll(cs), 0
  {
    if cs != [] {
      MarkedTableFree(cs[0]);
      MarkedAllTableFree(cs[1..]);
    }
  }

  // ---------------------------------------------------------------------------
  // Properties of the output

  /** A border only writes properties named `border...`. */
  lemma BorderKeepsOthers(st: StyleMap, b: BorderPr, which: string, k: string)
    requires |k| >= 2 && (k[0] != 'b' || k[1] != 'o')
    ensures StyleGet(SetBorderStyle(st, b, which), k) == StyleGet(st, k)
  {
    var sk, wk, ck := BorderKey(which, "style"), BorderKey(which, "width"), BorderKey(which, "color");
    assert sk[1] == 'o' && wk[1] == 'o' && ck[1] == 'o';
    assert "border-width"[1] == 'o';
    AssignmentsKeepOthers(st, sk, b.style, wk, if b.width.Truthy() then Some(EighthsText(b.width.value) + "px") else None,
      ck, if b.color != "" then Some("#" + b.color) else None, k);
  }

  lemma AssignmentsKeepOthers(st: StyleMap, styleKey: string, style: string, widthKey: string, width: Option<string>,
                              colorKey: string, color: Option<string>, k: string)
    requires k != styleKey && k != widthKey && k != colorKey && k != "border-width"
    ensures StyleGet(BorderAssignments(st, styleKey, style, widthKey, width, colorKey, color), k) == StyleGet(st, k)
  {
  }

  lemma PBorderKeepsOthers(st: StyleMap, p: PBorderPr, k: string)
    requires |k| >= 2 && (k[0] != 'b' || k[1] != 'o')
    requires SetPBorderStyle(st, p).Ok?
    ensures StyleGet(SetPBorderStyle(st, p).value, k) == StyleGet(st, k)
  {
    if p.top.Some? {
      var s1 := SetBorderStyle(st, p.top.value, "top");
      var s2 := SetBorderStyle(s1, p.bottom.value, "bottom");
      var s3 := SetBorderStyle(s2, p.left.value, "left");
      BorderKeepsOthers(st, p.top.value, "top", k);
      BorderKeepsOthers(s1, p.bottom.value, "bottom", k);
      BorderKeepsOthers(s2, p.left.value, "left", k);
      if p.right.Some? {
        BorderKeepsOthers(s3, p.right.value, "right", k);
      }
    } else if p.right.Some? {
      BorderKeepsOthers(st, p.right.value, "right", k);
    }
  }

  /** Every paragraph has a line height: the spacing's line in pixels when
      it is set, else 1.8. */
  lemma ParagraphLineHeight(pPr: Option<ParagraphPr>)
    requires ParagraphStyles(pPr).Ok?
    ensures StyleGet(ParagraphStyles(pPr).value, "line-height")
      == if pPr.Some? && pPr.value.spacing.Some? && pPr.value.spacing.value.line.Truthy()
         then Some(PxText(Dxa2PxNum(pPr.value.spacing.value.line))) else Some("1.8")
  {
    if pPr.Some? {
      var p := pPr.value;
      var s1 := if p.ident.Some? then IndentStyles([], p.ident.value) else [];
      assert StyleGet(s1, "line-height").None?;
      if p.border.Some? {
        PBorderKeepsOthers(SetStyle(s1, "padding", "5px"), p.border.value, "line-height");
      }
      assert StyleGet(BorderStage(s1, p.border).value, "line-height").None?;
    }
  }

  /** Every paragraph carries a `style` attribute and nothing else, and
      its children start with its number. */
  lemma ParagraphStyled(pPr: Option<ParagraphPr>, kids: seq<Comp>, v: DocxView, c: Numbering.Counters)
    requires ToHt(Paragraph(pPr, kids), v, c).Ok?
    ensures var r := ToHt(Paragraph(pPr, kids), v, c).value.0;
      && r.Some? && r.value.HElem? && r.value.tag == ParagraphTag(pPr, v)
      && |r.value.attrs| == 1 && r.value.attrs[0].0 == "style" && r.value.attrs[0].1 != ""
      && NumberPrefix(pPr, v, c).Ok?
      && r.value.children[..|NumberPrefix(pPr, v, c).value.0|] == NumberPrefix(pPr, v, c).value.0
  {
    ParagraphLineHeight(pPr);
  }

  /** A paragraph without children still holds an empty span, after its
      number when it has one. */
  lemma EmptyParagraphSpan(pPr: Option<ParagraphPr>, v: DocxView, c: Numbering.Counters)
    requires ToHt(Paragraph(pPr, []), v, c).Ok?
    ensures var r := ToHt(Paragraph(pPr, []), v, c).value.0.value;
      && r.HElem? && (|r.children| == 1 || |r.children| == 3)
      && r.children[|r.children| - 1] == HElem("span", [], [])
  {
  }

  /** A numbered paragraph's prefix is the number `setNumLevel` gives, in
      its own span, then two non-breaking spaces, and the counters advance
      as `setNumLevel` advances them. */
  lemma NumberedPrefix(pPr: ParagraphPr, v: DocxView, c: Numbering.Counters, numObj: Numbering.NumObj)
    requires pPr.numPr.Some?
    requires SetNumLevel(v, c, pPr.numPr.value.numId, pPr.numPr.value.level).obj == Ok(Some(numObj))
    ensures var r := NumberPrefix(Some(pPr), v, c);
      && r.Ok? && |r.value.0| == 2
      && r.value.0[0].HElem? && r.value.0[0].tag == "span" && r.value.0[0].children == [HText(numObj.text)]
      && r.value.1 == SetNumLevel(v, c, pPr.numPr.value.numId, pPr.numPr.value.level).counters
  {
  }

  /** A paragraph without a number, or whose level `setNumLevel` does not
      know, has no prefix. */
  lemma UnnumberedPrefix(pPr: Option<ParagraphPr>, v: DocxView, c: Numbering.Counters)
    requires pPr.None? || pPr.value.numPr.None?
      || SetNumLevel(v, c, pPr.value.numPr.value.numId, pPr.value.numPr.value.level).obj == Ok(None)
    ensures var r := NumberPrefix(pPr, v, c);
      && r.Ok? && r.value.0 == []
      && r.value.1 == if pPr.None? || pPr.value.numPr.None? then c
                      else SetNumLevel(v, c, pPr.value.numPr.value.numId, pPr.value.numPr.value.level).counters
  {
  }

  /** Components render to at most one node each. */
  lemma {:induction false} ToHtAllLength(cs: seq<Comp>, v: DocxView, c: Numbering.Counters)
    requires ToHtAll(cs, v, c).Ok?
    ensures |ToHtAll(cs, v, c).value.0| <= |cs|
    decreases |cs|
  {
    if cs != [] {
      var h := ToHt(cs[0], v, c).value;
      ToHtAllLength(cs[1..], v, h.1);
    }
  }

  /** `buildChildren` over two lists of siblings: the nodes of the first,
      then those of the second, with the counters the first leaves. */
  lemma {:induction false} ToHtAllAppend(a: seq<Comp>, b: seq<Comp>, v: DocxView, c: Numbering.Counters)
    ensures ToHtAll(a + b, v, c) ==
      match ToHtAll(a, v, c)
      case Throws => Throws
      case Ok(ra) =>
        match ToHtAll(b, v, ra.1)
        case Throws => Throws
        case Ok(rb) => Ok((ra.0 + rb.0, rb.1))
    decreases |a|
  {
    if a == [] {
      assert a + b == b;
      match ToHtAll(b, v, c)
      case Throws =>
      case Ok(rb) => assert [] + rb.0 == rb.0;
    } else {
      assert (a + b)[0] == a[0];
      assert (a + b)[1..] == a[1..] + b;
      match ToHt(a[0], v, c)
      case Throws =>
      case Ok(h) =>
        ToHtAllAppend(a[1..], b, v, h.1);
        var head := if h.0.Some? then [h.0.value] else [];
        match ToHtAll(a[1..], v, h.1)
        case Throws =>
        case Ok(ra) =>
          match ToHtAll(b, v, ra.1)
          case Throws =>
          case Ok(rb) => assert head + (ra.0 + rb.0) == (head + ra.0) + rb.0;
    }
  }

  /** Without a numbering part the counters are never touched. */
  lemma {:induction false} NoNumberingKeepsCounters(x: Comp, styles: Option<seq<ParagraphStyle>>, c: Numbering.Counters)
    requires ToHt(x, DocxView(styles, None), c).Ok?
    ensures ToHt(x, DocxView(styles, None), c).value.1 == c
    decreases Size(x), 1
  {
    match x
    case Document(kids) => NoNumberingKeepsCountersAll(kids, styles, c);
    case Body(kids) => NoNumberingKeepsCountersAll(kids, styles, c);
    case Paragraph(pPr, kids) => NoNumberingParagraph(pPr, kids, styles, c);
    case Run(_, kids) => NoNumberingKeepsCountersAll(kids, styles, c);
    case HyperLink(kids) => NoNumberingKeepsCountersAll(kids, styles, c);
    case Table(_, kids) =>
      RowSpannedSize(kids);
      NoNumberingKeepsCountersAll(RowSpanned(kids), styles, c);
    case TableRow(_, kids) => NoNumberingKeepsCountersAll(kids, styles, c);
    case TableCell(tcPr, kids) =>
      if TableCellAttrs(tcPr).Some? {
        NoNumberingKeepsCountersAll(kids, styles, c);
      }
    case _ =>
  }

  lemma {:induction false} NoNumberingParagraph(pPr: Option<ParagraphPr>, kids: seq<Comp>, styles: Option<seq<ParagraphStyle>>, c: Numbering.Counters)
    requires ToHt(Paragraph(pPr, kids), DocxView(styles, None), c).Ok?
    ensures ToHt(Paragraph(pPr, kids), DocxView(styles, None), c).value.1 == c
    decreases Size(Paragraph(pPr, kids)), 0
  {
    if kids != [] {
      NoNumberingKeepsCountersAll(kids, styles, c);
    }
  }

  lemma {:induction false} NoNumberingKeepsCountersAll(cs: seq<Comp>, styles: Option<seq<ParagraphStyle>>, c: Numbering.Counters)
    requires ToHtAll(cs, DocxView(styles, None), c).Ok?
    ensures ToHtAll(cs, DocxView(styles, None), c).value.1 == c
    decreases SizeAll(cs), 0
  {
    if cs != [] {
      NoNumberingKeepsCounters(cs[0], styles, c);
      NoNumberingKeepsCountersAll(cs[1..], styles, c);
    }
  }

  /** A cell that continues a vertical merge renders as nothing and reads
      no counters. */
  lemma MergedCellHidden(p: TableCellPr, kids: seq<Comp>, v: DocxView, c: Numbering.Counters)
    requires p.vMerge == Some("continue")
    ensures ToHt(TableCell(Some(p), kids), v, c) == Ok((None, c))
  {
  }

  /** Any other cell renders as a `td`, with `colspan` exactly when its
      grid span is set and `rowspan` exactly when the rowspan pass set one. */
  lemma CellRendersTd(tcPr: Option<TableCellPr>, kids: seq<Comp>, v: DocxView, c: Numbering.Counters)
    requires tcPr.None? || tcPr.value.vMerge != Some("continue")
    requires ToHtAll(kids, v, c).Ok?
    ensures ToHt(TableCell(tcPr, kids), v, c).Ok?
    ensures var r := ToHt(TableCell(tcPr, kids), v, c).value.0;
      && r.Some? && r.value.HElem? && r.value.tag == "td"
      && (Xml.HasAttribute(r.value.attrs, "colspan") <==> tcPr.Some? && NonZero(tcPr.value.gridSpan))
  {
  }

  /** A table renders the same whether or not its rows already went through
      the rowspan pass. */
  lemma TableRenderStable(tblPr: Option<TablePr>, rows: seq<Comp>, v: DocxView, c: Numbering.Counters)
    ensures ToHt(Table(tblPr, RowSpanned(rows)), v, c) == ToHt(Table(tblPr, rows), v, c)
  {
    RowSpannedIdempotent(rows);
  }

  /** Every table has `border="1"`; a table row is a `th` exactly for a
      header row. */
  lemma TableShape(tblPr: Option<TablePr>, trPr: Option<TableRowPr>)
    ensures ("border", "1") in TableAttrs(tblPr)
    ensures TableRowTag(trPr) == "th" <==> trPr.Some? && trPr.value.tblHeader
  {
  }

  /** An image floats right exactly when its drawing floats; it always
      carries its relationship id. */
  lemma DrawingImage(d: DrawingPr)
    ensures var r := DrawingHt(d);
      && r.tag == "img" && r.attrs[0] == ("src", d.imgSrc.Text())
      && ("data-rid", d.imgRId) in r.attrs
      && r.attrs[|r.attrs| - 1] == ("style", if d.floatPr.Some? then "float:right;" else "vertical-align:middle;")
  {
  }

  /** An embedded object's image never floats, and its alternative text is
      the LaTeX source when there is one. */
  lemma ObjectImage(o: ObjectPr)
    ensures var r := ObjectHt(o);
      && r.attrs[|r.attrs| - 1] == ("style", "vertical-align:middle;")
      && (o.latex.Truthy() <==> ("alt", o.latex.Text()) in r.attrs)
  {
    var r := ObjectHt(o);
    if !o.latex.Truthy() {
      assert r.attrs == [("src", o.imgSrc.Text()), ("data-rid", o.imgRId), ("style", "vertical-align:middle;")];
    }
  }

  /** `styles[k] = v` under a condition, read back at any property. */
  lemma SetIfGet(st: StyleMap, cond: bool, key: string, v: string, k: string)
    ensures StyleGet(SetIf(st, cond, key, v), k) == if cond && k == key then Some(v) else StyleGet(st, k)
  {
  }

  /** The property a run sets itself, by name, over what was there before:
      a reference for the run's styles one property at a time. */
  function RunOwnStyle(p: RunPr, k: string, before: Option<string>): Option<string>
  {
    if k == "background-color" && Filled(p.highlight) then p.highlight
    else if k == "background-color" && Filled(p.shdFillColor) then Some("#" + p.shdFillColor.value)
    else if k == "font-family" && Filled(p.fontName) then p.fontName
    else if k == "font-size" && NonZero(p.fontSize) then Some(DecimalString(FontSz2Px(p.fontSize.value)) + "px")
    else if k == "color" && Filled(p.textColor) then Some("#" + p.textColor.value)
    else if k == "font-weight" && p.textPr.bold then Some("800")
    else if k == "font-style" && p.textPr.italics then Some("italic")
    else if k == "text-decoration" && p.textPr.underline then Some("underline")
    else before
  }

  /** What the run's border sets, by name. */
  function RunBorderStyle(p: RunPr, k: string): Option<string>
  {
    if p.border.Some? then StyleGet(SetBorderStyle([], p.border.value, ""), k) else None
  }

  /** Characters that tell the run's property names apart. */
  lemma RunKeyChars()
    ensures "background-color"[0] == 'b' && "color"[0] == 'c' && "text-decoration"[0] == 't'
    ensures "font-family"[0] == 'f' && "font-size"[0] == 'f' && "font-weight"[0] == 'f' && "font-style"[0] == 'f'
    ensures "font-family"[5] == 'f' && "font-size"[5] == 's' && "font-weight"[5] == 'w' && "font-style"[5] == 's'
    ensures "font-size"[6] == 'i' && "font-style"[6] == 't'
  {
  }

  lemma RunKeysDistinct()
    ensures "background-color" != "font-family" && "background-color" != "font-size" && "background-color" != "color"
    ensures "background-color" != "font-weight" && "background-color" != "font-style" && "background-color" != "text-decoration"
    ensures "font-family" != "font-size" && "font-family" != "color" && "font-family" != "font-weight"
    ensures "font-family" != "font-style" && "font-family" != "text-decoration" && "font-size" != "color"
    ensures "font-size" != "font-weight" && "font-size" != "font-style" && "font-size" != "text-decoration"
    ensures "color" != "font-weight" && "color" != "font-style" && "color" != "text-decoration"
    ensures "font-weight" != "font-style" && "font-weight" != "text-decoration" && "font-style" != "text-decoration"
  {
    RunKeyChars();
  }

  /** A run's span ends with each property as the run itself asks, and
      otherwise as its border set it. */
  lemma RunStyleValues(p: RunPr, k: string)
    ensures StyleGet(RunStyles(p), k) == RunOwnStyle(p, k, RunBorderStyle(p, k))
  {
    RunStagesGet(if p.border.Some? then SetBorderStyle([], p.border.value, "") else [], p, k);
  }

  /** The border of a run never sets a property the run sets itself. */
  lemma RunBorderApart(p: RunPr, k: string)
    requires k in {"background-color", "font-family", "font-size", "color", "font-weight", "font-style", "text-decoration"}
    ensures RunBorderStyle(p, k) == None
  {
    if p.border.Some? {
      BorderKeepsOthers([], p.border.value, "", k);
    }
  }

  lemma RunStagesGet(st: StyleMap, p: RunPr, k: string)
    ensures StyleGet(TextStyles(FontStyles(Background(st, p), p), p.textPr), k) == RunOwnStyle(p, k, StyleGet(st, k))
  {
    RunKeysDistinct();
    TextStylesGet(FontStyles(Background(st, p), p), p.textPr, k);
    FontStylesGet(Background(st, p), p, k);
    BackgroundGet(st, p, k);
  }

  lemma BackgroundGet(st: StyleMap, p: RunPr, k: string)
    ensures StyleGet(Background(st, p), k)
      == if k == "background-color" && Filled(p.highlight) then p.highlight
         else if k == "background-color" && Filled(p.shdFillColor) then Some("#" + p.shdFillColor.value)
         else StyleGet(st, k)
  {
  }

  lemma TextStylesGet(st: StyleMap, t: TextPr, k: string)
    ensures StyleGet(TextStyles(st, t), k)
      == if k == "text-decoration" && t.underline then Some("underline")
         else if k == "font-style" && t.italics then Some("italic")
         else if k == "font-weight" && t.bold then Some("800")
         else StyleGet(st, k)
  {
    var s1 := SetIf(st, t.bold, "font-weight", "800");
    var s2 := SetIf(s1, t.italics, "font-style", "italic");
    SetIfGet(s2, t.underline, "text-decoration", "underline", k);
    SetIfGet(s1, t.italics, "font-style", "italic", k);
    SetIfGet(st, t.bold, "font-weight", "800", k);
  }

  lemma FontStylesGet(st: StyleMap, p: RunPr, k: string)
    ensures StyleGet(FontStyles(st, p), k)
      == if k == "color" && Filled(p.textColor) then Some("#" + p.textColor.value)
         else if k == "font-size" && NonZero(p.fontSize) then Some(DecimalString(FontSz2Px(p.fontSize.value)) + "px")
         else if k == "font-family" && Filled(p.fontName) then p.fontName
         else StyleGet(st, k)
  {
    var s1 := SetIf(st, Filled(p.fontName), "font-family", if p.fontName.Some? then p.fontName.value else "");
    var s2 := SetIf(s1, NonZero(p.fontSize), "font-size", DecimalString(FontSz2Px(OrNaN(p.fontSize))) + "px");
    SetIfGet(s2, Filled(p.textColor), "color", if p.textColor.Some? then "#" + p.textColor.value else "", k);
    SetIfGet(s1, NonZero(p.fontSize), "font-size", DecimalString(FontSz2Px(OrNaN(p.fontSize))) + "px", k);
    SetIfGet(st, Filled(p.fontName), "font-family", if p.fontName.Some? then p.fontName.value else "", k);
  }

  /** A superscript or subscript run puts its content one level down, in a
      `sup` or `sub`. */
  lemma RunVertAlign(rPr: RunPr, content: seq<HtNode>)
    ensures var r := RunHt(Some(rPr), content);
      && r.tag == "span"
      && (rPr.textPr.vertAlign == Some("superscript") ==> r.children == [HElem("sup", [], content)])
      && (rPr.textPr.vertAlign == Some("subscript") ==> r.children == [HElem("sub", [], content)])
      && (rPr.textPr.vertAlign != Some("superscript") && rPr.textPr.vertAlign != Some("subscript") ==> r.children == content)
  {
  }
}
