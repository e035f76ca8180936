/** The tree parsers of `dist/node/docx2ht.js`: `parseText`, `parseRun`,
    `getChildRuns`, `parseWP`, `parseTableCell`, `parseTableRow`,
    `parseWTBL`, `parseDocument`, and the component parsers
    `parseDrawing` and `parseObject`.

    Each parser loops over the child nodes of its element, and each loop is
    specified by `FoldTry` over a step function that says what one child
    does.  A parser returns what it builds and its caller appends it
    (`addChild2Parent`); `parseRun` takes and returns its parent's children,
    since its first text may merge into the previous run. */
module DocxTree {
  import opened Wrappers
  import opened Js
  import opened Xml
  import opened Elem
  import opened DocxProps

  // ---------------------------------------------------------------------------
  // parseDrawing, parseObject

  /** What `parseDrawing` makes of a `w:drawing` element: an inline drawing
      (no placement) or else an anchored one (its placement), with its
      extent when there is one and the relationship id of its picture;
      nothing without a `wp:inline` or `wp:anchor`, an `a:graphic` inside
      it or an `a:blip` inside that. */
  function DrawingOf(drawingElem: XNode): (r: Option<DrawingPr>)
    ensures r.Some? ==> (FirstElementByTagName(drawingElem, "wp:inline").Some? <==> r.value.floatPr.None?)
    ensures r.Some? ==> r.value.imgSrc.Undefined? && r.value.title.None?
    ensures FirstElementByTagName(drawingElem, "wp:inline").None? && FirstElementByTagName(drawingElem, "wp:anchor").None?
      ==> r.None?
  {
    var wpInline := FirstElementByTagName(drawingElem, "wp:inline");
    var wpRoot := if wpInline.Some? then wpInline else FirstElementByTagName(drawingElem, "wp:anchor");
    var floatPr := if wpInline.Some? then None else MapSome(wpRoot, AnchorFloatOf);
    if wpRoot.None? then None
    else
      var wpExtent := FirstElementByTagName(wpRoot.value, "wp:extent");
      var aGraphic := FirstElementByTagName(wpRoot.value, "a:graphic");
      if aGraphic.None? then None
      else
        var aBlip := FirstElementByTagName(aGraphic.value, "a:blip");
        if aBlip.None? then None
        else
          Some(DrawingPr(
            floatPr,
            None,
            if wpExtent.Some? then Some(ParseInt(Attr(wpExtent.value, "cx"))) else None,
            if wpExtent.Some? then Some(ParseInt(Attr(wpExtent.value, "cy"))) else None,
            Attr(aBlip.value, "r:embed"),
            Undefined))
  }

  /** `parseDrawing`. */
  method ParseDrawing(drawingElem: XNode) returns (r: Option<DrawingPr>)
    ensures r == DrawingOf(drawingElem)
  {
    var floatPr: Option<FloatPr> := None;
    var wpRoot := None;
    var wpInline := FirstElementByTagName(drawingElem, "wp:inline");
    if wpInline.Some? {
      wpRoot := wpInline;
    } else {
      var wpAnchor := FirstElementByTagName(drawingElem, "wp:anchor");
      if wpAnchor.Some? {
        var anchorFloat := ParseAnchorFloat(wpAnchor.value);
        floatPr := Some(anchorFloat);
      }
      wpRoot := wpAnchor;
    }
    if wpRoot.None? {
      return None;
    }
    var wpExtent := FirstElementByTagName(wpRoot.value, "wp:extent");
    var cx, cy := None, None;
    if wpExtent.Some? {
      cx, cy := Some(ParseInt(Attr(wpExtent.value, "cx"))), Some(ParseInt(Attr(wpExtent.value, "cy")));
    }
    var aGraphic := FirstElementByTagName(wpRoot.value, "a:graphic");
    if aGraphic.None? {
      return None;
    }
    var aBlip := FirstElementByTagName(aGraphic.value, "a:blip");
    if aBlip.None? {
      return None;
    }
    return Some(DrawingPr(floatPr, None, cx, cy, Attr(aBlip.value, "r:embed"), Undefined));
  }

  /** `parseObject`: an embedded OLE object with its preview picture; nothing
      without a `v:shape`, a `v:imagedata` inside it, or an `o:OLEObject`. */
  function ObjectOf(objectElem: XNode): (r: Option<ObjectPr>)
    ensures r.Some? <==>
      FirstElementByTagName(objectElem, "v:shape").Some?
      && FirstElementByTagName(FirstElementByTagName(objectElem, "v:shape").value, "v:imagedata").Some?
      && FirstElementByTagName(objectElem, "o:OLEObject").Some?
    ensures r.Some? ==> r.value.oleRId == Attr(FirstElementByTagName(objectElem, "o:OLEObject").value, "r:id")
    ensures r.Some? ==> r.value.imgSrc.Undefined? && r.value.latex.Undefined?
  {
    var vShape := FirstElementByTagName(objectElem, "v:shape");
    if vShape.None? then None
    else
      var vImageData := FirstElementByTagName(vShape.value, "v:imagedata");
      if vImageData.None? then None
      else
        var vOLEObject := FirstElementByTagName(objectElem, "o:OLEObject");
        if vOLEObject.None? then None
        else
          Some(ObjectPr(
            Attr(vShape.value, "id"),
            Attr(vShape.value, "style"),
            Attr(vImageData.value, "r:id"),
            Attr(vOLEObject.value, "ProgID"),
            Attr(vOLEObject.value, "ShapeID"),
            Attr(vOLEObject.value, "r:id"),
            Undefined,
            Undefined))
  }

  // ---------------------------------------------------------------------------
  // parseText, parseRun

  /** The state of the `parseRun` loop: the children of the run's parent,
      the run's properties, and the run's children so far; `run` is `None`
      once the run's first text merged into the previous run (the source
      sets `run = null`). */
  datatype RunLoop = RunLoop(siblings: seq<Comp>, rPr: Option<RunPr>, run: Option<seq<Comp>>)

  /** The previous run can absorb this run's first text: it holds exactly one
      child, a text run with non-empty text, and has equal properties. */
  predicate Mergeable(siblings: seq<Comp>, rPr: Option<RunPr>)
  {
    && siblings != []
    && siblings[|siblings| - 1].Run?
    && |siblings[|siblings| - 1].children| == 1
    && siblings[|siblings| - 1].children[0].TextRun?
    && siblings[|siblings| - 1].children[0].textContent != ""
    && siblings[|siblings| - 1].rPr == rPr
  }

  /** The previous run with the text appended to its text run. */
  function MergeText(siblings: seq<Comp>, text: string): (r: seq<Comp>)
    requires siblings != [] && siblings[|siblings| - 1].Run? && |siblings[|siblings| - 1].children| == 1
    requires siblings[|siblings| - 1].children[0].TextRun?
    ensures |r| == |siblings| && r[..|r| - 1] == siblings[..|siblings| - 1]
    ensures r[|r| - 1] == Run(siblings[|siblings| - 1].rPr, [TextRun(siblings[|siblings| - 1].children[0].textContent + text)])
  {
    var last := siblings[|siblings| - 1];
    siblings[..|siblings| - 1] + [Run(last.rPr, [TextRun(last.children[0].textContent + text)])]
  }

  /** What `parseText` does with a `w:t` child: with the run gone it throws
      (it reads a property of null); as the run's first child with a
      mergeable previous run it extends that run's text and the run is
      dropped; otherwise it appends a text run. */
  function TextStep(s: RunLoop, tElem: XNode): Try<RunLoop>
  {
    match s.run
    case None => Throws
    case Some(children) =>
      if children == [] && Mergeable(s.siblings, s.rPr) then
        Ok(s.(siblings := MergeText(s.siblings, TextContent(tElem)), run := None))
      else
        Ok(s.(run := Some(children + [TextRun(TextContent(tElem))])))
  }

  /** `addChild2Parent(run, child)`: nothing happens once the run is gone. */
  function AddToRun(s: RunLoop, child: Comp): (r: RunLoop)
    ensures r.siblings == s.siblings && r.rPr == s.rPr
    ensures r.run == if s.run.Some? then Some(s.run.value + [child]) else None
  {
    match s.run
    case None => s
    case Some(children) => s.(run := Some(children + [child]))
  }

  /** The children of a `w:r` the loop acts on. */
  predicate IsRunContent(x: XNode)
  {
    x.Element? && x.tag in {"w:t", "w:tab", "w:br", "w:drawing", "w:object"}
  }

  /** One turn of the `parseRun` loop. */
  function RunStep(s: RunLoop, x: XNode): Try<RunLoop>
  {
    if !x.Element? then Ok(s)
    else
      match x.tag
      case "w:t" => TextStep(s, x)
      case "w:tab" => Ok(AddToRun(s, SPCharRun("tab")))
      case "w:br" => Ok(AddToRun(s, SPCharRun("tab")))
      case "w:drawing" =>
        (match DrawingOf(x)
         case Some(d) => Ok(AddToRun(s, DrawingRun(d)))
         case None => Ok(s))
      case "w:object" =>
        (match ObjectOf(x)
         case Some(o) => Ok(AddToRun(s, ObjectRun(o)))
         case None => Ok(s))
      case _ => Ok(s)
  }

  /** The parent's children once the loop is over: the run is appended unless
      it was dropped. */
  function RunEnd(s: RunLoop): seq<Comp>
  {
    match s.run
    case None => s.siblings
    case Some(children) => s.siblings + [Run(s.rPr, children)]
  }

  /** The properties of a run: those of the first `w:rPr` below it. */
  function RunPrOfRun(runElem: XNode): Option<RunPr>
  {
    RunPrOf(FirstElementByTagName(runElem, "w:rPr"))
  }

  /** What `parseRun(parent, runElem)` leaves in the parent's children. */
  function RunOf(siblings: seq<Comp>, runElem: XNode): Try<seq<Comp>>
  {
    match FoldTry(RunLoop(siblings, RunPrOfRun(runElem), Some([])), Children(runElem), RunStep)
    case Throws => Throws
    case Ok(s) => Ok(RunEnd(s))
  }

  /** `parseText`. */
  method ParseText(s: RunLoop, tElem: XNode) returns (r: Try<RunLoop>)
    ensures r == TextStep(s, tElem)
  {
    if s.run.None? {
      return Throws;
    }
    if s.run.value == [] && Mergeable(s.siblings, s.rPr) {
      var lastRun := s.siblings[|s.siblings| - 1];
      var tRun := lastRun.children[0];
      var merged := Run(lastRun.rPr, [TextRun(tRun.textContent + TextContent(tElem))]);
      return Ok(s.(siblings := s.siblings[..|s.siblings| - 1] + [merged], run := None));
    }
    var textRun := TextRun(TextContent(tElem));
    return Ok(s.(run := Some(s.run.value + [textRun])));
  }

  /** `parseRun`. */
  method ParseRun(siblings: seq<Comp>, runElem: XNode) returns (r: Try<seq<Comp>>)
    ensures r == RunOf(siblings, runElem)
  {
    var rPrElem := FirstElementByTagName(runElem, "w:rPr");
    var rPr := ParseRunPR(rPrElem);
    var kids := Children(runElem);
    var s := RunLoop(siblings, rPr, Some([]));
    ghost var result := FoldTry(s, kids, RunStep);
    assert kids[0..] == kids;
    for i := 0 to |kids|
      invariant FoldTry(s, kids[i..], RunStep) == result
    {
      FoldTryStep(s, kids, i, RunStep);
      var childNode := kids[i];
      if childNode.Element? {
        match childNode.tag
        case "w:t" =>
          var child := ParseText(s, childNode);
          if child.Throws? {
            return Throws;
          }
          s := child.value;
        case "w:tab" => s := AddToRun(s, SPCharRun("tab"));
        case "w:br" => s := AddToRun(s, SPCharRun("tab"));
        case "w:drawing" =>
          var drawing := ParseDrawing(childNode);
          if drawing.Some? {
            s := AddToRun(s, DrawingRun(drawing.value));
          }
        case "w:object" =>
          var objectPr := ObjectOf(childNode);
          if objectPr.Some? {
            s := AddToRun(s, ObjectRun(objectPr.value));
          }
        case _ =>
      }
    }
    return Ok(RunEnd(s));
  }

  // ---------------------------------------------------------------------------
  // getChildRuns, parseWP

  /** One turn of the `getChildRuns` loop: each `w:r` child is parsed into the
      parent's children. */
  function RunsStep(siblings: seq<Comp>, x: XNode): Try<seq<Comp>>
  {
    if IsElementNamed(x, "w:r") then RunOf(siblings, x) else Ok(siblings)
  }

  /** `getChildRuns(parent, elem)`: the runs of an element parsed into the
      parent's children. */
  method GetChildRuns(siblings: seq<Comp>, pElem: XNode) returns (r: Try<seq<Comp>>)
    ensures r == FoldTry(siblings, Children(pElem), RunsStep)
  {
    var kids := Children(pElem);
    var parent := siblings;
    assert kids[0..] == kids;
    for i := 0 to |kids|
      invariant FoldTry(parent, kids[i..], RunsStep) == FoldTry(siblings, kids, RunsStep)
    {
      FoldTryStep(parent, kids, i, RunsStep);
      var childNode := kids[i];
      if IsElementNamed(childNode, "w:r") {
        var run := ParseRun(parent, childNode);
        if run.Throws? {
          return Throws;
        }
        parent := run.value;
      }
    }
    return Ok(parent);
  }

  /** One turn of the `parseWP` loop over a paragraph's children: runs, the
      runs of a hyperlink (inside a new hyperlink), the runs of a smart tag
      or simple field (directly in the paragraph), and math. */
  function ParaStep(children: seq<Comp>, x: XNode): Try<seq<Comp>>
  {
    if !x.Element? then Ok(children)
    else
      match x.tag
      case "w:r" => RunOf(children, x)
      case "w:hyperlink" =>
        (match FoldTry([], Children(x), RunsStep)
         case Throws => Throws
         case Ok(runs) => Ok(children + [HyperLink(runs)]))
      case "w:smartTag" => FoldTry(children, Children(x), RunsStep)
      case "w:fldSimple" => FoldTry(children, Children(x), RunsStep)
      case "m:oMath" => Ok(children + [OMath(x)])
      case "m:oMathPara" => Ok(children + [OMath(x)])
      case _ => Ok(children)
  }

  /** What `parseWP` builds: a paragraph with the properties of the first
      `w:pPr` below it and the components of its children. */
  function ParagraphOf(pElem: XNode): Try<Comp>
  {
    match FoldTry([], Children(pElem), ParaStep)
    case Throws => Throws
    case Ok(children) => Ok(Paragraph(PPrOf(FirstElementByTagName(pElem, "w:pPr")), children))
  }

  /** `parseWP`. */
  method ParseWP(pElem: XNode) returns (r: Try<Comp>)
    ensures r == ParagraphOf(pElem)
  {
    var pPrElem := FirstElementByTagName(pElem, "w:pPr");
    var pPr := ParsePPR(pPrElem);
    var kids := Children(pElem);
    var p: seq<Comp> := [];
    ghost var result := FoldTry(p, kids, ParaStep);
    assert kids[0..] == kids;
    for i := 0 to |kids|
      invariant FoldTry(p, kids[i..], ParaStep) == result
    {
      FoldTryStep(p, kids, i, ParaStep);
      var childNode := kids[i];
      if childNode.Element? {
        match childNode.tag
        case "w:r" =>
          var run := ParseRun(p, childNode);
          if run.Throws? {
            return Throws;
          }
          p := run.value;
        case "w:hyperlink" =>
          var runs := GetChildRuns([], childNode);
          if runs.Throws? {
            return Throws;
          }
          p := p + [HyperLink(runs.value)];
        case "w:smartTag" =>
          var runs := GetChildRuns(p, childNode);
          if runs.Throws? {
            return Throws;
          }
          p := runs.value;
        case "w:fldSimple" =>
          var runs := GetChildRuns(p, childNode);
          if runs.Throws? {
            return Throws;
          }
          p := runs.value;
        case "m:oMath" => p := p + [OMath(childNode)];
        case "m:oMathPara" => p := p + [OMath(childNode)];
        case _ =>
      }
    }
    return Ok(Paragraph(pPr, p));
  }

  // ---------------------------------------------------------------------------
  // parseTableCell, parseTableRow, parseWTBL

  /** One turn of the `parseTableCell` loop: only paragraphs are kept. */
  function ParasStep(children: seq<Comp>, x: XNode): Try<seq<Comp>>
  {
    if IsElementNamed(x, "w:p") then
      match ParagraphOf(x)
      case Throws => Throws
      case Ok(p) => Ok(children + [p])
    else Ok(children)
  }

  /** The cell `parseTableCell` builds. */
  function CellOf(tcElem: XNode): Try<Comp>
  {
    match FoldTry([], Children(tcElem), ParasStep)
    case Throws => Throws
    case Ok(children) => Ok(TableCell(CellPrOf(FirstElementByTagName(tcElem, "w:tcPr")), children))
  }

  /** The number of grid columns a cell covers: its `gridSpan` when that is a
      non-zero number, else 1. */
  function GridSpanOf(tcPr: Option<TableCellPr>): int
  {
    if tcPr.Some? && NonZero(tcPr.value.gridSpan) then tcPr.value.gridSpan.value.value else 1
  }

  /** `n` empty objects, none for `n <= 0`. */
  function Placeholders(n: int): (r: seq<Comp>)
    ensures |r| == if n <= 0 then 0 else n
    ensures forall i :: 0 <= i < |r| ==> r[i] == Placeholder
  {
    if n <= 0 then [] else seq(n, _ => Placeholder)
  }

  /** What `parseTableCell(row, tcElem)` leaves in the row's children: the
      cell, followed by an empty placeholder for each further grid column it
      spans. */
  function CellBlock(cells: seq<Comp>, tcElem: XNode): Try<seq<Comp>>
  {
    match CellOf(tcElem)
    case Throws => Throws
    case Ok(cell) => Ok(cells + [cell] + Placeholders(GridSpanOf(cell.tcPr) - 1))
  }

  /** One turn of the `parseTableRow` loop: only cells are kept. */
  function CellsStep(cells: seq<Comp>, x: XNode): Try<seq<Comp>>
  {
    if IsElementNamed(x, "w:tc") then CellBlock(cells, x) else Ok(cells)
  }

  /** `parseTableCell(parent, tcElem)`: appends the cell and its placeholders
      to the row's children. */
  method ParseTableCell(cells: seq<Comp>, tcElem: XNode) returns (r: Try<seq<Comp>>)
    ensures r == CellBlock(cells, tcElem)
  {
    var tcPrElem := FirstElementByTagName(tcElem, "w:tcPr");
    var tcPr := ParseTableCellPr(tcPrElem);
    var kids := Children(tcElem);
    var children: seq<Comp> := [];
    ghost var result := FoldTry(children, kids, ParasStep);
    assert kids[0..] == kids;
    for i := 0 to |kids|
      invariant FoldTry(children, kids[i..], ParasStep) == result
    {
      FoldTryStep(children, kids, i, ParasStep);
      var childNode := kids[i];
      if IsElementNamed(childNode, "w:p") {
        var p := ParseWP(childNode);
        if p.Throws? {
          return Throws;
        }
        children := children + [p.value];
      }
    }
    var tableCell := TableCell(tcPr, children);
    var parent := cells + [tableCell];
    var gridSpan := 1;
    if tcPr.Some? && NonZero(tcPr.value.gridSpan) {
      gridSpan := tcPr.value.gridSpan.value.value;
    }
    parent := AddPlaceholders(parent, gridSpan);
    return Ok(parent);
  }

  /** The placeholder loop of `parseTableCell`: `gridSpan - 1` empty objects
      after the cell. */
  method AddPlaceholders(parent: seq<Comp>, gridSpan: int) returns (r: seq<Comp>)
    ensures r == parent + Placeholders(gridSpan - 1)
  {
    r := parent;
    var i := 0;
    while i < gridSpan - 1
      invariant 0 <= i && (gridSpan - 1 <= 0 ==> i == 0) && (gridSpan - 1 > 0 ==> i <= gridSpan - 1)
      invariant r == parent + Placeholders(i)
    {
      assert Placeholders(i + 1) == Placeholders(i) + [Placeholder];
      r := r + [Placeholder];
      i := i + 1;
    }
    assert Placeholders(i) == Placeholders(gridSpan - 1);
  }

  /** The row `parseTableRow` builds. */
  function RowOf(trElem: XNode): Try<Comp>
  {
    match FoldTry([], Children(trElem), CellsStep)
    case Throws => Throws
    case Ok(cells) => Ok(TableRow(RowPrOf(FirstElementByTagName(trElem, "w:trPr")), cells))
  }

  /** `parseTableRow`. */
  method ParseTableRow(trElem: XNode) returns (r: Try<Comp>)
    ensures r == RowOf(trElem)
  {
    var trPrElem := FirstElementByTagName(trElem, "w:trPr");
    var trPr := ParseTableRowPr(trPrElem);
    var kids := Children(trElem);
    var cells: seq<Comp> := [];
    ghost var result := FoldTry(cells, kids, CellsStep);
    assert kids[0..] == kids;
    for i := 0 to |kids|
      invariant FoldTry(cells, kids[i..], CellsStep) == result
    {
      FoldTryStep(cells, kids, i, CellsStep);
      var childNode := kids[i];
      if IsElementNamed(childNode, "w:tc") {
        var tableCell := ParseTableCell(cells, childNode);
        if tableCell.Throws? {
          return Throws;
        }
        cells := tableCell.value;
      }
    }
    return Ok(TableRow(trPr, cells));
  }

  /** One turn of the `parseWTBL` loop: only rows are kept. */
  function RowsStep(rows: seq<Comp>, x: XNode): Try<seq<Comp>>
  {
    if IsElementNamed(x, "w:tr") then
      match RowOf(x)
      case Throws => Throws
      case Ok(row) => Ok(rows + [row])
    else Ok(rows)
  }

  /** The table `parseWTBL` builds. */
  function TableOf(tblElem: XNode): Try<Comp>
  {
    match FoldTry([], Children(tblElem), RowsStep)
    case Throws => Throws
    case Ok(rows) => Ok(Table(TablePrOf(FirstElementByTagName(tblElem, "w:tblPr")), rows))
  }

  /** `parseWTBL`. */
  method ParseWTBL(tblElem: XNode) returns (r: Try<Comp>)
    ensures r == TableOf(tblElem)
  {
    var tblPrElem := FirstElementByTagName(tblElem, "w:tblPr");
    var tablePr := ParseTablePR(tblPrElem);
    var kids := Children(tblElem);
    var rows: seq<Comp> := [];
    ghost var result := FoldTry(rows, kids, RowsStep);
    assert kids[0..] == kids;
    for i := 0 to |kids|
      invariant FoldTry(rows, kids[i..], RowsStep) == result
    {
      FoldTryStep(rows, kids, i, RowsStep);
      var childNode := kids[i];
      if IsElementNamed(childNode, "w:tr") {
        var tableRow := ParseTableRow(childNode);
        if tableRow.Throws? {
          return Throws;
        }
        rows := rows + [tableRow.value];
      }
    }
    return Ok(Table(tablePr, rows));
  }

  // ---------------------------------------------------------------------------
  // parseDocument

  /** One turn of the `parseDocument` loop: paragraphs and tables. */
  function BodyStep(children: seq<Comp>, x: XNode): Try<seq<Comp>>
  {
    if IsElementNamed(x, "w:p") then
      match ParagraphOf(x)
      case Throws => Throws
      case Ok(p) => Ok(children + [p])
    else if IsElementNamed(x, "w:tbl") then
      match TableOf(x)
      case Throws => Throws
      case Ok(t) => Ok(children + [t])
    else Ok(children)
  }

  /** What `parseDocument` builds from the root element of the document part
      (`None`: there is no document part): nothing without a `w:body`,
      else a document holding one body. */
  function DocumentOf(root: Option<XNode>): Try<Option<Comp>>
  {
    if root.None? then Ok(None)
    else
      match FirstElementByTagName(root.value, "w:body")
      case None => Ok(None)
      case Some(bodyElem) =>
        match FoldTry([], Children(bodyElem), BodyStep)
        case Throws => Throws
        case Ok(children) => Ok(Some(Document([Body(children)])))
  }

  /** `parseDocument`. */
  method ParseDocument(root: Option<XNode>) returns (r: Try<Option<Comp>>)
    ensures r == DocumentOf(root)
  {
    if root.None? {
      return Ok(None);
    }
    var bodyElem := FirstElementByTagName(root.value, "w:body");
    if bodyElem.None? {
      return Ok(None);
    }
    var kids := Children(bodyElem.value);
    var body: seq<Comp> := [];
    ghost var result := FoldTry(body, kids, BodyStep);
    assert kids[0..] == kids;
    for i := 0 to |kids|
      invariant FoldTry(body, kids[i..], BodyStep) == result
    {
      FoldTryStep(body, kids, i, BodyStep);
      var childNode := kids[i];
      if IsElementNamed(childNode, "w:p") {
        var p := ParseWP(childNode);
        if p.Throws? {
          return Throws;
        }
        body := body + [p.value];
      } else if IsElementNamed(childNode, "w:tbl") {
        var table := ParseWTBL(childNode);
        if table.Throws? {
          return Throws;
        }
        body := body + [table.value];
      }
    }
    return Ok(Some(Document([Body(body)])));
  }

  /** The body elements `parseDocument` turns into blocks. */
  function BodyBlockCount(xs: seq<XNode>): nat
  {
    if xs == [] then 0
    else (if IsElementNamed(xs[0], "w:p") || IsElementNamed(xs[0], "w:tbl") then 1 else 0) + BodyBlockCount(xs[1..])
  }

  /** The body loop keeps the blocks already built and adds one paragraph
      or table per `w:p` or `w:tbl` element, skipping everything else. */
  lemma {:induction false} BodyStepsBlocks(acc: seq<Comp>, xs: seq<XNode>)
    requires FoldTry(acc, xs, BodyStep).Ok?
    ensures |FoldTry(acc, xs, BodyStep).value| == |acc| + BodyBlockCount(xs)
    ensures FoldTry(acc, xs, BodyStep).value[..|acc|] == acc
    ensures forall k :: |acc| <= k < |FoldTry(acc, xs, BodyStep).value| ==>
      FoldTry(acc, xs, BodyStep).value[k].Paragraph? || FoldTry(acc, xs, BodyStep).value[k].Table?
    decreases |xs|
  {
    if xs != [] {
      var a := BodyStep(acc, xs[0]).value;
      BodyStepsBlocks(a, xs[1..]);
      var v := FoldTry(acc, xs, BodyStep).value;
      assert v == FoldTry(a, xs[1..], BodyStep).value;
      assert v[..|a|] == a;
      assert a[..|acc|] == acc;
      assert v[..|acc|] == v[..|a|][..|acc|];
    }
  }

  /** A parsed document is one body holding a paragraph or a table for each
      `w:p` or `w:tbl` element of `w:body`, and nothing else. */
  lemma DocumentBlocks(root: XNode)
    requires FirstElementByTagName(root, "w:body").Some?
    requires DocumentOf(Some(root)).Ok?
    ensures DocumentOf(Some(root)).value.Some?
    ensures DocumentOf(Some(root)).value.value.Document?
    ensures |DocumentOf(Some(root)).value.value.children| == 1
    ensures DocumentOf(Some(root)).value.value.children[0].Body?
    ensures |DocumentOf(Some(root)).value.value.children[0].children|
      == BodyBlockCount(Children(FirstElementByTagName(root, "w:body").value))
    ensures forall k :: 0 <= k < |DocumentOf(Some(root)).value.value.children[0].children| ==>
      DocumentOf(Some(root)).value.value.children[0].children[k].Paragraph? ||
      DocumentOf(Some(root)).value.value.children[0].children[k].Table?
  {
    BodyStepsBlocks([], Children(FirstElementByTagName(root, "w:body").value));
  }

  // ---------------------------------------------------------------------------
  // What the run loop does

  /** Children of a `w:r` other than text, tabs, breaks, drawings and
      objects are skipped. */
  lemma OtherRunChildSkipped(s: RunLoop, x: XNode)
    requires !IsRunContent(x)
    ensures RunStep(s, x) == Ok(s)
  {
  }

  /** A `w:br` is read as a tab, exactly as `w:tab` is. */
  lemma BreakIsTab(s: RunLoop, br: XNode, tab: XNode)
    requires IsElementNamed(br, "w:br") && IsElementNamed(tab, "w:tab")
    ensures RunStep(s, br) == RunStep(s, tab) == Ok(AddToRun(s, SPCharRun("tab")))
  {
  }

  /** A run holding one text (after any children the loop skips, such as its
      `w:rPr`): when the previous run holds a single non-empty text and has
      the same properties, the text is appended to that run and no run is
      added; otherwise a new run with the one text run is appended. */
  lemma SingleTextRun(siblings: seq<Comp>, runElem: XNode, pre: seq<XNode>, t: XNode)
    requires Children(runElem) == pre + [t]
    requires forall i :: 0 <= i < |pre| ==> !IsRunContent(pre[i])
    requires IsElementNamed(t, "w:t")
    ensures Mergeable(siblings, RunPrOfRun(runElem)) ==>
      RunOf(siblings, runElem) == Ok(MergeText(siblings, TextContent(t)))
    ensures !Mergeable(siblings, RunPrOfRun(runElem)) ==>
      RunOf(siblings, runElem) == Ok(siblings + [Run(RunPrOfRun(runElem), [TextRun(TextContent(t))])])
  {
    var init := RunLoop(siblings, RunPrOfRun(runElem), Some([]));
    forall i | 0 <= i < |pre|
      ensures RunStep(init, pre[i]) == Ok(init)
    {
      OtherRunChildSkipped(init, pre[i]);
    }
    FoldTrySkips(init, pre, RunStep);
    FoldTryAppend(init, pre, [t], RunStep);
    assert RunStep(init, t) == TextStep(init, t);
    var after := TextStep(init, t).value;
    assert [t][1..] == [];
    assert FoldTry(init, [t], RunStep) == Ok(after);
    assert FoldTry(init, Children(runElem), RunStep) == Ok(after);
    assert RunOf(siblings, runElem) == Ok(RunEnd(after));
    if !Mergeable(siblings, RunPrOfRun(runElem)) {
      assert [] + [TextRun(TextContent(t))] == [TextRun(TextContent(t))];
    }
  }

  /** Once a run's first text has merged into the previous run, a second
      `w:t` in it throws: the source reads the parent of the discarded run. */
  lemma MergedRunThrowsOnSecondText(siblings: seq<Comp>, runElem: XNode, t1: XNode, t2: XNode)
    requires Children(runElem) == [t1, t2]
    requires IsElementNamed(t1, "w:t") && IsElementNamed(t2, "w:t")
    requires Mergeable(siblings, RunPrOfRun(runElem))
    ensures RunOf(siblings, runElem) == Throws
  {
    var init := RunLoop(siblings, RunPrOfRun(runElem), Some([]));
    assert [t1, t2][1..] == [t2];
    var merged := RunLoop(MergeText(siblings, TextContent(t1)), RunPrOfRun(runElem), None);
    assert RunStep(init, t1) == Ok(merged);
    assert RunStep(merged, t2) == Throws;
    assert FoldTry(merged, [t2], RunStep) == Throws;
  }

  /** What a run loop state keeps of its start: the properties, the parent's
      children while the run is alive, and all but the last of them once it
      was merged away (the last then being a run). */
  predicate KeepsEarlier(s0: RunLoop, s: RunLoop)
  {
    && s.rPr == s0.rPr
    && (s.run.Some? ==> s.siblings == s0.siblings)
    && (s.run.None? ==>
          && |s.siblings| == |s0.siblings| > 0
          && s.siblings[..|s.siblings| - 1] == s0.siblings[..|s0.siblings| - 1]
          && s.siblings[|s.siblings| - 1].Run?)
  }

  lemma RunStepKeepsEarlier(s0: RunLoop, s: RunLoop, x: XNode)
    requires s0.run == Some([])
    requires KeepsEarlier(s0, s)
    requires RunStep(s, x).Ok?
    ensures KeepsEarlier(s0, RunStep(s, x).value)
  {
  }

  /** `r` is `siblings` with one run of properties `rPr` appended. */
  predicate AppendsRun(siblings: seq<Comp>, rPr: Option<RunPr>, r: seq<Comp>)
  {
    |r| == |siblings| + 1 && r[..|siblings|] == siblings && r[|siblings|].Run? && r[|siblings|].rPr == rPr
  }

  /** `r` is `siblings` with the last child, now a run, rewritten. */
  predicate RewritesLastRun(siblings: seq<Comp>, r: seq<Comp>)
  {
    |r| == |siblings| > 0 && r[..|r| - 1] == siblings[..|siblings| - 1] && r[|r| - 1].Run?
  }

  /** `parseRun` touches no child of the parent but the last: it either
      appends one run with the parsed properties, or rewrites the last child,
      a run, leaving the others as they were. */
  lemma RunOfKeepsSiblings(siblings: seq<Comp>, runElem: XNode)
    requires RunOf(siblings, runElem).Ok?
    ensures AppendsRun(siblings, RunPrOfRun(runElem), RunOf(siblings, runElem).value)
      || RewritesLastRun(siblings, RunOf(siblings, runElem).value)
  {
    var init := RunLoop(siblings, RunPrOfRun(runElem), Some([]));
    forall s, x | KeepsEarlier(init, s) && RunStep(s, x).Ok?
      ensures KeepsEarlier(init, RunStep(s, x).value)
    {
      RunStepKeepsEarlier(init, s, x);
    }
    FoldTryKeeps(init, Children(runElem), RunStep, s => KeepsEarlier(init, s));
    var s := FoldTry(init, Children(runElem), RunStep).value;
    if s.run.Some? {
      assert RunEnd(s) == siblings + [Run(s.rPr, s.run.value)];
    }
  }

  // ---------------------------------------------------------------------------
  // What a paragraph holds

  predicate AllRuns(cs: seq<Comp>)
  {
    forall i :: 0 <= i < |cs| ==> cs[i].Run?
  }

  /** The components a paragraph can hold: runs, math, and hyperlinks holding
      runs. */
  predicate InlineComp(c: Comp)
  {
    c.Run? || c.OMath? || (c.HyperLink? && AllRuns(c.children))
  }

  predicate AllInline(cs: seq<Comp>)
  {
    forall i :: 0 <= i < |cs| ==> InlineComp(cs[i])
  }

  /** `parseRun` keeps a list of runs a list of runs, and a list of inline
      components one of inline components. */
  lemma RunOfInline(siblings: seq<Comp>, runElem: XNode)
    requires RunOf(siblings, runElem).Ok?
    ensures AllRuns(siblings) ==> AllRuns(RunOf(siblings, runElem).value)
    ensures AllInline(siblings) ==> AllInline(RunOf(siblings, runElem).value)
  {
    RunOfKeepsSiblings(siblings, runElem);
    var r := RunOf(siblings, runElem).value;
    if AppendsRun(siblings, RunPrOfRun(runElem), r) {
      assert forall i :: 0 <= i < |siblings| ==> r[i] == siblings[i];
    } else {
      assert forall i :: 0 <= i < |siblings| - 1 ==> r[i] == r[..|r| - 1][i];
    }
  }

  lemma RunsStepInline(siblings: seq<Comp>, x: XNode)
    requires RunsStep(siblings, x).Ok?
    ensures AllRuns(siblings) ==> AllRuns(RunsStep(siblings, x).value)
    ensures AllInline(siblings) ==> AllInline(RunsStep(siblings, x).value)
  {
    if IsElementNamed(x, "w:r") {
      RunOfInline(siblings, x);
    }
  }

  /** The runs of a hyperlink, smart tag or simple field. */
  lemma ChildRunsInline(siblings: seq<Comp>, kids: seq<XNode>)
    requires FoldTry(siblings, kids, RunsStep).Ok?
    ensures AllRuns(siblings) ==> AllRuns(FoldTry(siblings, kids, RunsStep).value)
    ensures AllInline(siblings) ==> AllInline(FoldTry(siblings, kids, RunsStep).value)
  {
    forall s, x | RunsStep(s, x).Ok?
      ensures AllRuns(s) ==> AllRuns(RunsStep(s, x).value)
      ensures AllInline(s) ==> AllInline(RunsStep(s, x).value)
    {
      RunsStepInline(s, x);
    }
    if AllRuns(siblings) {
      FoldTryKeeps(siblings, kids, RunsStep, AllRuns);
    }
    if AllInline(siblings) {
      FoldTryKeeps(siblings, kids, RunsStep, AllInline);
    }
  }

  lemma ParaStepInline(children: seq<Comp>, x: XNode)
    requires AllInline(children)
    requires ParaStep(children, x).Ok?
    ensures AllInline(ParaStep(children, x).value)
  {
    if IsElementNamed(x, "w:r") {
      RunOfInline(children, x);
    } else if IsElementNamed(x, "w:hyperlink") {
      var runs := FoldTry([], Children(x), RunsStep);
      ChildRunsInline([], Children(x));
      assert ParaStep(children, x).value == children + [HyperLink(runs.value)];
    } else if IsElementNamed(x, "w:smartTag") || IsElementNamed(x, "w:fldSimple") {
      ChildRunsInline(children, Children(x));
    }
  }

  /** A parsed paragraph holds only runs, math, and hyperlinks of runs. */
  lemma ParagraphInline(pElem: XNode)
    requires ParagraphOf(pElem).Ok?
    ensures ParagraphOf(pElem).value.Paragraph?
    ensures AllInline(ParagraphOf(pElem).value.children)
  {
    forall s, x | AllInline(s) && ParaStep(s, x).Ok?
      ensures AllInline(ParaStep(s, x).value)
    {
      ParaStepInline(s, x);
    }
    FoldTryKeeps([], Children(pElem), ParaStep, AllInline);
  }

  // ---------------------------------------------------------------------------
  // Grid columns of a row

  /** The grid columns a cell covers: its non-zero `gridSpan` when that is
      above 1, else 1. */
  function Columns(tcPr: Option<TableCellPr>): (n: int)
    ensures n >= 1
    ensures n == if GridSpanOf(tcPr) > 1 then GridSpanOf(tcPr) else 1
  {
    if GridSpanOf(tcPr) > 1 then GridSpanOf(tcPr) else 1
  }

  /** The grid columns covered by the cells among the first `i` children of
      a row. */
  function WidthBefore(cs: seq<Comp>, i: nat): int
    requires i <= |cs|
    decreases i
  {
    if i == 0 then 0
    else WidthBefore(cs, i - 1) + (if cs[i - 1].TableCell? then Columns(cs[i - 1].tcPr) else 0)
  }

  /** Every cell of the row sits at the index of the grid column it starts
      at, and the row is as long as the columns its cells cover.  This is
      what the placeholders are for: the rowspan pass finds the cell below a
      cell by its index. */
  predicate ColumnAligned(cs: seq<Comp>)
  {
    && WidthBefore(cs, |cs|) == |cs|
    && forall i :: 0 <= i < |cs| && cs[i].TableCell? ==> WidthBefore(cs, i) == i
  }

  /** Appending does not change the width of a prefix of the old part. */
  lemma {:induction false} WidthBeforeAppend(a: seq<Comp>, b: seq<Comp>, i: nat)
    requires i <= |a|
    ensures WidthBefore(a + b, i) == WidthBefore(a, i)
    decreases i
  {
    if i > 0 {
      assert (a + b)[i - 1] == a[i - 1];
      WidthBeforeAppend(a, b, i - 1);
    }
  }

  /** Placeholders cover no columns. */
  lemma {:induction false} WidthBeforePlaceholders(cs: seq<Comp>, start: nat, i: nat)
    requires start <= i <= |cs|
    requires forall j :: start <= j < |cs| ==> cs[j] == Placeholder
    ensures WidthBefore(cs, i) == WidthBefore(cs, start)
    decreases i
  {
    if i > start {
      assert cs[i - 1] == Placeholder;
      WidthBeforePlaceholders(cs, start, i - 1);
    }
  }

  /** Appending a cell with its placeholders keeps a row column-aligned. */
  lemma AlignedAppend(cells: seq<Comp>, cell: Comp)
    requires ColumnAligned(cells) && cell.TableCell?
    ensures ColumnAligned(cells + [cell] + Placeholders(GridSpanOf(cell.tcPr) - 1))
  {
    var ps := Placeholders(GridSpanOf(cell.tcPr) - 1);
    var cs := cells + [cell] + ps;
    var n := |cells|;
    assert cs == (cells + [cell]) + ps;
    forall i | 0 <= i <= n
      ensures WidthBefore(cs, i) == WidthBefore(cells, i)
    {
      assert cs == cells + ([cell] + ps);
      WidthBeforeAppend(cells, [cell] + ps, i);
    }
    assert cs[n] == cell;
    assert WidthBefore(cs, n + 1) == n + Columns(cell.tcPr);
    assert forall j :: n + 1 <= j < |cs| ==> cs[j] == ps[j - n - 1];
    WidthBeforePlaceholders(cs, n + 1, |cs|);
    forall i | 0 <= i < |cs| && cs[i].TableCell?
      ensures WidthBefore(cs, i) == i
    {
      if i < n {
        assert cs[i] == cells[i];
      } else {
        assert i == n;
      }
    }
  }

  /** Every row `parseTableRow` builds is column-aligned. */
  lemma RowColumnAligned(trElem: XNode)
    requires RowOf(trElem).Ok?
    ensures RowOf(trElem).value.TableRow?
    ensures ColumnAligned(RowOf(trElem).value.children)
  {
    forall cells, x | ColumnAligned(cells) && CellsStep(cells, x).Ok?
      ensures ColumnAligned(CellsStep(cells, x).value)
    {
      if IsElementNamed(x, "w:tc") {
        AlignedAppend(cells, CellOf(x).value);
      }
    }
    FoldTryKeeps([], Children(trElem), CellsStep, ColumnAligned);
  }
}
