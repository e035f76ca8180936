/** The property parsers of `dist/node/docx2ht.js`: each walks the element
    children of a `w:*Pr` element and fills one property record.  A property
    that several children set keeps the value of the last of them, so each
    record is specified field by field by the last child that sets that field
    (`LastNamed`, `LastSet`), and each loop is proved to compute it. */
module DocxProps {
  import opened Wrappers
  import opened Js
  import opened Xml
  import opened Elem

  // ---------------------------------------------------------------------------
  // The last child that sets a property

  /** The value the last child that sets a property leaves, where `f` says
      what a child sets (`None`: this child does not set it). */
  function LastSet<T>(kids: seq<XNode>, f: XNode -> Option<T>): Option<T>
  {
    if kids == [] then None
    else if f(kids[|kids| - 1]).Some? then f(kids[|kids| - 1])
    else LastSet(kids[..|kids| - 1], f)
  }

  lemma LastSetStep<T>(kids: seq<XNode>, i: nat, f: XNode -> Option<T>)
    requires i < |kids|
    ensures LastSet(kids[..i + 1], f) == if f(kids[i]).Some? then f(kids[i]) else LastSet(kids[..i], f)
  {
    assert kids[..i + 1][..i] == kids[..i];
  }

  /** The reading of `LastSet` as "last wins": its value is what some child
      sets and no later child sets anything; it is unset only when no child
      sets it. */
  lemma {:induction false} LastSetIsLast<T>(kids: seq<XNode>, f: XNode -> Option<T>)
    ensures LastSet(kids, f).Some? ==>
      exists i :: 0 <= i < |kids| && f(kids[i]) == LastSet(kids, f) && forall j :: i < j < |kids| ==> f(kids[j]).None?
    ensures LastSet(kids, f).None? <==> forall i :: 0 <= i < |kids| ==> f(kids[i]).None?
  {
    if kids != [] {
      var n := |kids| - 1;
      var init := kids[..n];
      LastSetIsLast(init, f);
      assert forall i :: 0 <= i < n ==> init[i] == kids[i];
      if f(kids[n]).Some? {
        assert f(kids[n]) == LastSet(kids, f);
      } else {
        assert LastSet(kids, f) == LastSet(init, f);
        if LastSet(init, f).Some? {
          var i :| 0 <= i < |init| && f(init[i]) == LastSet(init, f) && forall j :: i < j < |init| ==> f(init[j]).None?;
          assert f(kids[i]) == LastSet(kids, f);
          assert forall j :: i < j < |kids| ==> f(kids[j]).None? by {
            forall j | i < j < |kids|
              ensures f(kids[j]).None?
            {
              if j < n {
                assert f(init[j]).None?;
              }
            }
          }
        }
      }
    }
  }

  /** One attribute of the last element child with the tag. */
  function LastAttr(kids: seq<XNode>, tag: string, name: string): (r: Option<string>)
    ensures r.Some? <==> LastNamed(kids, tag).Some?
  {
    match LastNamed(kids, tag)
    case Some(e) => Some(Attr(e, name))
    case None => None
  }

  /** A sub-record parsed from the last child that holds it. */
  function MapSome<A, B>(o: Option<A>, f: A -> B): (r: Option<B>)
    ensures r.Some? <==> o.Some?
    ensures r.Some? ==> r.value == f(o.value)
  {
    match o
    case Some(x) => Some(f(x))
    case None => None
  }

  /** `parseInt` of one attribute of the last element child with the tag. */
  function LastNum(kids: seq<XNode>, tag: string, name: string): (r: Option<Num>)
    ensures r.Some? <==> LastNamed(kids, tag).Some?
  {
    match LastNamed(kids, tag)
    case Some(e) => Some(ParseInt(Attr(e, name)))
    case None => None
  }

  // ---------------------------------------------------------------------------
  // Leaf records

  /** `parseSpacingPr`. */
  function SpacingOf(e: XNode): (r: SpacingPr)
    ensures r.before == ParseInt(Attr(e, "w:before")) && r.after == ParseInt(Attr(e, "w:after"))
    ensures r.line == ParseInt(Attr(e, "w:line"))
  {
    SpacingPr(ParseInt(Attr(e, "w:before")), ParseInt(Attr(e, "w:after")), ParseInt(Attr(e, "w:line")))
  }

  /** `parseBorderPr`. */
  function BorderOf(e: XNode): (r: BorderPr)
    ensures r.style == Attr(e, "w:val") && r.width == ParseInt(Attr(e, "w:sz")) && r.color == Attr(e, "w:color")
  {
    BorderPr(Attr(e, "w:val"), ParseInt(Attr(e, "w:sz")), Attr(e, "w:color"))
  }

  /** `a || b` of two attribute strings. */
  function Or(a: string, b: string): (r: string)
    ensures r == (if a != "" then a else b)
  {
    if a != "" then a else b
  }

  /** `parseIdentPr`: `w:left` falls back to `w:start`, `w:right` to `w:end`. */
  function IndentOf(e: XNode): (r: IndentPr)
    ensures r.left == ParseInt(if Attr(e, "w:left") != "" then Attr(e, "w:left") else Attr(e, "w:start"))
    ensures r.right == ParseInt(if Attr(e, "w:right") != "" then Attr(e, "w:right") else Attr(e, "w:end"))
    ensures r.hanging == ParseInt(Attr(e, "w:hanging")) && r.firstLine == ParseInt(Attr(e, "w:firstLine"))
  {
    IndentPr(
      ParseInt(Or(Attr(e, "w:left"), Attr(e, "w:start"))),
      ParseInt(Or(Attr(e, "w:right"), Attr(e, "w:end"))),
      ParseInt(Attr(e, "w:hanging")),
      ParseInt(Attr(e, "w:firstLine")))
  }

  /** `parseTableFloatPr`. */
  function TblFloatOf(e: XNode): (r: TblFloatPr)
    ensures r.horizontalAnchor == Attr(e, "w:horzAnchor") && r.verticalAnchor == Attr(e, "w:vertAnchor")
  {
    TblFloatPr(Attr(e, "w:horzAnchor"), Attr(e, "w:vertAnchor"))
  }

  // ---------------------------------------------------------------------------
  // parseRunPR

  /** What a `w:rFonts` child sets: the `w:eastAsia` name, replaced by the
      `w:ascii` name when there is no East Asian one or the ASCII one is
      `Symbol`; nothing when neither applies. */
  function FontNameSet(x: XNode): (r: Option<string>)
    ensures r.Some? ==> IsElementNamed(x, "w:rFonts") && r.value != ""
    ensures r.Some? && r.value != Attr(x, "w:eastAsia") ==> r.value == Attr(x, "w:ascii")
  {
    if !IsElementNamed(x, "w:rFonts") then None
    else
      var eastAsia := Attr(x, "w:eastAsia");
      var ascii := Attr(x, "w:ascii");
      if ascii != "" && (eastAsia == "" || ascii == "Symbol") then Some(ascii)
      else if eastAsia != "" then Some(eastAsia)
      else None
  }

  /** What a `w:sz` or `w:szCs` child sets: its value, when it has one. */
  function FontSizeSet(x: XNode): (r: Option<Num>)
    ensures r.Some? <==> (IsElementNamed(x, "w:sz") || IsElementNamed(x, "w:szCs")) && Attr(x, "w:val") != ""
  {
    if (IsElementNamed(x, "w:sz") || IsElementNamed(x, "w:szCs")) && Attr(x, "w:val") != "" then
      Some(ParseInt(Attr(x, "w:val")))
    else None
  }

  /** The run properties a list of `w:rPr` children describes. */
  function RunPrOfChildren(kids: seq<XNode>): RunPr
  {
    RunPr(
      LastVal(kids, "w:pStyle"),
      MapSome(LastNamed(kids, "w:bdr"), BorderOf),
      LastVal(kids, "w:highlight"),
      LastAttr(kids, "w:shd", "w:fill"),
      LastSet(kids, FontNameSet),
      LastSet(kids, FontSizeSet),
      LastVal(kids, "w:color"),
      TextPr(
        LastNamed(kids, "w:b").Some?,
        LastNamed(kids, "w:i").Some?,
        LastNamed(kids, "w:u").Some?,
        LastVal(kids, "w:vertAlign")))
  }

  /** The run properties of an optional `w:rPr` element; none without one. */
  function RunPrOf(e: Option<XNode>): (r: Option<RunPr>)
    ensures r.Some? <==> e.Some?
  {
    match e
    case Some(x) => Some(RunPrOfChildren(Children(x)))
    case None => None
  }

  /** One pass of the `parseRunPR` loop: the child sets the field its tag
      names and leaves every other field as it was. */
  method RunPrChild(rPr: RunPr, textPr: TextPr, childNode: XNode) returns (rPrObj: RunPr, tPr: TextPr)
    ensures rPrObj.styleId == if IsElementNamed(childNode, "w:pStyle") then Some(Attr(childNode, "w:val")) else rPr.styleId
    ensures rPrObj.border == if IsElementNamed(childNode, "w:bdr") then Some(BorderOf(childNode)) else rPr.border
    ensures rPrObj.highlight == if IsElementNamed(childNode, "w:highlight") then Some(Attr(childNode, "w:val")) else rPr.highlight
    ensures rPrObj.shdFillColor == if IsElementNamed(childNode, "w:shd") then Some(Attr(childNode, "w:fill")) else rPr.shdFillColor
    ensures rPrObj.fontName == if FontNameSet(childNode).Some? then FontNameSet(childNode) else rPr.fontName
    ensures rPrObj.fontSize == if FontSizeSet(childNode).Some? then FontSizeSet(childNode) else rPr.fontSize
    ensures rPrObj.textColor == if IsElementNamed(childNode, "w:color") then Some(Attr(childNode, "w:val")) else rPr.textColor
    ensures tPr.bold == (IsElementNamed(childNode, "w:b") || textPr.bold)
    ensures tPr.italics == (IsElementNamed(childNode, "w:i") || textPr.italics)
    ensures tPr.underline == (IsElementNamed(childNode, "w:u") || textPr.underline)
    ensures tPr.vertAlign == if IsElementNamed(childNode, "w:vertAlign") then Some(Attr(childNode, "w:val")) else textPr.vertAlign
  {
    rPrObj, tPr := rPr, textPr;
    if childNode.Element? {
      match childNode.tag
      case "w:pStyle" => rPrObj := rPrObj.(styleId := Some(Attr(childNode, "w:val")));
      case "w:bdr" => rPrObj := rPrObj.(border := Some(BorderOf(childNode)));
      case "w:highlight" => rPrObj := rPrObj.(highlight := Some(Attr(childNode, "w:val")));
      case "w:shd" => rPrObj := rPrObj.(shdFillColor := Some(Attr(childNode, "w:fill")));
      case "w:rFonts" =>
        var fontName := Attr(childNode, "w:eastAsia");
        if fontName != "" {
          rPrObj := rPrObj.(fontName := Some(fontName));
        }
        var fontName2 := Attr(childNode, "w:ascii");
        if fontName2 != "" {
          if fontName == "" || fontName2 == "Symbol" {
            rPrObj := rPrObj.(fontName := Some(fontName2));
          }
        }
      case "w:sz" =>
        var fontSize := Attr(childNode, "w:val");
        if fontSize != "" {
          rPrObj := rPrObj.(fontSize := Some(ParseInt(fontSize)));
        }
      case "w:szCs" =>
        var fontSize := Attr(childNode, "w:val");
        if fontSize != "" {
          rPrObj := rPrObj.(fontSize := Some(ParseInt(fontSize)));
        }
      case "w:color" => rPrObj := rPrObj.(textColor := Some(Attr(childNode, "w:val")));
      case "w:b" => tPr := tPr.(bold := true);
      case "w:i" => tPr := tPr.(italics := true);
      case "w:u" => tPr := tPr.(underline := true);
      case "w:vertAlign" => tPr := tPr.(vertAlign := Some(Attr(childNode, "w:val")));
      case _ =>
    }
  }

  /** `parseRunPR`. */
  method ParseRunPR(runPrElem: Option<XNode>) returns (r: Option<RunPr>)
    ensures r == RunPrOf(runPrElem)
  {
    if runPrElem.None? {
      return None;
    }
    var kids := Children(runPrElem.value);
    var rPrObj := RunPr(None, None, None, None, None, None, None, TextPr(false, false, false, None));
    var textPr := TextPr(false, false, false, None);
    for i := 0 to |kids|
      invariant rPrObj.styleId == LastVal(kids[..i], "w:pStyle")
      invariant rPrObj.border == MapSome(LastNamed(kids[..i], "w:bdr"), BorderOf)
      invariant rPrObj.highlight == LastVal(kids[..i], "w:highlight")
      invariant rPrObj.shdFillColor == LastAttr(kids[..i], "w:shd", "w:fill")
      invariant rPrObj.fontName == LastSet(kids[..i], FontNameSet)
      invariant rPrObj.fontSize == LastSet(kids[..i], FontSizeSet)
      invariant rPrObj.textColor == LastVal(kids[..i], "w:color")
      invariant textPr.bold == LastNamed(kids[..i], "w:b").Some?
      invariant textPr.italics == LastNamed(kids[..i], "w:i").Some?
      invariant textPr.underline == LastNamed(kids[..i], "w:u").Some?
      invariant textPr.vertAlign == LastVal(kids[..i], "w:vertAlign")
    {
      LastNamedStep(kids, i, "w:pStyle");
      LastNamedStep(kids, i, "w:bdr");
      LastNamedStep(kids, i, "w:highlight");
      LastNamedStep(kids, i, "w:shd");
      LastSetStep(kids, i, FontNameSet);
      LastSetStep(kids, i, FontSizeSet);
      LastNamedStep(kids, i, "w:color");
      LastNamedStep(kids, i, "w:b");
      LastNamedStep(kids, i, "w:i");
      LastNamedStep(kids, i, "w:u");
      LastNamedStep(kids, i, "w:vertAlign");
      rPrObj, textPr := RunPrChild(rPrObj, textPr, kids[i]);
    }
    assert kids[..|kids|] == kids;
    rPrObj := rPrObj.(textPr := textPr);
    return Some(rPrObj);
  }

  // ---------------------------------------------------------------------------
  // parsePBorderPr, parseNumPr, parsePPR

  function PBorderOf(e: XNode): PBorderPr
  {
    var kids := Children(e);
    PBorderPr(
      MapSome(LastNamed(kids, "w:top"), BorderOf),
      MapSome(LastNamed(kids, "w:bottom"), BorderOf),
      MapSome(LastNamed(kids, "w:left"), BorderOf),
      MapSome(LastNamed(kids, "w:right"), BorderOf))
  }

  /** `parsePBorderPr`. */
  method ParsePBorderPr(pBorderElem: XNode) returns (pBorderPr: PBorderPr)
    ensures pBorderPr == PBorderOf(pBorderElem)
  {
    var kids := Children(pBorderElem);
    pBorderPr := PBorderPr(None, None, None, None);
    for i := 0 to |kids|
      invariant pBorderPr.top == MapSome(LastNamed(kids[..i], "w:top"), BorderOf)
      invariant pBorderPr.bottom == MapSome(LastNamed(kids[..i], "w:bottom"), BorderOf)
      invariant pBorderPr.left == MapSome(LastNamed(kids[..i], "w:left"), BorderOf)
      invariant pBorderPr.right == MapSome(LastNamed(kids[..i], "w:right"), BorderOf)
    {
      LastNamedStep(kids, i, "w:top");
      LastNamedStep(kids, i, "w:bottom");
      LastNamedStep(kids, i, "w:left");
      LastNamedStep(kids, i, "w:right");
      var childNode := kids[i];
      if childNode.Element? {
        match childNode.tag
        case "w:top" => pBorderPr := pBorderPr.(top := Some(BorderOf(childNode)));
        case "w:bottom" => pBorderPr := pBorderPr.(bottom := Some(BorderOf(childNode)));
        case "w:left" => pBorderPr := pBorderPr.(left := Some(BorderOf(childNode)));
        case "w:right" => pBorderPr := pBorderPr.(right := Some(BorderOf(childNode)));
        case _ =>
      }
    }
    assert kids[..|kids|] == kids;
  }

  function NumPrOf(e: XNode): NumPr
  {
    NumPr(LastVal(Children(e), "w:ilvl"), LastVal(Children(e), "w:numId"))
  }

  /** `parseNumPr`. */
  method ParseNumPr(numPrElem: XNode) returns (numPr: NumPr)
    ensures numPr == NumPrOf(numPrElem)
  {
    var kids := Children(numPrElem);
    numPr := NumPr(None, None);
    for i := 0 to |kids|
      invariant numPr.level == LastVal(kids[..i], "w:ilvl")
      invariant numPr.numId == LastVal(kids[..i], "w:numId")
    {
      LastNamedStep(kids, i, "w:ilvl");
      LastNamedStep(kids, i, "w:numId");
      var childNode := kids[i];
      if childNode.Element? {
        match childNode.tag
        case "w:ilvl" => numPr := numPr.(level := Some(Attr(childNode, "w:val")));
        case "w:numId" => numPr := numPr.(numId := Some(Attr(childNode, "w:val")));
        case _ =>
      }
    }
    assert kids[..|kids|] == kids;
  }

  function RunPrOfElement(e: XNode): RunPr
  {
    RunPrOfChildren(Children(e))
  }

  /** The paragraph properties a list of `w:pPr` children describes. */
  function PPrOfChildren(kids: seq<XNode>): ParagraphPr
  {
    ParagraphPr(
      LastVal(kids, "w:pStyle"),
      MapSome(LastNamed(kids, "w:spacing"), SpacingOf),
      LastVal(kids, "w:jc"),
      MapSome(LastNamed(kids, "w:ind"), IndentOf),
      MapSome(LastNamed(kids, "w:pBdr"), PBorderOf),
      MapSome(LastNamed(kids, "w:rPr"), RunPrOfElement),
      MapSome(LastNamed(kids, "w:numPr"), NumPrOf))
  }

  /** The paragraph properties of an optional `w:pPr` element. */
  function PPrOf(e: Option<XNode>): (r: Option<ParagraphPr>)
    ensures r.Some? <==> e.Some?
  {
    MapSome(MapSome(e, Children), PPrOfChildren)
  }

  /** One pass of the `parsePPR` loop. */
  method PPrChild(pPr: ParagraphPr, childNode: XNode) returns (pPrObj: ParagraphPr)
    ensures pPrObj.styleId == if IsElementNamed(childNode, "w:pStyle") then Some(Attr(childNode, "w:val")) else pPr.styleId
    ensures pPrObj.spacing == if IsElementNamed(childNode, "w:spacing") then Some(SpacingOf(childNode)) else pPr.spacing
    ensures pPrObj.textAlign == if IsElementNamed(childNode, "w:jc") then Some(Attr(childNode, "w:val")) else pPr.textAlign
    ensures pPrObj.ident == if IsElementNamed(childNode, "w:ind") then Some(IndentOf(childNode)) else pPr.ident
    ensures pPrObj.border == if IsElementNamed(childNode, "w:pBdr") then Some(PBorderOf(childNode)) else pPr.border
    ensures pPrObj.runPr == if IsElementNamed(childNode, "w:rPr") then Some(RunPrOfElement(childNode)) else pPr.runPr
    ensures pPrObj.numPr == if IsElementNamed(childNode, "w:numPr") then Some(NumPrOf(childNode)) else pPr.numPr
  {
    pPrObj := pPr;
    if childNode.Element? {
      match childNode.tag
      case "w:pStyle" => pPrObj := pPrObj.(styleId := Some(Attr(childNode, "w:val")));
      case "w:spacing" => pPrObj := pPrObj.(spacing := Some(SpacingOf(childNode)));
      case "w:jc" => pPrObj := pPrObj.(textAlign := Some(Attr(childNode, "w:val")));
      case "w:ind" => pPrObj := pPrObj.(ident := Some(IndentOf(childNode)));
      case "w:pBdr" =>
        var border := ParsePBorderPr(childNode);
        pPrObj := pPrObj.(border := Some(border));
      case "w:rPr" =>
        var runPr := ParseRunPR(Some(childNode));
        pPrObj := pPrObj.(runPr := runPr);
      case "w:numPr" =>
        var numPr := ParseNumPr(childNode);
        pPrObj := pPrObj.(numPr := Some(numPr));
      case _ =>
    }
  }

  /** `parsePPR`. */
  method ParsePPR(pPrElem: Option<XNode>) returns (r: Option<ParagraphPr>)
    ensures r == PPrOf(pPrElem)
  {
    if pPrElem.None? {
      return None;
    }
    var kids := Children(pPrElem.value);
    var pPrObj := ParagraphPr(None, None, None, None, None, None, None);
    for i := 0 to |kids|
      invariant pPrObj.styleId == LastVal(kids[..i], "w:pStyle")
      invariant pPrObj.spacing == MapSome(LastNamed(kids[..i], "w:spacing"), SpacingOf)
      invariant pPrObj.textAlign == LastVal(kids[..i], "w:jc")
      invariant pPrObj.ident == MapSome(LastNamed(kids[..i], "w:ind"), IndentOf)
      invariant pPrObj.border == MapSome(LastNamed(kids[..i], "w:pBdr"), PBorderOf)
      invariant pPrObj.runPr == MapSome(LastNamed(kids[..i], "w:rPr"), RunPrOfElement)
      invariant pPrObj.numPr == MapSome(LastNamed(kids[..i], "w:numPr"), NumPrOf)
    {
      LastNamedStep(kids, i, "w:pStyle");
      LastNamedStep(kids, i, "w:spacing");
      LastNamedStep(kids, i, "w:jc");
      LastNamedStep(kids, i, "w:ind");
      LastNamedStep(kids, i, "w:pBdr");
      LastNamedStep(kids, i, "w:rPr");
      LastNamedStep(kids, i, "w:numPr");
      pPrObj := PPrChild(pPrObj, kids[i]);
    }
    assert kids[..|kids|] == kids;
    return Some(pPrObj);
  }

  // ---------------------------------------------------------------------------
  // parseTableCellPr, parseTableRowPr

  /** A `w:vMerge` without a value continues the merge above. */
  function VMergeValue(e: XNode): (v: string)
    ensures v != ""
    ensures Attr(e, "w:val") == "" ==> v == "continue"
    ensures Attr(e, "w:val") != "" ==> v == Attr(e, "w:val")
  {
    Or(Attr(e, "w:val"), "continue")
  }

  function CellPrOfChildren(kids: seq<XNode>): TableCellPr
  {
    TableCellPr(
      LastNum(kids, "w:tcW", "w:w"),
      LastVal(kids, "w:vAlign"),
      LastNum(kids, "w:gridSpan", "w:val"),
      MapSome(LastNamed(kids, "w:vMerge"), VMergeValue),
      None)
  }

  /** The cell properties of an optional `w:tcPr` element. */
  function CellPrOf(e: Option<XNode>): (r: Option<TableCellPr>)
    ensures r.Some? <==> e.Some?
  {
    MapSome(MapSome(e, Children), CellPrOfChildren)
  }

  /** `parseTableCellPr`. */
  method ParseTableCellPr(tcPrElem: Option<XNode>) returns (r: Option<TableCellPr>)
    ensures r == CellPrOf(tcPrElem)
  {
    if tcPrElem.None? {
      return None;
    }
    var kids := Children(tcPrElem.value);
    var tcPrObj := TableCellPr(None, None, None, None, None);
    for i := 0 to |kids|
      invariant tcPrObj.width == LastNum(kids[..i], "w:tcW", "w:w")
      invariant tcPrObj.vAlign == LastVal(kids[..i], "w:vAlign")
      invariant tcPrObj.gridSpan == LastNum(kids[..i], "w:gridSpan", "w:val")
      invariant tcPrObj.vMerge == MapSome(LastNamed(kids[..i], "w:vMerge"), VMergeValue)
      invariant tcPrObj.rowSpan.None?
    {
      LastNamedStep(kids, i, "w:tcW");
      LastNamedStep(kids, i, "w:vAlign");
      LastNamedStep(kids, i, "w:gridSpan");
      LastNamedStep(kids, i, "w:vMerge");
      var childNode := kids[i];
      if childNode.Element? {
        match childNode.tag
        case "w:tcW" => tcPrObj := tcPrObj.(width := Some(ParseInt(Attr(childNode, "w:w"))));
        case "w:vAlign" => tcPrObj := tcPrObj.(vAlign := Some(Attr(childNode, "w:val")));
        case "w:gridSpan" => tcPrObj := tcPrObj.(gridSpan := Some(ParseInt(Attr(childNode, "w:val"))));
        case "w:vMerge" => tcPrObj := tcPrObj.(vMerge := Some(Or(Attr(childNode, "w:val"), "continue")));
        case _ =>
      }
    }
    assert kids[..|kids|] == kids;
    return Some(tcPrObj);
  }

  function RowPrOfChildren(kids: seq<XNode>): TableRowPr
  {
    TableRowPr(LastNamed(kids, "w:tblHeader").Some?, LastNum(kids, "w:trHeight", "w:val"), LastVal(kids, "w:jc"))
  }

  /** The row properties of an optional `w:trPr` element. */
  function RowPrOf(e: Option<XNode>): (r: Option<TableRowPr>)
    ensures r.Some? <==> e.Some?
  {
    MapSome(MapSome(e, Children), RowPrOfChildren)
  }

  /** `parseTableRowPr`. */
  method ParseTableRowPr(trPrElem: Option<XNode>) returns (r: Option<TableRowPr>)
    ensures r == RowPrOf(trPrElem)
  {
    if trPrElem.None? {
      return None;
    }
    var kids := Children(trPrElem.value);
    var trPrObj := TableRowPr(false, None, None);
    for i := 0 to |kids|
      invariant trPrObj.tblHeader == LastNamed(kids[..i], "w:tblHeader").Some?
      invariant trPrObj.height == LastNum(kids[..i], "w:trHeight", "w:val")
      invariant trPrObj.hAlign == LastVal(kids[..i], "w:jc")
    {
      LastNamedStep(kids, i, "w:tblHeader");
      LastNamedStep(kids, i, "w:trHeight");
      LastNamedStep(kids, i, "w:jc");
      var childNode := kids[i];
      if childNode.Element? {
        match childNode.tag
        case "w:tblHeader" => trPrObj := trPrObj.(tblHeader := true);
        case "w:trHeight" => trPrObj := trPrObj.(height := Some(ParseInt(Attr(childNode, "w:val"))));
        case "w:jc" => trPrObj := trPrObj.(hAlign := Some(Attr(childNode, "w:val")));
        case _ =>
      }
    }
    assert kids[..|kids|] == kids;
    return Some(trPrObj);
  }

  // ---------------------------------------------------------------------------
  // parseTableBorderPr, parseTableCellMarPr, parseTablePR

  /** A `w:left` or `w:start` edge (and `w:right` or `w:end`): the two
      spellings of one side. */
  predicate IsLeftEdge(x: XNode)
  {
    IsElementNamed(x, "w:left") || IsElementNamed(x, "w:start")
  }

  predicate IsRightEdge(x: XNode)
  {
    IsElementNamed(x, "w:right") || IsElementNamed(x, "w:end")
  }

  function LeftBorderSet(x: XNode): (r: Option<BorderPr>)
    ensures r.Some? <==> IsLeftEdge(x)
  {
    if IsLeftEdge(x) then Some(BorderOf(x)) else None
  }

  function RightBorderSet(x: XNode): (r: Option<BorderPr>)
    ensures r.Some? <==> IsRightEdge(x)
  {
    if IsRightEdge(x) then Some(BorderOf(x)) else None
  }

  function TblBorderOf(e: XNode): TblBorderPr
  {
    var kids := Children(e);
    TblBorderPr(
      MapSome(LastNamed(kids, "w:top"), BorderOf),
      MapSome(LastNamed(kids, "w:bottom"), BorderOf),
      LastSet(kids, LeftBorderSet),
      LastSet(kids, RightBorderSet),
      MapSome(LastNamed(kids, "w:insideH"), BorderOf),
      MapSome(LastNamed(kids, "w:insideV"), BorderOf))
  }

  /** One pass of the `parseTableBorderPr` loop. */
  method TblBorderChild(b: TblBorderPr, childNode: XNode) returns (tblBorderPr: TblBorderPr)
    ensures tblBorderPr.top == if IsElementNamed(childNode, "w:top") then Some(BorderOf(childNode)) else b.top
    ensures tblBorderPr.bottom == if IsElementNamed(childNode, "w:bottom") then Some(BorderOf(childNode)) else b.bottom
    ensures tblBorderPr.left == if IsLeftEdge(childNode) then Some(BorderOf(childNode)) else b.left
    ensures tblBorderPr.right == if IsRightEdge(childNode) then Some(BorderOf(childNode)) else b.right
    ensures tblBorderPr.insideH == if IsElementNamed(childNode, "w:insideH") then Some(BorderOf(childNode)) else b.insideH
    ensures tblBorderPr.insideV == if IsElementNamed(childNode, "w:insideV") then Some(BorderOf(childNode)) else b.insideV
  {
    tblBorderPr := b;
    if childNode.Element? {
      match childNode.tag
      case "w:top" => tblBorderPr := tblBorderPr.(top := Some(BorderOf(childNode)));
      case "w:bottom" => tblBorderPr := tblBorderPr.(bottom := Some(BorderOf(childNode)));
      case "w:left" => tblBorderPr := tblBorderPr.(left := Some(BorderOf(childNode)));
      case "w:start" => tblBorderPr := tblBorderPr.(left := Some(BorderOf(childNode)));
      case "w:right" => tblBorderPr := tblBorderPr.(right := Some(BorderOf(childNode)));
      case "w:end" => tblBorderPr := tblBorderPr.(right := Some(BorderOf(childNode)));
      case "w:insideH" => tblBorderPr := tblBorderPr.(insideH := Some(BorderOf(childNode)));
      case "w:insideV" => tblBorderPr := tblBorderPr.(insideV := Some(BorderOf(childNode)));
      case _ =>
    }
  }

  /** `parseTableBorderPr`. */
  method ParseTableBorderPr(tblBorderElem: XNode) returns (tblBorderPr: TblBorderPr)
    ensures tblBorderPr == TblBorderOf(tblBorderElem)
  {
    var kids := Children(tblBorderElem);
    tblBorderPr := TblBorderPr(None, None, None, None, None, None);
    for i := 0 to |kids|
      invariant tblBorderPr.top == MapSome(LastNamed(kids[..i], "w:top"), BorderOf)
      invariant tblBorderPr.bottom == MapSome(LastNamed(kids[..i], "w:bottom"), BorderOf)
      invariant tblBorderPr.left == LastSet(kids[..i], LeftBorderSet)
      invariant tblBorderPr.right == LastSet(kids[..i], RightBorderSet)
      invariant tblBorderPr.insideH == MapSome(LastNamed(kids[..i], "w:insideH"), BorderOf)
      invariant tblBorderPr.insideV == MapSome(LastNamed(kids[..i], "w:insideV"), BorderOf)
    {
      LastNamedStep(kids, i, "w:top");
      LastNamedStep(kids, i, "w:bottom");
      LastSetStep(kids, i, LeftBorderSet);
      LastSetStep(kids, i, RightBorderSet);
      LastNamedStep(kids, i, "w:insideH");
      LastNamedStep(kids, i, "w:insideV");
      tblBorderPr := TblBorderChild(tblBorderPr, kids[i]);
    }
    assert kids[..|kids|] == kids;
  }

  function LeftMarginSet(x: XNode): (r: Option<Num>)
    ensures r.Some? <==> IsLeftEdge(x)
  {
    if IsLeftEdge(x) then Some(ParseInt(Attr(x, "w:w"))) else None
  }

  function RightMarginSet(x: XNode): (r: Option<Num>)
    ensures r.Some? <==> IsRightEdge(x)
  {
    if IsRightEdge(x) then Some(ParseInt(Attr(x, "w:w"))) else None
  }

  function CellMarginOf(e: XNode): TblCellMarginPr
  {
    var kids := Children(e);
    TblCellMarginPr(
      LastNum(kids, "w:top", "w:w"),
      LastNum(kids, "w:bottom", "w:w"),
      LastSet(kids, LeftMarginSet),
      LastSet(kids, RightMarginSet))
  }

  /** `parseTableCellMarPr`. */
  method ParseTableCellMarPr(tblCellMarElem: XNode) returns (tblCellMarPr: TblCellMarginPr)
    ensures tblCellMarPr == CellMarginOf(tblCellMarElem)
  {
    var kids := Children(tblCellMarElem);
    tblCellMarPr := TblCellMarginPr(None, None, None, None);
    for i := 0 to |kids|
      invariant tblCellMarPr.top == LastNum(kids[..i], "w:top", "w:w")
      invariant tblCellMarPr.bottom == LastNum(kids[..i], "w:bottom", "w:w")
      invariant tblCellMarPr.left == LastSet(kids[..i], LeftMarginSet)
      invariant tblCellMarPr.right == LastSet(kids[..i], RightMarginSet)
    {
      LastNamedStep(kids, i, "w:top");
      LastNamedStep(kids, i, "w:bottom");
      LastSetStep(kids, i, LeftMarginSet);
      LastSetStep(kids, i, RightMarginSet);
      var childNode := kids[i];
      if childNode.Element? {
        var val := Attr(childNode, "w:w");
        match childNode.tag
        case "w:top" => tblCellMarPr := tblCellMarPr.(top := Some(ParseInt(val)));
        case "w:bottom" => tblCellMarPr := tblCellMarPr.(bottom := Some(ParseInt(val)));
        case "w:left" => tblCellMarPr := tblCellMarPr.(left := Some(ParseInt(val)));
        case "w:start" => tblCellMarPr := tblCellMarPr.(left := Some(ParseInt(val)));
        case "w:right" => tblCellMarPr := tblCellMarPr.(right := Some(ParseInt(val)));
        case "w:end" => tblCellMarPr := tblCellMarPr.(right := Some(ParseInt(val)));
        case _ =>
      }
    }
    assert kids[..|kids|] == kids;
  }

  /** A `w:tblW` is a width only in twentieths of a point (`dxa`); any other
      unit reads as 0. */
  function TblWidthOf(e: XNode): (w: Num)
    ensures Attr(e, "w:type") != "dxa" ==> w == Int(0)
    ensures Attr(e, "w:type") == "dxa" ==> w == ParseInt(Attr(e, "w:w"))
  {
    if Attr(e, "w:type") == "dxa" then ParseInt(Attr(e, "w:w")) else Int(0)
  }

  function TablePrOfChildren(kids: seq<XNode>): TablePr
  {
    TablePr(
      LastVal(kids, "w:pStyle"),
      MapSome(LastNamed(kids, "w:tblW"), TblWidthOf),
      LastVal(kids, "w:jc"),
      MapSome(LastNamed(kids, "w:tblBorders"), TblBorderOf),
      MapSome(LastNamed(kids, "w:tblCellMar"), CellMarginOf),
      LastNum(kids, "w:tblCellSpacing", "w:w"),
      MapSome(LastNamed(kids, "w:tblpPr"), TblFloatOf))
  }

  /** The table properties of an optional `w:tblPr` element. */
  function TablePrOf(e: Option<XNode>): (r: Option<TablePr>)
    ensures r.Some? <==> e.Some?
  {
    MapSome(MapSome(e, Children), TablePrOfChildren)
  }

  /** One pass of the `parseTablePR` loop. */
  method TablePrChild(t: TablePr, childNode: XNode) returns (tblPrObj: TablePr)
    ensures tblPrObj.styleId == if IsElementNamed(childNode, "w:pStyle") then Some(Attr(childNode, "w:val")) else t.styleId
    ensures tblPrObj.width == if IsElementNamed(childNode, "w:tblW") then Some(TblWidthOf(childNode)) else t.width
    ensures tblPrObj.alignment == if IsElementNamed(childNode, "w:jc") then Some(Attr(childNode, "w:val")) else t.alignment
    ensures tblPrObj.border == if IsElementNamed(childNode, "w:tblBorders") then Some(TblBorderOf(childNode)) else t.border
    ensures tblPrObj.cellMargin == if IsElementNamed(childNode, "w:tblCellMar") then Some(CellMarginOf(childNode)) else t.cellMargin
    ensures tblPrObj.cellSpacing == if IsElementNamed(childNode, "w:tblCellSpacing") then Some(ParseInt(Attr(childNode, "w:w"))) else t.cellSpacing
    ensures tblPrObj.floatPr == if IsElementNamed(childNode, "w:tblpPr") then Some(TblFloatOf(childNode)) else t.floatPr
  {
    tblPrObj := t;
    if childNode.Element? {
      match childNode.tag
      case "w:pStyle" => tblPrObj := tblPrObj.(styleId := Some(Attr(childNode, "w:val")));
      case "w:tblW" =>
        var tblW := Int(0);
        if Attr(childNode, "w:type") == "dxa" {
          tblW := ParseInt(Attr(childNode, "w:w"));
        }
        tblPrObj := tblPrObj.(width := Some(tblW));
      case "w:jc" => tblPrObj := tblPrObj.(alignment := Some(Attr(childNode, "w:val")));
      case "w:tblBorders" =>
        var border := ParseTableBorderPr(childNode);
        tblPrObj := tblPrObj.(border := Some(border));
      case "w:tblCellMar" =>
        var cellMargin := ParseTableCellMarPr(childNode);
        tblPrObj := tblPrObj.(cellMargin := Some(cellMargin));
      case "w:tblCellSpacing" => tblPrObj := tblPrObj.(cellSpacing := Some(ParseInt(Attr(childNode, "w:w"))));
      case "w:tblpPr" => tblPrObj := tblPrObj.(floatPr := Some(TblFloatOf(childNode)));
      case _ =>
    }
  }

  /** `parseTablePR`. */
  method ParseTablePR(tblPrElem: Option<XNode>) returns (r: Option<TablePr>)
    ensures r == TablePrOf(tblPrElem)
  {
    if tblPrElem.None? {
      return None;
    }
    var kids := Children(tblPrElem.value);
    var tblPrObj := TablePr(None, None, None, None, None, None, None);
    for i := 0 to |kids|
      invariant tblPrObj.styleId == LastVal(kids[..i], "w:pStyle")
      invariant tblPrObj.width == MapSome(LastNamed(kids[..i], "w:tblW"), TblWidthOf)
      invariant tblPrObj.alignment == LastVal(kids[..i], "w:jc")
      invariant tblPrObj.border == MapSome(LastNamed(kids[..i], "w:tblBorders"), TblBorderOf)
      invariant tblPrObj.cellMargin == MapSome(LastNamed(kids[..i], "w:tblCellMar"), CellMarginOf)
      invariant tblPrObj.cellSpacing == LastNum(kids[..i], "w:tblCellSpacing", "w:w")
      invariant tblPrObj.floatPr == MapSome(LastNamed(kids[..i], "w:tblpPr"), TblFloatOf)
    {
      LastNamedStep(kids, i, "w:pStyle");
      LastNamedStep(kids, i, "w:tblW");
      LastNamedStep(kids, i, "w:jc");
      LastNamedStep(kids, i, "w:tblBorders");
      LastNamedStep(kids, i, "w:tblCellMar");
      LastNamedStep(kids, i, "w:tblCellSpacing");
      LastNamedStep(kids, i, "w:tblpPr");
      tblPrObj := TablePrChild(tblPrObj, kids[i]);
    }
    assert kids[..|kids|] == kids;
    return Some(tblPrObj);
  }

  // ---------------------------------------------------------------------------
  // The anchor loop of parseDrawing

  /** What a `wp:wrap*` child of an anchor sets: the wrapping mode its tag
      names. */
  function WrapSet(x: XNode): (r: Option<string>)
    ensures r.Some? ==> x.Element? && x.tag == "wp:" + r.value
  {
    if !x.Element? then None
    else
      match x.tag
      case "wp:wrapNone" => Some("wrapNone")
      case "wp:wrapSquare" => Some("wrapSquare")
      case "wp:wrapThrough" => Some("wrapThrough")
      case "wp:wrapTight" => Some("wrapTight")
      case "wp:wrapTopAndBottom" => Some("wrapTopAndBottom")
      case _ => None
  }

  /** The placement a `wp:anchor` element describes. */
  function AnchorFloatOf(e: XNode): FloatPr
  {
    var kids := Children(e);
    FloatPr(
      LastAttr(kids, "wp:positionH", "relativeFrom"),
      LastAttr(kids, "wp:positionV", "relativeFrom"),
      LastSet(kids, WrapSet))
  }

  /** The loop of `parseDrawing` over the children of `wp:anchor`. */
  method ParseAnchorFloat(wpAnchor: XNode) returns (floatPr: FloatPr)
    ensures floatPr == AnchorFloatOf(wpAnchor)
  {
    var kids := Children(wpAnchor);
    floatPr := FloatPr(None, None, None);
    for i := 0 to |kids|
      invariant floatPr.horizontalPosition == LastAttr(kids[..i], "wp:positionH", "relativeFrom")
      invariant floatPr.verticalPosition == LastAttr(kids[..i], "wp:positionV", "relativeFrom")
      invariant floatPr.textWrap == LastSet(kids[..i], WrapSet)
    {
      LastNamedStep(kids, i, "wp:positionH");
      LastNamedStep(kids, i, "wp:positionV");
      LastSetStep(kids, i, WrapSet);
      var childNode := kids[i];
      if childNode.Element? {
        match childNode.tag
        case "wp:positionH" => floatPr := floatPr.(horizontalPosition := Some(Attr(childNode, "relativeFrom")));
        case "wp:positionV" => floatPr := floatPr.(verticalPosition := Some(Attr(childNode, "relativeFrom")));
        case "wp:wrapNone" => floatPr := floatPr.(textWrap := Some("wrapNone"));
        case "wp:wrapSquare" => floatPr := floatPr.(textWrap := Some("wrapSquare"));
        case "wp:wrapThrough" => floatPr := floatPr.(textWrap := Some("wrapThrough"));
        case "wp:wrapTight" => floatPr := floatPr.(textWrap := Some("wrapTight"));
        case "wp:wrapTopAndBottom" => floatPr := floatPr.(textWrap := Some("wrapTopAndBottom"));
        case _ =>
      }
    }
    assert kids[..|kids|] == kids;
  }
}
