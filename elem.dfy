/** The simplified document tree the converter builds from a docx package
    (`src/elem.js`): the property records the parsers fill in, the
    components, `addChild`, the unit conversions, the style dictionary the
    `toHTElem` methods fill, the border setters and the rowspan pass of
    `Table.toHTElem`. */
module Elem {
  import opened Wrappers
  import opened Js
  import opened Xml
  import Tables

  // ---------------------------------------------------------------------------
  // Values

  /** A property the resolver fills in later: absent (undefined), null, or a
      string. */
  datatype Val = Undefined | Null | Str(s: string)
  {
    predicate Truthy()
    {
      Str? && s != ""
    }

    /** What `setAttribute` stores: the value converted to a string. */
    function Text(): string
    {
      match this
      case Undefined => "undefined"
      case Null => "null"
      case Str(s) => s
    }
  }

  /** JavaScript truthiness of a string property that may be unset. */
  predicate Filled(o: Option<string>)
  {
    o.Some? && o.value != ""
  }

  /** JavaScript truthiness of a number property that may be unset. */
  predicate NonZero(o: Option<Num>)
  {
    o.Some? && o.value.Truthy()
  }

  /** `String(n)` of a number. */
  function NumText(n: Num): string
  {
    if n.Int? then DecimalString(n.value) else "NaN"
  }

  // ---------------------------------------------------------------------------
  // Property records (the `SpacingPr`, `BorderPr`, ... key sets)

  datatype SpacingPr = SpacingPr(before: Num, after: Num, line: Num)

  datatype BorderPr = BorderPr(style: string, width: Num, color: string)

  datatype TextPr = TextPr(bold: bool, italics: bool, underline: bool, vertAlign: Option<string>)

  datatype RunPr = RunPr(
    styleId: Option<string>,
    border: Option<BorderPr>,
    highlight: Option<string>,
    shdFillColor: Option<string>,
    fontName: Option<string>,
    fontSize: Option<Num>,
    textColor: Option<string>,
    textPr: TextPr)

  /** The placement of an anchored (floating) drawing. */
  datatype FloatPr = FloatPr(horizontalPosition: Option<string>, verticalPosition: Option<string>, textWrap: Option<string>)

  /** `floatPr` is `None` both for an inline drawing (where the source
      stores null) and when the key is unset; `title` is never set by the
      parser. */
  datatype DrawingPr = DrawingPr(
    floatPr: Option<FloatPr>,
    title: Option<string>,
    cx: Option<Num>,
    cy: Option<Num>,
    imgRId: string,
    imgSrc: Val)

  datatype ObjectPr = ObjectPr(
    shapeId: string,
    shapeStyle: string,
    imgRId: string,
    oleProgId: string,
    oleShapeId: string,
    oleRId: string,
    imgSrc: Val,
    latex: Val)

  datatype IndentPr = IndentPr(left: Num, right: Num, hanging: Num, firstLine: Num)

  datatype PBorderPr = PBorderPr(top: Option<BorderPr>, bottom: Option<BorderPr>, left: Option<BorderPr>, right: Option<BorderPr>)

  datatype NumPr = NumPr(level: Option<string>, numId: Option<string>)

  datatype ParagraphPr = ParagraphPr(
    styleId: Option<string>,
    spacing: Option<SpacingPr>,
    textAlign: Option<string>,
    ident: Option<IndentPr>,
    border: Option<PBorderPr>,
    runPr: Option<RunPr>,
    numPr: Option<NumPr>)

  datatype TblBorderPr = TblBorderPr(
    top: Option<BorderPr>, bottom: Option<BorderPr>, left: Option<BorderPr>, right: Option<BorderPr>,
    insideH: Option<BorderPr>, insideV: Option<BorderPr>)

  datatype TblCellMarginPr = TblCellMarginPr(top: Option<Num>, bottom: Option<Num>, left: Option<Num>, right: Option<Num>)

  datatype TblFloatPr = TblFloatPr(horizontalAnchor: string, verticalAnchor: string)

  datatype TablePr = TablePr(
    styleId: Option<string>,
    width: Option<Num>,
    alignment: Option<string>,
    border: Option<TblBorderPr>,
    cellMargin: Option<TblCellMarginPr>,
    cellSpacing: Option<Num>,
    floatPr: Option<TblFloatPr>)

  datatype TableRowPr = TableRowPr(tblHeader: bool, height: Option<Num>, hAlign: Option<string>)

  datatype TableCellPr = TableCellPr(
    width: Option<Num>,
    vAlign: Option<string>,
    gridSpan: Option<Num>,
    vMerge: Option<string>,
    rowSpan: Option<int>)

  // ---------------------------------------------------------------------------
  // Components

  /** A node of the simplified tree.  `Placeholder` is the empty object a
      table cell spanning several grid columns leaves in its row;
      `OMath` carries the `m:oMath` element whose markup it keeps. */
  datatype Comp =
    | Document(children: seq<Comp>)
    | Body(children: seq<Comp>)
    | Paragraph(pPr: Option<ParagraphPr>, children: seq<Comp>)
    | Run(rPr: Option<RunPr>, children: seq<Comp>)
    | TextRun(textContent: string)
    | SPCharRun(spChar: string)
    | DrawingRun(drawingPr: DrawingPr)
    | ObjectRun(objectPr: ObjectPr)
    | HyperLink(children: seq<Comp>)
    | OMath(omml: XNode)
    | Table(tblPr: Option<TablePr>, children: seq<Comp>)
    | TableRow(trPr: Option<TableRowPr>, children: seq<Comp>)
    | TableCell(tcPr: Option<TableCellPr>, children: seq<Comp>)
    | Placeholder

  /** The components that hold children. */
  predicate IsContainer(c: Comp)
  {
    c.Document? || c.Body? || c.Paragraph? || c.Run? || c.HyperLink? || c.Table? || c.TableRow? || c.TableCell?
  }

  /** `children`, read as empty while it is still null. */
  function Kids(c: Comp): (r: seq<Comp>)
    ensures r != [] ==> IsContainer(c)
  {
    if IsContainer(c) then c.children else []
  }

  /** `HTComponent.addChild`: the child goes at the end and nothing else
      changes. */
  function AddChild(c: Comp, child: Comp): (r: Comp)
    requires IsContainer(c)
    ensures IsContainer(r) && Kids(r) == Kids(c) + [child]
    ensures r.(children := c.children) == c
  {
    c.(children := c.children + [child])
  }

  /** The number of components in a tree. */
  function Size(c: Comp): nat
    decreases c, 1
  {
    if IsContainer(c) then 1 + SizeAll(c.children) else 2
  }

  function SizeAll(cs: seq<Comp>): (n: nat)
    ensures n >= 1
    decreases cs, 0
  {
    if cs == [] then 1 else Size(cs[0]) + SizeAll(cs[1..])
  }

  lemma {:induction false} SizeAllPointwise(a: seq<Comp>, b: seq<Comp>)
    requires |a| == |b|
    requires forall i :: 0 <= i < |a| ==> Size(a[i]) == Size(b[i])
    ensures SizeAll(a) == SizeAll(b)
    decreases |a|
  {
    if a != [] {
      SizeAllPointwise(a[1..], b[1..]);
    }
  }

  // ---------------------------------------------------------------------------
  // Unit conversions

  /** `dxa2PxNum`: twentieths of a point to pixels, `Math.floor(dxa / 15)`. */
  function Dxa2PxNum(dxa: Num): (px: Num)
    ensures px.Int? <==> dxa.Int?
    ensures px.Int? ==> 15 * px.value <= dxa.value < 15 * px.value + 15
  {
    if dxa.Int? then Int(dxa.value / 15) else NaN
  }

  /** `emu2PxNum`: English metric units to pixels, `Math.floor(emu / 9525)`. */
  function Emu2PxNum(emu: Num): (px: Num)
    ensures px.Int? <==> emu.Int?
    ensures px.Int? ==> 9525 * px.value <= emu.value < 9525 * px.value + 9525
  {
    if emu.Int? then Int(emu.value / 9525) else NaN
  }

  /** An unset number read as a number is NaN. */
  function OrNaN(o: Option<Num>): Num
  {
    if o.Some? then o.value else NaN
  }

  /** `fontSZ2PX`: half-points to pixels, by the table where it has an
      entry, else 33 above 50 and 14 below. */
  function FontSz2Px(fontSize: Num): (px: int)
    ensures fontSize.Int? && 14 <= fontSize.value <= 50 ==> px == 2 * fontSize.value / 3
    ensures fontSize.Int? && fontSize.value > 50 ==> px == 33
    ensures !(fontSize.Int? && fontSize.value >= 14) ==> px == 14
  {
    if fontSize.Int? then
      Tables.Sz2PxEntry(fontSize.value);
      match Tables.Sz2PxTab(fontSize.value)
      case Some(px) => px
      case None => if fontSize.value > 50 then 33 else 14
    else 14
  }

  // ---------------------------------------------------------------------------
  // The style dictionary

  /** A `styles` object: CSS property names and values in insertion order. */
  type StyleMap = seq<(string, string)>

  function StyleGet(st: StyleMap, k: string): (v: Option<string>)
    ensures v.Some? ==> (k, v.value) in st
  {
    if st == [] then None else if st[0].0 == k then Some(st[0].1) else StyleGet(st[1..], k)
  }

  function StyleKeys(st: StyleMap): (ks: seq<string>)
    ensures |ks| == |st|
    ensures forall i :: 0 <= i < |st| ==> ks[i] == st[i].0
  {
    if st == [] then [] else [st[0].0] + StyleKeys(st[1..])
  }

  /** `styles[k] = v`: a new property goes last, an existing one keeps its
      place and takes the new value. */
  function SetStyle(st: StyleMap, k: string, v: string): (r: StyleMap)
    ensures StyleGet(r, k) == Some(v)
    ensures forall k' :: k' != k ==> StyleGet(r, k') == StyleGet(st, k')
    ensures StyleGet(st, k).Some? ==> StyleKeys(r) == StyleKeys(st)
    ensures StyleGet(st, k).None? ==> r == st + [(k, v)]
  {
    if st == [] then [(k, v)]
    else if st[0].0 == k then [(k, v)] + st[1..]
    else [st[0]] + SetStyle(st[1..], k, v)
  }

  /** `obj2styleString`: `name:value;` for each property, in order. */
  function Obj2StyleString(st: StyleMap): (s: string)
    ensures s == "" <==> st == []
  {
    if st == [] then "" else Obj2StyleString(st[..|st| - 1]) + st[|st| - 1].0 + ":" + st[|st| - 1].1 + ";"
  }

  /** One more property puts one more `name:value;` at the end. */
  lemma StyleStringAppend(st: StyleMap, k: string, v: string)
    ensures Obj2StyleString(st + [(k, v)]) == Obj2StyleString(st) + k + ":" + v + ";"
  {
    assert (st + [(k, v)])[..|st|] == st;
  }

  // ---------------------------------------------------------------------------
  // Borders

  /** `String(w / 8)` for an integer `w`: the exact eighths. */
  function EighthsText(w: int): string
  {
    var a := if w < 0 then -w else w;
    var frac := match a % 8
      case 0 => "" case 1 => ".125" case 2 => ".25" case 3 => ".375"
      case 4 => ".5" case 5 => ".625" case 6 => ".75" case _ => ".875";
    (if w < 0 then "-" else "") + DecimalString(a / 8) + frac
  }

  /** The CSS property of one part of a border: `border-<part>`, or
      `border-<which>-<part>` for one side. */
  function BorderKey(which: string, part: string): string
  {
    if which == "" then "border-" + part else "border-" + which + "-" + part
  }

  /** `solid`, unless the border style asks for dashed or dotted. */
  function BorderStyleValue(style: string): string
  {
    if style == "dashed" then "dashed" else if style == "dotted" then "dotted" else "solid"
  }

  /** The assignments of `setBorderStyle`, over its three property names:
      the line style (`solid` first, then `dashed` or `dotted` when asked
      for), the plain `border-width: 1px`, then the width and the colour
      when they are set. */
  function BorderAssignments(st: StyleMap, styleKey: string, style: string, widthKey: string, width: Option<string>,
                             colorKey: string, color: Option<string>): StyleMap
  {
    var s1 := SetStyle(st, styleKey, "solid");
    var s2 := if style == "dashed" || style == "dotted" then SetStyle(s1, styleKey, style) else s1;
    var s3 := SetStyle(s2, "border-width", "1px");
    var s4 := if width.Some? then SetStyle(s3, widthKey, width.value) else s3;
    if color.Some? then SetStyle(s4, colorKey, color.value) else s4
  }

  /** Over distinct property names, each name ends with its last
      assignment, and every other name keeps its value. */
  lemma BorderAssignmentsResult(st: StyleMap, styleKey: string, style: string, widthKey: string, width: Option<string>,
                                colorKey: string, color: Option<string>, k: string)
    requires styleKey != widthKey && styleKey != colorKey && widthKey != colorKey
    requires styleKey != "border-width" && colorKey != "border-width"
    ensures var r := BorderAssignments(st, styleKey, style, widthKey, width, colorKey, color);
      && StyleGet(r, styleKey) == Some(BorderStyleValue(style))
      && StyleGet(r, widthKey) ==
           (if width.Some? then width else if widthKey == "border-width" then Some("1px") else StyleGet(st, widthKey))
      && (widthKey != "border-width" ==> StyleGet(r, "border-width") == Some("1px"))
      && StyleGet(r, colorKey) == (if color.Some? then color else StyleGet(st, colorKey))
      && ((k != styleKey && k != widthKey && k != colorKey && k != "border-width") ==> StyleGet(r, k) == StyleGet(st, k))
  {
  }

  /** `setBorderStyle(styles, borderPr, which)`; `which` is "" for the
      whole box. */
  function SetBorderStyle(st: StyleMap, b: BorderPr, which: string): StyleMap
  {
    BorderAssignments(st, BorderKey(which, "style"), b.style,
      BorderKey(which, "width"), if b.width.Truthy() then Some(EighthsText(b.width.value) + "px") else None,
      BorderKey(which, "color"), if b.color != "" then Some("#" + b.color) else None)
  }

  lemma BorderKeysDistinct(which: string)
    ensures BorderKey(which, "style") != BorderKey(which, "width")
    ensures BorderKey(which, "style") != BorderKey(which, "color")
    ensures BorderKey(which, "width") != BorderKey(which, "color")
    ensures BorderKey(which, "style") != "border-width"
    ensures BorderKey(which, "color") != "border-width"
    ensures BorderKey(which, "width") == "border-width" <==> which == ""
  {
    var n := if which == "" then 7 else 8 + |which|;
    assert BorderKey(which, "style")[n] == 's';
    assert BorderKey(which, "width")[n] == 'w';
    assert BorderKey(which, "color")[n] == 'c';
    assert "border-width"[7] == 'w';
  }

  /** What a border puts in the style dictionary: the line style of
      `which`, its width in eighths of a point when set, its colour when
      set, and always `border-width: 1px` without the side's name, which a
      side's own width does not replace. */
  lemma BorderStyles(st: StyleMap, b: BorderPr, which: string, k: string)
    ensures var r := SetBorderStyle(st, b, which);
      && StyleGet(r, BorderKey(which, "style")) == Some(BorderStyleValue(b.style))
      && StyleGet(r, BorderKey(which, "width")) ==
           (if b.width.Truthy() then Some(EighthsText(b.width.value) + "px")
            else if which == "" then Some("1px") else StyleGet(st, BorderKey(which, "width")))
      && (which != "" ==> StyleGet(r, "border-width") == Some("1px"))
      && StyleGet(r, BorderKey(which, "color")) ==
           (if b.color != "" then Some("#" + b.color) else StyleGet(st, BorderKey(which, "color")))
      && ((k != BorderKey(which, "style") && k != BorderKey(which, "width") && k != BorderKey(which, "color")
           && k != "border-width") ==> StyleGet(r, k) == StyleGet(st, k))
  {
    BorderKeysDistinct(which);
    BorderAssignmentsResult(st, BorderKey(which, "style"), b.style,
      BorderKey(which, "width"), if b.width.Truthy() then Some(EighthsText(b.width.value) + "px") else None,
      BorderKey(which, "color"), if b.color != "" then Some("#" + b.color) else None, k);
  }

  /** `setPBorderStyle(styles, pBorderPr)`: the top and right borders when
      set; the bottom and left ones exactly when the TOP one is set, which
      reads a missing bottom or left border and throws. */
  function SetPBorderStyle(st: StyleMap, p: PBorderPr): (r: Try<StyleMap>)
    ensures r.Throws? <==> p.top.Some? && (p.bottom.None? || p.left.None?)
    ensures p.top.None? ==> r == Ok(if p.right.Some? then SetBorderStyle(st, p.right.value, "right") else st)
  {
    if p.top.None? then Ok(if p.right.Some? then SetBorderStyle(st, p.right.value, "right") else st)
    else if p.bottom.None? || p.left.None? then Throws
    else
      var s1 := SetBorderStyle(st, p.top.value, "top");
      var s2 := SetBorderStyle(s1, p.bottom.value, "bottom");
      var s3 := SetBorderStyle(s2, p.left.value, "left");
      Ok(if p.right.Some? then SetBorderStyle(s3, p.right.value, "right") else s3)
  }

  // ---------------------------------------------------------------------------
  // The rowspan pass of Table.toHTElem

  /** The `vMerge` a component carries: only a table cell with properties
      has one. */
  function VMergeOf(c: Comp): Option<string>
  {
    if c.TableCell? && c.tcPr.Some? then c.tcPr.value.vMerge else None
  }

  /** A row's cell in column `j` continues a vertical merge. */
  predicate ContinuesAt(rows: seq<Comp>, k: nat, j: nat)
  {
    k < |rows| && j < |Kids(rows[k])| && VMergeOf(Kids(rows[k])[j]) == Some("continue")
  }

  /** How many consecutive rows from `k` continue the merge in column `j`. */
  function ContinueRun(rows: seq<Comp>, k: nat, j: nat): (n: nat)
    ensures forall m :: k <= m < k + n ==> ContinuesAt(rows, m, j)
    ensures !ContinuesAt(rows, k + n, j)
    decreases |rows| - k
  {
    if ContinuesAt(rows, k, j) then 1 + ContinueRun(rows, k + 1, j) else 0
  }

  /** The cell at (i, j) after the pass: a `restart` cell with at least one
      continuing cell below gets `rowSpan`, one plus their number. */
  function MarkCell(rows: seq<Comp>, i: nat, j: nat): Comp
    requires i < |rows| && j < |Kids(rows[i])|
  {
    var c := Kids(rows[i])[j];
    var span := 1 + ContinueRun(rows, i + 1, j);
    if VMergeOf(c) == Some("restart") && span > 1 then c.(tcPr := Some(c.tcPr.value.(rowSpan := Some(span))))
    else c
  }

  function MarkRow(rows: seq<Comp>, i: nat): Comp
    requires i < |rows|
  {
    if IsContainer(rows[i]) then
      rows[i].(children := seq(|Kids(rows[i])|, j requires 0 <= j < |Kids(rows[i])| => MarkCell(rows, i, j)))
    else rows[i]
  }

  /** The rows as the pass leaves them. */
  function RowSpanned(rows: seq<Comp>): (r: seq<Comp>)
    ensures |r| == |rows|
  {
    seq(|rows|, i requires 0 <= i < |rows| => MarkRow(rows, i))
  }

  /** The `for (let k = i + 1; i < tableRows.length; k++)` loop: its test is
      on `i`, so it ends only at a `break`, which comes at the first row
      below that is missing, has no cell in column `j`, or whose cell does
      not continue the merge. */
  method SpanBelow(rows: seq<Comp>, i: nat, j: nat) returns (rowspan: int)
    requires i < |rows|
    ensures rowspan == 1 + ContinueRun(rows, i + 1, j)
  {
    rowspan := 1;
    var k := i + 1;
    while true
      invariant i + 1 <= k <= |rows|
      invariant rowspan + ContinueRun(rows, k, j) == 1 + ContinueRun(rows, i + 1, j)
      decreases |rows| - k
    {
      if k >= |rows| {
        break;
      }
      var belowRow := rows[k];
      if j >= |Kids(belowRow)| {
        break;
      }
      var belowCell := Kids(belowRow)[j];
      if VMergeOf(belowCell) == Some("continue") {
        rowspan := rowspan + 1;
        k := k + 1;
        continue;
      }
      break;
    }
  }

  /** The `j` loop over one row's cells. */
  method MarkRowCells(rows: seq<Comp>, i: nat) returns (row: Comp)
    requires i < |rows| && IsContainer(rows[i])
    ensures row == MarkRow(rows, i)
  {
    var cells := Kids(rows[i]);
    ghost var original := cells;
    for j := 0 to |cells|
      invariant |cells| == |original|
      invariant forall m :: 0 <= m < j ==> cells[m] == MarkCell(rows, i, m)
      invariant forall m :: j <= m < |original| ==> cells[m] == original[m]
    {
      var tableCell := cells[j];
      if VMergeOf(tableCell) != Some("restart") {
        continue;
      }
      var rowspan := SpanBelow(rows, i, j);
      if rowspan > 1 {
        cells := cells[j := tableCell.(tcPr := Some(tableCell.tcPr.value.(rowSpan := Some(rowspan))))];
      }
    }
    row := rows[i].(children := cells);
  }

  /** `Table.toHTElem`'s pass over its rows.  It reads the grid as it was
      before the pass: the pass only writes `rowSpan`, which no read looks
      at (`MarkKeepsVMerge`). */
  method MarkRowSpans(rows: seq<Comp>) returns (out: seq<Comp>)
    ensures out == RowSpanned(rows)
  {
    out := rows;
    for i := 0 to |rows|
      invariant |out| == |rows|
      invariant forall r :: 0 <= r < i ==> out[r] == MarkRow(rows, r)
      invariant forall r :: i <= r < |rows| ==> out[r] == rows[r]
    {
      if IsContainer(rows[i]) {
        var row := MarkRowCells(rows, i);
        out := out[i := row];
      }
    }
  }

  /** The pass changes no cell's `vMerge` and no row's shape. */
  lemma MarkKeepsVMerge(rows: seq<Comp>, i: nat)
    requires i < |rows|
    ensures |Kids(MarkRow(rows, i))| == |Kids(rows[i])|
    ensures forall j :: 0 <= j < |Kids(rows[i])| ==>
      VMergeOf(Kids(MarkRow(rows, i))[j]) == VMergeOf(Kids(rows[i])[j])
      && Kids(Kids(MarkRow(rows, i))[j]) == Kids(Kids(rows[i])[j])
  {
  }

  /** What the pass does to one cell: a `restart` cell with n >= 1
      continuing cells right below it in its column gets rowSpan n + 1;
      every other cell is left exactly as it was. */
  lemma RowSpanOfCell(rows: seq<Comp>, i: nat, j: nat)
    requires i < |rows| && j < |Kids(rows[i])|
    ensures var c := Kids(rows[i])[j];
      var n := ContinueRun(rows, i + 1, j);
      && |Kids(RowSpanned(rows)[i])| == |Kids(rows[i])|
      && (VMergeOf(c) == Some("restart") && n >= 1 ==>
            Kids(RowSpanned(rows)[i])[j] == c.(tcPr := Some(c.tcPr.value.(rowSpan := Some(n + 1)))))
      && (VMergeOf(c) != Some("restart") || n == 0 ==> Kids(RowSpanned(rows)[i])[j] == c)
  {
    assert RowSpanned(rows)[i] == MarkRow(rows, i);
  }

  lemma {:induction false} ContinueRunMarked(rows: seq<Comp>, k: nat, j: nat)
    ensures ContinueRun(RowSpanned(rows), k, j) == ContinueRun(rows, k, j)
    decreases |rows| - k
  {
    if k < |rows| {
      MarkKeepsVMerge(rows, k);
      assert RowSpanned(rows)[k] == MarkRow(rows, k);
      ContinueRunMarked(rows, k + 1, j);
    }
  }

  lemma CellOfMarked(rows: seq<Comp>, i: nat, j: nat)
    requires i < |rows| && j < |Kids(rows[i])|
    ensures j < |Kids(RowSpanned(rows)[i])|
    ensures MarkCell(RowSpanned(rows), i, j) == Kids(RowSpanned(rows)[i])[j]
  {
    MarkKeepsVMerge(rows, i);
    assert RowSpanned(rows)[i] == MarkRow(rows, i);
    ContinueRunMarked(rows, i + 1, j);
  }

  lemma RowOfMarked(rows: seq<Comp>, i: nat)
    requires i < |rows|
    ensures MarkRow(RowSpanned(rows), i) == RowSpanned(rows)[i]
  {
    var once := RowSpanned(rows);
    MarkKeepsVMerge(rows, i);
    assert once[i] == MarkRow(rows, i);
    if IsContainer(rows[i]) {
      forall j | 0 <= j < |Kids(once[i])|
        ensures MarkCell(once, i, j) == Kids(once[i])[j]
      {
        CellOfMarked(rows, i, j);
      }
      assert Kids(MarkRow(once, i)) == Kids(once[i]);
    }
  }

  /** The pass assigns rather than adds: running it on its own output
      changes nothing, so rendering a table twice gives the same spans. */
  lemma RowSpannedIdempotent(rows: seq<Comp>)
    ensures RowSpanned(RowSpanned(rows)) == RowSpanned(rows)
  {
    forall i | 0 <= i < |rows|
      ensures MarkRow(RowSpanned(rows), i) == RowSpanned(rows)[i]
    {
      RowOfMarked(rows, i);
    }
  }

  /** The pass keeps the tree's size. */
  lemma RowSpannedSize(rows: seq<Comp>)
    ensures SizeAll(RowSpanned(rows)) == SizeAll(rows)
  {
    forall i | 0 <= i < |rows|
      ensures Size(RowSpanned(rows)[i]) == Size(rows[i])
    {
      MarkKeepsVMerge(rows, i);
      assert RowSpanned(rows)[i] == MarkRow(rows, i);
      SizeAllPointwise(Kids(MarkRow(rows, i)), Kids(rows[i]));
    }
    SizeAllPointwise(RowSpanned(rows), rows);
  }
}
