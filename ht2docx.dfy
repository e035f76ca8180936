/** The HTML-to-docx builder of dist/node/ht2docx.js: the simplified HTML
    tree (`p`, `ul`/`ol`, `table`, `div`, `span`, `img`) becomes the blocks
    of one docx section.  The docx library's objects are modelled as plain
    values holding the options the builder passes to their constructors. */
module Ht2docx {
  import opened Wrappers
  import opened Js
  import opened Xml
  import Helper
  import Tables
  import Elem

  // ---------------------------------------------------------------------------
  // Conversions

  /** `px2Num`: `parseInt(pxStr, 10)`, so `'200px'` reads as 200. */
  function Px2Num(pxStr: string): Num
  {
    ParseInt10(pxStr)
  }

  /** `pxNum2DXA`: 15 twentieths of a point per CSS pixel. */
  function PxNum2Dxa(pxNum: int): int
  {
    pxNum * 15
  }

  /** Converting pixels to dxa and back, as the reader does, gives the
      pixels back exactly. */
  lemma PxDxaRoundTrip(p: int)
    ensures Elem.Dxa2PxNum(Int(PxNum2Dxa(p))) == Int(p)
  {
  }

  /** The length of the run of decimal digits that `t` starts with. */
  function DigitRun10(t: string): (k: nat)
    ensures k <= |t| && AllDigits(t[..k])
    ensures k == |t| || !IsDigit(t[k])
  {
    if t != [] && IsDigit(t[0]) then
      var k := 1 + DigitRun10(t[1..]);
      assert t[..k] == [t[0]] + t[1..][..k - 1];
      k
    else 0
  }

  /** `(\d+)` followed by the character `term`: the digits and what
      follows `term`. */
  function Field(t: string, term: char): (r: Option<(string, string)>)
    ensures r.Some? ==> r.value.0 != [] && AllDigits(r.value.0)
  {
    var k := DigitRun10(t);
    if k == 0 || k == |t| || t[k] != term then None else Some((t[..k], t[k + 1..]))
  }

  /** The three digit groups of `rgbStr.match(/^rgb\((\d+),\s*(\d+),\s*(\d+)\)$/)`,
      none when the string does not match.  A digit is neither `,`, `)` nor
      white space, so each `\d+` and `\s*` can only take the longest run
      and one left-to-right scan finds the match. */
  function RgbMatch(s: string): (r: Option<(string, string, string)>)
    ensures r.Some? ==> r.value.0 != [] && AllDigits(r.value.0)
    ensures r.Some? ==> r.value.1 != [] && AllDigits(r.value.1)
    ensures r.Some? ==> r.value.2 != [] && AllDigits(r.value.2)
  {
    if |s| < 4 || s[..4] != "rgb(" then None
    else
      match Field(s[4..], ',')
      case None => None
      case Some((r, t)) =>
        match Field(TrimStart(t), ',')
        case None => None
        case Some((g, u)) =>
          match Field(TrimStart(u), ')')
          case None => None
          case Some((b, w)) => if w == [] then Some((r, g, b)) else None
  }

  /** `('0' + n.toString(16)).slice(-2)`: the last two hexadecimal digits
      of `n`, lower case, with a leading zero below 16. */
  function Hex2(n: nat): (h: string)
    ensures h == [HexChar((n / 16) % 16), HexChar(n % 16)]
  {
    var t := "0" + HexDigits(n);
    assert n >= 16 ==> HexDigits(n) == HexDigits(n / 16) + [HexChar(n % 16)];
    t[|t| - 2..]
  }

  /** Components above 255 keep only their last two hexadecimal digits. */
  lemma Hex2Wraps(n: nat)
    ensures Hex2(n) == Hex2(n % 256)
  {
    var q, m := n / 256, n % 256;
    assert n == 256 * q + m;
    assert n / 16 == 16 * q + m / 16;
    assert (n / 16) % 16 == (m / 16) % 16;
    assert n % 16 == m % 16;
  }

  /** `parseInt(group, 10)` of a digit group is its decimal value. */
  lemma ParseDigitGroup(g: string)
    requires g != [] && AllDigits(g)
    ensures ParseInt10(g) == Int(DigitsValue(g))
  {
    UnsignedDigits(g, []);
    assert g + [] == g;
    ParseDigitFirst(g, true, DigitsValue(g));
  }

  /** `rgb2hex`: six lower-case hexadecimal digits; a string that does not
      match the pattern throws (the match is null). */
  function Rgb2Hex(rgbStr: string): (r: Try<string>)
    ensures r.Throws? <==> RgbMatch(rgbStr).None?
    ensures r.Ok? ==> |r.value| == 6
  {
    match RgbMatch(rgbStr)
    case None => Throws
    case Some((r, g, b)) => Ok(Hex2(DigitsValue(r)) + Hex2(DigitsValue(g)) + Hex2(DigitsValue(b)))
  }

  /** A digit group followed by its terminator is read as a whole. */
  lemma {:induction false} FieldOf(d: string, term: char, rest: string)
    requires d != [] && AllDigits(d) && !IsDigit(term)
    ensures Field(d + ([term] + rest), term) == Some((d, rest))
  {
    var t := d + ([term] + rest);
    DigitRunOf(d, [term] + rest);
    assert t[..|d|] == d;
    assert t[|d| + 1..] == rest;
  }

  lemma {:induction false} DigitRunOf(d: string, rest: string)
    requires AllDigits(d)
    requires rest == [] || !IsDigit(rest[0])
    ensures DigitRun10(d + rest) == |d|
  {
    if d != [] {
      assert (d + rest)[1..] == d[1..] + rest;
      DigitRunOf(d[1..], rest);
    } else {
      assert d + rest == rest;
    }
  }

  /** `\s*` takes nothing before a digit. */
  lemma TrimBeforeDigit(t: string)
    requires t != [] && IsDigit(t[0])
    ensures TrimStart(t) == t
  {
  }

  /** The pattern matches `rgb(` and three digit groups separated by
      commas, and gives back the groups. */
  lemma RgbMatchOf(dr: string, dg: string, db: string)
    requires dr != [] && AllDigits(dr) && dg != [] && AllDigits(dg) && db != [] && AllDigits(db)
    ensures RgbMatch("rgb(" + (dr + ("," + (dg + ("," + (db + ")")))))) == Some((dr, dg, db))
  {
    var w := db + ")";
    var u := dg + ("," + w);
    var t := dr + ("," + u);
    var s := "rgb(" + t;
    assert s[..4] == "rgb(" && s[4..] == t;
    FieldOf(dr, ',', u);
    TrimBeforeDigit(u);
    FieldOf(dg, ',', w);
    TrimBeforeDigit(w);
    assert w == db + ([')'] + []);
    FieldOf(db, ')', []);
  }

  /** `rgb2hex` on the colour CSS writes: `rgb(r,g,b)` gives each
      component's two hexadecimal digits. */
  lemma RgbRoundTrip(r: nat, g: nat, b: nat)
    ensures Rgb2Hex("rgb(" + (Digits(r) + ("," + (Digits(g) + ("," + (Digits(b) + ")")))))) == Ok(Hex2(r) + Hex2(g) + Hex2(b))
  {
    RgbMatchOf(Digits(r), Digits(g), Digits(b));
    DigitsRoundTrip(r, Digits(r));
    DigitsRoundTrip(g, Digits(g));
    DigitsRoundTrip(b, Digits(b));
  }

  /** `2 * fontPX2PT(pxStr)`: twice the point size of a pixel size, from
      `px2ptTab` for 9 to 33 pixels, else 25 points above 33 and 10 points
      otherwise (including NaN). */
  function FontPx2PtTwice(pxStr: string): (twice: int)
    ensures 14 <= twice <= 50
  {
    var pxNum := ParseInt(pxStr);
    if pxNum.Int? && Tables.Px2PtTwice(pxNum.value).Some? then
      Tables.Px2PtEntry(pxNum.value);
      Tables.Px2PtTwice(pxNum.value).value
    else if pxNum.Int? && pxNum.value > 33 then 50
    else 20
  }

  /** A CSS size `<n>px` gets `ceil(3n/2)` half-points inside the table,
      and the fallbacks outside it. */
  lemma FontSizeOfPx(n: int)
    ensures 9 <= n <= 33 ==> FontPx2PtTwice(DecimalString(n) + "px") == (3 * n + 1) / 2
    ensures n > 33 ==> FontPx2PtTwice(DecimalString(n) + "px") == 50
    ensures n < 9 ==> FontPx2PtTwice(DecimalString(n) + "px") == 20
  {
    ParseIntOfDecimal(n, "px", false);
    Tables.Px2PtEntry(n);
  }

  // ---------------------------------------------------------------------------
  // The builder's values

  /** What the builder reads besides the tree: the image buffers by URL
      (`ctx.images`, possibly absent) and the formulas by placeholder key
      (`ctx.maths`, absent when `createDocx` is called without it). */
  datatype ImageEntry = ImageEntry(url: string, buf: Option<seq<bv8>>)
  datatype Ctx = Ctx(images: Option<seq<ImageEntry>>, maths: Option<map<string, Helper.MathSource>>)

  /** The options of `new docx.TextRun(...)`. */
  datatype TextRunOpts = TextRunOpts(
    text: string,
    size: Option<int>,
    bold: bool,
    color: Option<string>,
    highlight: Option<string>,
    subScript: bool,
    superScript: bool)

  datatype HAlign = AlignLeft | AlignRight

  /** The floating options of a picture: horizontally aligned in the
      margin, vertically offset 100 from the paragraph, square wrapping on
      both sides.  Only the horizontal alignment varies: the vertical
      alignment `createImg` computes from `verticalAlign` is never used. */
  datatype Floating = Floating(hAlign: HAlign)

  /** A run of a paragraph: text (`lineBreak` when the span asks for a line
      break after it), a formula with its font size, or a picture. */
  datatype Run =
    | TextRun(opts: TextRunOpts, lineBreak: bool)
    | OMath(omml: Helper.MathSource, size: int)
    | Image(buf: seq<bv8>, width: int, height: int, floating: Option<Floating>)

  /** A block of the section.  A table's layout is always fixed, and the
      margins are set in dxa when present; `TextParagraph` is
      `new docx.Paragraph(text)`. */
  datatype Block =
    | Paragraph(runs: seq<Run>)
    | TextParagraph(text: string)
    | Table(rows: seq<Row>, width: Option<int>, margins: Option<int>, columnWidths: seq<int>)

  datatype Row = Row(cells: seq<Cell>, tableHeader: bool)

  /** `borderless` cells have all four borders set to none. */
  datatype Cell = Cell(children: seq<Block>, columnSpan: Option<int>, rowSpan: Option<int>, width: Option<int>, borderless: bool)

  /** `hasAttribute(name)` of a node. */
  predicate HasAttr(n: XNode, name: string)
  {
    n.Element? && HasAttribute(n.attrs, name)
  }

  // ---------------------------------------------------------------------------
  // Runs

  /** `text.replace(/[\\t]/g, '  ')`: the character class holds a backslash
      and the letter `t`, so both become two spaces. */
  function Untab(s: string): (r: string)
    ensures forall i :: 0 <= i < |r| ==> r[i] != '\\' && r[i] != 't'
    ensures |r| >= |s|
  {
    if s == [] then []
    else
      var rest := Untab(s[1..]);
      var head := if s[0] == '\\' || s[0] == 't' then "  " else [s[0]];
      assert forall i :: |head| <= i < |head + rest| ==> (head + rest)[i] == rest[i - |head|];
      head + rest
  }

  /** Text without a backslash or a `t` passes unchanged. */
  lemma {:induction false} UntabPlain(s: string)
    requires forall i :: 0 <= i < |s| ==> s[i] != '\\' && s[i] != 't'
    ensures Untab(s) == s
  {
    if s != [] {
      UntabPlain(s[1..]);
    }
  }

  /** The size option: twice the point size, when the span sets a font
      size. */
  function SizeOf(spanNode: XNode): Option<int>
  {
    if Attr(spanNode, "fontSize") != "" then Some(FontPx2PtTwice(Attr(spanNode, "fontSize"))) else None
  }

  /** `createTextRun(textContent, spanNode)`; a colour that is not
      `rgb(...)` throws. */
  function TextRunOf(textContent: string, spanNode: XNode): Try<Run>
  {
    var color := Attr(spanNode, "color");
    var weight := ParseInt(Attr(spanNode, "fontWeight"));
    var verticalAlign := Attr(spanNode, "verticalAlign");
    if color != "" && Rgb2Hex(color).Throws? then Throws
    else
      Ok(TextRun(TextRunOpts(
        textContent,
        SizeOf(spanNode),
        weight.Int? && weight.value >= 700,
        if color != "" then Some(Rgb2Hex(color).value) else None,
        if Attr(spanNode, "backgroundColor") != "" then Some("yellow") else None,
        verticalAlign == "sub",
        verticalAlign != "sub" && verticalAlign == "sup"),
        HasAttr(spanNode, "br")))
  }

  /** `createTextRun`, setting the options one by one. */
  method CreateTextRun(textContent: string, spanNode: XNode) returns (r: Try<Run>)
    ensures r == TextRunOf(textContent, spanNode)
  {
    var opts := TextRunOpts(textContent, None, false, None, None, false, false);
    var fontSize := Attr(spanNode, "fontSize");
    var fontWeight := Attr(spanNode, "fontWeight");
    var color := Attr(spanNode, "color");
    var backgroundColor := Attr(spanNode, "backgroundColor");
    var verticalAlign := Attr(spanNode, "verticalAlign");
    if fontSize != "" {
      var fontPt := FontPx2PtTwice(fontSize);
      opts := opts.(size := Some(fontPt));
    }
    var weight := ParseInt(fontWeight);
    if weight.Int? && weight.value >= 700 {
      opts := opts.(bold := true);
    }
    if color != "" {
      var hex := Rgb2Hex(color);
      if hex.Throws? {
        return Throws;
      }
      opts := opts.(color := Some(hex.value));
    }
    if backgroundColor != "" {
      opts := opts.(highlight := Some("yellow"));
    }
    if verticalAlign == "sub" {
      opts := opts.(subScript := true);
    } else if verticalAlign == "sup" {
      opts := opts.(superScript := true);
    }
    r := Ok(TextRun(opts, HasAttr(spanNode, "br")));
  }

  /** A text run is bold iff the weight reads as at least 700, highlighted
      in yellow iff a background colour is set, subscript or superscript
      as `verticalAlign` says, and it throws iff the colour is set but is
      not `rgb(...)`. */
  lemma TextRunOptions(textContent: string, spanNode: XNode)
    ensures TextRunOf(textContent, spanNode).Throws?
        <==> Attr(spanNode, "color") != "" && RgbMatch(Attr(spanNode, "color")).None?
    ensures TextRunOf(textContent, spanNode).Ok? ==>
      var o := TextRunOf(textContent, spanNode).value.opts;
      && o.text == textContent
      && (o.bold <==> ParseInt(Attr(spanNode, "fontWeight")).Int? && ParseInt(Attr(spanNode, "fontWeight")).value >= 700)
      && (o.highlight.Some? <==> Attr(spanNode, "backgroundColor") != "")
      && (o.highlight.Some? ==> o.highlight.value == "yellow")
      && (o.subScript <==> Attr(spanNode, "verticalAlign") == "sub")
      && (o.superScript <==> Attr(spanNode, "verticalAlign") == "sup")
      && (o.color.Some? <==> Attr(spanNode, "color") != "")
  {
  }

  /** `createOMath(omml, spanNode)`: the formula at twice the point size,
      0 without a font size. */
  function OMathOf(omml: Helper.MathSource, spanNode: XNode): Run
  {
    OMath(omml, if Attr(spanNode, "fontSize") != "" then FontPx2PtTwice(Attr(spanNode, "fontSize")) else 0)
  }

  /** The pieces of a span's text: text, and `@math-…@` placeholders. */
  function SpanPieces(spanNode: XNode): seq<Helper.Piece>
  {
    Helper.Split(Helper.Text(TextContent(spanNode)), "@math-", "@", false)
  }

  /** The loop of `createSpan` from piece `i` on, with `runs` so far. */
  function SpanRunsFrom(ctx: Ctx, spanNode: XNode, texts: seq<Helper.Piece>, i: nat, runs: seq<Run>): Try<seq<Run>>
    requires i <= |texts|
    decreases |texts| - i
  {
    if i == |texts| then Ok(runs)
    else if texts[i].Text? then
      match TextRunOf(Untab(Helper.DecodeEntities(texts[i].data)), spanNode)
      case Throws => Throws
      case Ok(run) => SpanRunsFrom(ctx, spanNode, texts, i + 1, runs + [run])
    else if ctx.maths.None? then Throws
    else if texts[i].rawData in ctx.maths.value then
      SpanRunsFrom(ctx, spanNode, texts, i + 1, runs + [OMathOf(ctx.maths.value[texts[i].rawData], spanNode)])
    else
      SpanRunsFrom(ctx, spanNode, texts, i + 1, runs)
  }

  /** `createSpan(ctx, spanNode)`. */
  function SpanOf(ctx: Ctx, spanNode: XNode): Try<seq<Run>>
  {
    SpanRunsFrom(ctx, spanNode, SpanPieces(spanNode), 0, [])
  }

  method CreateSpan(ctx: Ctx, spanNode: XNode) returns (r: Try<seq<Run>>)
    ensures r == SpanOf(ctx, spanNode)
  {
    var texts := Helper.SplitAtDelimiters(Helper.Text(TextContent(spanNode)), "@math-", "@", false);
    var runs: seq<Run> := [];
    ghost var result := SpanRunsFrom(ctx, spanNode, texts, 0, runs);
    for i := 0 to |texts|
      invariant SpanRunsFrom(ctx, spanNode, texts, i, runs) == result
    {
      var textB := texts[i];
      if textB.Text? {
        var text := Helper.DecodeEntities(textB.data);
        text := Untab(text);
        var textRun := CreateTextRun(text, spanNode);
        if textRun.Throws? {
          return Throws;
        }
        runs := runs + [textRun.value];
      } else {
        var mathId := textB.rawData;
        if ctx.maths.None? {
          return Throws;
        }
        if mathId in ctx.maths.value {
          var omml := ctx.maths.value[mathId];
          runs := runs + [OMathOf(omml, spanNode)];
        }
      }
    }
    r := Ok(runs);
  }

  /** Without `ctx.maths`, the first formula placeholder of a span throws
      (`ctx.maths.hasOwnProperty` of undefined), whatever comes before it. */
  lemma {:induction false} NoMathsThrowsFrom(ctx: Ctx, spanNode: XNode, texts: seq<Helper.Piece>, i: nat, runs: seq<Run>, k: nat)
    requires ctx.maths.None?
    requires i <= k < |texts| && texts[k].Math?
    ensures SpanRunsFrom(ctx, spanNode, texts, i, runs).Throws?
    decreases k - i
  {
    if i < k && texts[i].Text? {
      var t := TextRunOf(Untab(Helper.DecodeEntities(texts[i].data)), spanNode);
      if t.Ok? {
        assert SpanRunsFrom(ctx, spanNode, texts, i, runs) == SpanRunsFrom(ctx, spanNode, texts, i + 1, runs + [t.value]);
        NoMathsThrowsFrom(ctx, spanNode, texts, i + 1, runs + [t.value], k);
      }
    }
  }

  /** A span holding a formula placeholder throws when `createDocx` was
      given no formulas. */
  lemma SpanWithoutMaths(ctx: Ctx, spanNode: XNode, k: nat)
    requires ctx.maths.None?
    requires k < |SpanPieces(spanNode)| && SpanPieces(spanNode)[k].Math?
    ensures SpanOf(ctx, spanNode).Throws?
  {
    NoMathsThrowsFrom(ctx, spanNode, SpanPieces(spanNode), 0, [], k);
  }

  /** The pieces from `i` on that give a run: every text piece, and the
      math pieces whose key is in `ctx.maths`. */
  function RunPieces(ctx: Ctx, texts: seq<Helper.Piece>, i: nat): nat
    requires i <= |texts|
    decreases |texts| - i
  {
    if i == |texts| then 0
    else (if texts[i].Text? || (ctx.maths.Some? && texts[i].rawData in ctx.maths.value) then 1 else 0) + RunPieces(ctx, texts, i + 1)
  }

  lemma {:induction false} SpanRunsCount(ctx: Ctx, spanNode: XNode, texts: seq<Helper.Piece>, i: nat, runs: seq<Run>)
    requires i <= |texts|
    requires SpanRunsFrom(ctx, spanNode, texts, i, runs).Ok?
    ensures |SpanRunsFrom(ctx, spanNode, texts, i, runs).value| == |runs| + RunPieces(ctx, texts, i)
    decreases |texts| - i
  {
    if i < |texts| {
      if texts[i].Text? {
        var run := TextRunOf(Untab(Helper.DecodeEntities(texts[i].data)), spanNode).value;
        SpanRunsCount(ctx, spanNode, texts, i + 1, runs + [run]);
      } else if ctx.maths.Some? && texts[i].rawData in ctx.maths.value {
        SpanRunsCount(ctx, spanNode, texts, i + 1, runs + [OMathOf(ctx.maths.value[texts[i].rawData], spanNode)]);
      } else {
        SpanRunsCount(ctx, spanNode, texts, i + 1, runs);
      }
    }
  }

  /** A span gives one run per text piece, empty ones included, and one
      per formula found in `ctx.maths`; unresolved formulas are dropped.
      As the pieces start with a text piece, a span always gives at least
      one run. */
  lemma SpanRuns(ctx: Ctx, spanNode: XNode)
    requires SpanOf(ctx, spanNode).Ok?
    ensures |SpanOf(ctx, spanNode).value| == RunPieces(ctx, SpanPieces(spanNode), 0)
    ensures |SpanOf(ctx, spanNode).value| >= 1
  {
    var texts := SpanPieces(spanNode);
    SpanRunsCount(ctx, spanNode, texts, 0, []);
    Helper.SplitShape(TextContent(spanNode), "@math-", "@", false);
    assert texts[0].Text?;
  }

  // ---------------------------------------------------------------------------
  // Pictures

  /** The key `_.find(ctx.images, {url: src})` matches on. */
  function UrlIs(url: string): ImageEntry -> bool
  {
    (e: ImageEntry) => e.url == url
  }

  /** `_.find(images, {url: src})`: the first entry with that URL. */
  function FindImage(images: seq<ImageEntry>, url: string): (r: Option<ImageEntry>)
    ensures r.Some? ==> r.value in images && r.value.url == url
    ensures r.Some? ==> FirstWith(images, r.value, UrlIs(url))
    ensures r.None? ==> forall e :: e in images ==> e.url != url
  {
    if images == [] then None
    else if images[0].url == url then assert FirstWith(images, images[0], UrlIs(url)) by { assert images[0] == images[0]; } Some(images[0])
    else
      var r := FindImage(images[1..], url);
      if r.Some? then FirstWithTail(images, r.value, UrlIs(url)); r else r
  }

  /** The buffer of the image at `src`, none without images, without an
      entry for the URL, or without a buffer in it. */
  function ImageBuf(ctx: Ctx, src: string): Option<seq<bv8>>
  {
    if ctx.images.None? then None
    else
      match FindImage(ctx.images.value, src)
      case None => None
      case Some(e) => e.buf
  }

  /** The floating options of `cssFloat` left or right. */
  function FloatingOf(cssFloat: string): (f: Option<Floating>)
    ensures f.Some? <==> cssFloat == "left" || cssFloat == "right"
    ensures f.Some? ==> (f.value.hAlign == AlignLeft <==> cssFloat == "left")
  {
    if cssFloat == "left" || cssFloat == "right" then
      Some(Floating(if cssFloat == "left" then AlignLeft else AlignRight))
    else None
  }

  /** `createImg(ctx, imgNode)`: nothing when the width or the height is 0
      or not a number, or when no image has the URL `src`. */
  function ImgOf(ctx: Ctx, imgNode: XNode): (r: Option<Run>)
    ensures r.None? <==> !Px2Num(Attr(imgNode, "width")).Truthy() || !Px2Num(Attr(imgNode, "height")).Truthy()
                         || ImageBuf(ctx, Attr(imgNode, "src")).None?
    ensures r.Some? ==> r.value.Image? && Int(r.value.width) == Px2Num(Attr(imgNode, "width"))
                        && Int(r.value.height) == Px2Num(Attr(imgNode, "height"))
                        && Some(r.value.buf) == ImageBuf(ctx, Attr(imgNode, "src"))
                        && r.value.floating == FloatingOf(Attr(imgNode, "cssFloat"))
  {
    var width := Px2Num(Attr(imgNode, "width"));
    var height := Px2Num(Attr(imgNode, "height"));
    if !width.Truthy() || !height.Truthy() then None
    else
      match ImageBuf(ctx, Attr(imgNode, "src"))
      case None => None
      case Some(buf) =>
        Some(Image(buf, width.value, height.value, FloatingOf(Attr(imgNode, "cssFloat"))))
  }

  // ---------------------------------------------------------------------------
  // Paragraphs and lists

  /** The loop of `createParagraph` from child `i` on: spans add their
      runs, pictures their run when there is one, other children
      nothing. */
  function ParaRunsFrom(ctx: Ctx, pNode: XNode, i: nat, runs: seq<Run>): Try<seq<Run>>
    requires i <= |Children(pNode)|
    decreases |Children(pNode)| - i
  {
    if i == |Children(pNode)| then Ok(runs)
    else
      var x := Children(pNode)[i];
      if IsElementNamed(x, "span") then
        match SpanOf(ctx, x)
        case Throws => Throws
        case Ok(rs) => ParaRunsFrom(ctx, pNode, i + 1, runs + rs)
      else if IsElementNamed(x, "img") && ImgOf(ctx, x).Some? then
        ParaRunsFrom(ctx, pNode, i + 1, runs + [ImgOf(ctx, x).value])
      else
        ParaRunsFrom(ctx, pNode, i + 1, runs)
  }

  /** `createParagraph(ctx, pNode)`: null for a node without child nodes
      (not an element) and when no run was made. */
  function ParagraphOf(ctx: Ctx, pNode: XNode): (r: Try<Option<Block>>)
    ensures r.Ok? && r.value.Some? ==> r.value.value.Paragraph? && r.value.value.runs != []
  {
    if !pNode.Element? then Ok(None)
    else
      match ParaRunsFrom(ctx, pNode, 0, [])
      case Throws => Throws
      case Ok(runs) => Ok(if runs == [] then None else Some(Paragraph(runs)))
  }

  method CreateParagraph(ctx: Ctx, pNode: XNode) returns (r: Try<Option<Block>>)
    ensures r == ParagraphOf(ctx, pNode)
  {
    if !pNode.Element? {
      return Ok(None);
    }
    var kids := pNode.children;
    var pRuns: seq<Run> := [];
    ghost var result := ParaRunsFrom(ctx, pNode, 0, pRuns);
    for i := 0 to |kids|
      invariant ParaRunsFrom(ctx, pNode, i, pRuns) == result
    {
      var childNode := kids[i];
      if IsElementNamed(childNode, "span") {
        var textRun := CreateSpan(ctx, childNode);
        if textRun.Throws? {
          return Throws;
        }
        pRuns := pRuns + textRun.value;
      } else if IsElementNamed(childNode, "img") {
        var pictRun := ImgOf(ctx, childNode);
        if pictRun.Some? {
          pRuns := pRuns + [pictRun.value];
        }
      }
    }
    if pRuns == [] {
      return Ok(None);
    }
    r := Ok(Some(Paragraph(pRuns)));
  }

  lemma {:induction false} ParaRunsGrow(ctx: Ctx, pNode: XNode, i: nat, runs: seq<Run>)
    requires i <= |Children(pNode)|
    requires ParaRunsFrom(ctx, pNode, i, runs).Ok?
    ensures |ParaRunsFrom(ctx, pNode, i, runs).value| >= |runs|
    decreases |Children(pNode)| - i
  {
    if i < |Children(pNode)| {
      var x := Children(pNode)[i];
      if IsElementNamed(x, "span") {
        ParaRunsGrow(ctx, pNode, i + 1, runs + SpanOf(ctx, x).value);
      } else if IsElementNamed(x, "img") && ImgOf(ctx, x).Some? {
        ParaRunsGrow(ctx, pNode, i + 1, runs + [ImgOf(ctx, x).value]);
      } else {
        ParaRunsGrow(ctx, pNode, i + 1, runs);
      }
    }
  }

  /** A span at child `j` adds at least one run. */
  lemma {:induction false} ParaRunsSpan(ctx: Ctx, pNode: XNode, i: nat, runs: seq<Run>, j: nat)
    requires i <= j < |Children(pNode)| && IsElementNamed(Children(pNode)[j], "span")
    requires ParaRunsFrom(ctx, pNode, i, runs).Ok?
    ensures |ParaRunsFrom(ctx, pNode, i, runs).value| > |runs|
    decreases |Children(pNode)| - i
  {
    var x := Children(pNode)[i];
    if i == j {
      SpanRuns(ctx, x);
      ParaRunsGrow(ctx, pNode, i + 1, runs + SpanOf(ctx, x).value);
    } else if IsElementNamed(x, "span") {
      ParaRunsSpan(ctx, pNode, i + 1, runs + SpanOf(ctx, x).value, j);
    } else if IsElementNamed(x, "img") && ImgOf(ctx, x).Some? {
      ParaRunsSpan(ctx, pNode, i + 1, runs + [ImgOf(ctx, x).value], j);
    } else {
      ParaRunsSpan(ctx, pNode, i + 1, runs, j);
    }
  }

  /** A paragraph with a span child is never dropped, since every span
      gives a run; only paragraphs whose runs all come from pictures that
      were not found, or that have no span or picture, are. */
  lemma ParagraphWithSpan(ctx: Ctx, pNode: XNode, j: nat)
    requires pNode.Element? && j < |pNode.children| && IsElementNamed(pNode.children[j], "span")
    requires ParagraphOf(ctx, pNode).Ok?
    ensures ParagraphOf(ctx, pNode).value.Some?
  {
    ParaRunsSpan(ctx, pNode, 0, [], j);
  }

  /** The loop of `createUL` from child `i` on: each `li` with a first
      child adds the paragraph made of that first child, when there is
      one. */
  function ListFrom(ctx: Ctx, ulNode: XNode, i: nat, paragraphs: seq<Block>): Try<seq<Block>>
    requires i <= |Children(ulNode)|
    decreases |Children(ulNode)| - i
  {
    if i == |Children(ulNode)| then Ok(paragraphs)
    else
      var x := Children(ulNode)[i];
      if !IsElementNamed(x, "li") || x.children == [] then ListFrom(ctx, ulNode, i + 1, paragraphs)
      else
        match ParagraphOf(ctx, x.children[0])
        case Throws => Throws
        case Ok(None) => ListFrom(ctx, ulNode, i + 1, paragraphs)
        case Ok(Some(liP)) => ListFrom(ctx, ulNode, i + 1, paragraphs + [liP])
  }

  /** `createUL(ctx, ulNode)`, used for `ol` too: null for a node without
      child nodes. */
  function ListOf(ctx: Ctx, ulNode: XNode): Try<Option<seq<Block>>>
  {
    if !ulNode.Element? then Ok(None)
    else
      match ListFrom(ctx, ulNode, 0, [])
      case Throws => Throws
      case Ok(ps) => Ok(Some(ps))
  }

  method CreateUL(ctx: Ctx, ulNode: XNode) returns (r: Try<Option<seq<Block>>>)
    ensures r == ListOf(ctx, ulNode)
  {
    if !ulNode.Element? {
      return Ok(None);
    }
    var kids := ulNode.children;
    var paragraphs: seq<Block> := [];
    ghost var result := ListFrom(ctx, ulNode, 0, paragraphs);
    for i := 0 to |kids|
      invariant ListFrom(ctx, ulNode, i, paragraphs) == result
    {
      var childNode := kids[i];
      if IsElementNamed(childNode, "li") && childNode.children != [] {
        var pNode := childNode.children[0];
        var liP := CreateParagraph(ctx, pNode);
        if liP.Throws? {
          return Throws;
        }
        if liP.value.Some? {
          paragraphs := paragraphs + [liP.value.value];
        }
      }
    }
    r := Ok(Some(paragraphs));
  }

  /** The number of `li` children from `i` on. */
  function ItemsFrom(kids: seq<XNode>, i: nat): nat
    requires i <= |kids|
    decreases |kids| - i
  {
    if i == |kids| then 0 else (if IsElementNamed(kids[i], "li") then 1 else 0) + ItemsFrom(kids, i + 1)
  }

  lemma {:induction false} ListFromItems(ctx: Ctx, ulNode: XNode, i: nat, paragraphs: seq<Block>)
    requires i <= |Children(ulNode)|
    requires ListFrom(ctx, ulNode, i, paragraphs).Ok?
    ensures |ListFrom(ctx, ulNode, i, paragraphs).value| <= |paragraphs| + ItemsFrom(Children(ulNode), i)
    ensures forall b :: b in ListFrom(ctx, ulNode, i, paragraphs).value ==> b in paragraphs || b.Paragraph?
    decreases |Children(ulNode)| - i
  {
    if i < |Children(ulNode)| {
      var x := Children(ulNode)[i];
      if !IsElementNamed(x, "li") || x.children == [] {
        ListFromItems(ctx, ulNode, i + 1, paragraphs);
      } else {
        match ParagraphOf(ctx, x.children[0])
        case Ok(None) => ListFromItems(ctx, ulNode, i + 1, paragraphs);
        case Ok(Some(liP)) => ListFromItems(ctx, ulNode, i + 1, paragraphs + [liP]);
      }
    }
  }

  /** A list gives at most one paragraph per `li`, and only paragraphs. */
  lemma ListParagraphs(ctx: Ctx, ulNode: XNode)
    requires ListOf(ctx, ulNode).Ok? && ListOf(ctx, ulNode).value.Some?
    ensures |ListOf(ctx, ulNode).value.value| <= ItemsFrom(Children(ulNode), 0)
    ensures forall b :: b in ListOf(ctx, ulNode).value.value ==> b.Paragraph?
  {
    ListFromItems(ctx, ulNode, 0, []);
  }

  // ---------------------------------------------------------------------------
  // Tables

  /** The blocks one child of a cell adds in `createTableCell`: `div`
      children and other nodes add none, `p`, `ul`/`ol` and nested `table`
      children add what they build. */
  function CellChildBlocks(ctx: Ctx, x: XNode): Try<seq<Block>>
    decreases x, |Children(x)| + 2
  {
    if IsElementNamed(x, "p") then
      match ParagraphOf(ctx, x)
      case Throws => Throws
      case Ok(p) => Ok(if p.Some? then [p.value] else [])
    else if IsElementNamed(x, "ul") || IsElementNamed(x, "ol") then
      match ListOf(ctx, x)
      case Throws => Throws
      case Ok(ps) => Ok(if ps.Some? then ps.value else [])
    else if IsElementNamed(x, "table") then
      match TableOf(ctx, x)
      case Throws => Throws
      case Ok(t) => Ok(if t.Some? then [t.value] else [])
    else
      Ok([])
  }

  /** The loop of `createTableCell` from child `i` on. */
  function CellBlocksFrom(ctx: Ctx, cellNode: XNode, i: nat, blocks: seq<Block>): Try<seq<Block>>
    requires i <= |Children(cellNode)|
    decreases cellNode, |Children(cellNode)| - i
  {
    if i == |Children(cellNode)| then Ok(blocks)
    else
      match CellChildBlocks(ctx, Children(cellNode)[i])
      case Throws => Throws
      case Ok(bs) => CellBlocksFrom(ctx, cellNode, i + 1, blocks + bs)
  }

  /** A span option, set only above 1 (NaN is not). */
  function SpanOption(n: Num): (r: Option<int>)
    ensures r.Some? <==> n.Int? && n.value > 1
    ensures r.Some? ==> r.value == n.value
  {
    if n.Int? && n.value > 1 then Some(n.value) else None
  }

  /** A width in dxa, set only for a truthy pixel width. */
  function WidthOption(px: Num): (r: Option<int>)
    ensures r.Some? <==> px.Truthy()
    ensures r.Some? ==> Elem.Dxa2PxNum(Int(r.value)) == px
  {
    if px.Truthy() then Some(PxNum2Dxa(px.value)) else None
  }

  /** `createTableCell(ctx, tableCellNode)`: null for a node without child
      nodes; `colSpan`/`rowSpan` above 1 become spans and the pixel width
      becomes dxa. */
  function CellOf(ctx: Ctx, cellNode: XNode): Try<Option<Cell>>
    decreases cellNode, |Children(cellNode)| + 1
  {
    if !cellNode.Element? then Ok(None)
    else
      match CellBlocksFrom(ctx, cellNode, 0, [])
      case Throws => Throws
      case Ok(blocks) =>
        Ok(Some(Cell(blocks,
                     SpanOption(ParseInt(Attr(cellNode, "colSpan"))),
                     SpanOption(ParseInt(Attr(cellNode, "rowSpan"))),
                     WidthOption(Px2Num(Attr(cellNode, "width"))),
                     false)))
  }

  /** The loop of `createTableRow` from child `i` on: every element child
      is made a cell, whatever its tag. */
  function RowCellsFrom(ctx: Ctx, rowNode: XNode, i: nat, cells: seq<Cell>): Try<seq<Cell>>
    requires i <= |Children(rowNode)|
    decreases rowNode, |Children(rowNode)| - i
  {
    if i == |Children(rowNode)| then Ok(cells)
    else
      match CellOf(ctx, Children(rowNode)[i])
      case Throws => Throws
      case Ok(c) => RowCellsFrom(ctx, rowNode, i + 1, if c.Some? then cells + [c.value] else cells)
  }

  /** `createTableRow(ctx, tableRowNode)`: a header row iff the node has a
      `header` attribute. */
  function RowOf(ctx: Ctx, rowNode: XNode): Try<Option<Row>>
    decreases rowNode, |Children(rowNode)| + 1
  {
    if !rowNode.Element? then Ok(None)
    else
      match RowCellsFrom(ctx, rowNode, 0, [])
      case Throws => Throws
      case Ok(cells) => Ok(Some(Row(cells, HasAttr(rowNode, "header"))))
  }

  /** The loop of `createTable` from child `i` on: every element child is
      made a row. */
  function TableRowsFrom(ctx: Ctx, tableNode: XNode, i: nat, rows: seq<Row>): Try<seq<Row>>
    requires i <= |Children(tableNode)|
    decreases tableNode, |Children(tableNode)| - i
  {
    if i == |Children(tableNode)| then Ok(rows)
    else
      match RowOf(ctx, Children(tableNode)[i])
      case Throws => Throws
      case Ok(r) => TableRowsFrom(ctx, tableNode, i + 1, if r.Some? then rows + [r.value] else rows)
  }

  /** The cell margins of every table `createTable` builds, in dxa. */
  const TableMargin := 75

  /** `createTable(ctx, tableNode)`: fixed layout, 75-dxa margins, and the
      pixel width in dxa when it is truthy. */
  function TableOf(ctx: Ctx, tableNode: XNode): Try<Option<Block>>
    decreases tableNode, |Children(tableNode)| + 1
  {
    if !tableNode.Element? then Ok(None)
    else
      match TableRowsFrom(ctx, tableNode, 0, [])
      case Throws => Throws
      case Ok(rows) => Ok(Some(Table(rows, WidthOption(Px2Num(Attr(tableNode, "width"))), Some(TableMargin), [])))
  }

  method CreateTableCell(ctx: Ctx, tableCellNode: XNode) returns (r: Try<Option<Cell>>)
    ensures r == CellOf(ctx, tableCellNode)
    decreases tableCellNode
  {
    if !tableCellNode.Element? {
      return Ok(None);
    }
    var colSpan := ParseInt(Attr(tableCellNode, "colSpan"));
    var rowSpan := ParseInt(Attr(tableCellNode, "rowSpan"));
    var width := Px2Num(Attr(tableCellNode, "width"));
    var kids := tableCellNode.children;
    var blocks: seq<Block> := [];
    ghost var result := CellBlocksFrom(ctx, tableCellNode, 0, blocks);
    for i := 0 to |kids|
      invariant CellBlocksFrom(ctx, tableCellNode, i, blocks) == result
    {
      var childNode := kids[i];
      var added: Try<seq<Block>> := Ok([]);
      if IsElementNamed(childNode, "div") {
      } else if IsElementNamed(childNode, "p") {
        var p := CreateParagraph(ctx, childNode);
        added := if p.Throws? then Throws else Ok(if p.value.Some? then [p.value.value] else []);
      } else if IsElementNamed(childNode, "ul") || IsElementNamed(childNode, "ol") {
        var ps := CreateUL(ctx, childNode);
        added := if ps.Throws? then Throws else Ok(if ps.value.Some? then ps.value.value else []);
      } else if IsElementNamed(childNode, "table") {
        var table := CreateTable(ctx, childNode);
        added := if table.Throws? then Throws else Ok(if table.value.Some? then [table.value.value] else []);
      }
      assert added == CellChildBlocks(ctx, childNode);
      if added.Throws? {
        return Throws;
      }
      blocks := blocks + added.value;
    }
    r := Ok(Some(Cell(blocks, SpanOption(colSpan), SpanOption(rowSpan), WidthOption(width), false)));
  }

  method CreateTableRow(ctx: Ctx, tableRowNode: XNode) returns (r: Try<Option<Row>>)
    ensures r == RowOf(ctx, tableRowNode)
    decreases tableRowNode
  {
    if !tableRowNode.Element? {
      return Ok(None);
    }
    var kids := tableRowNode.children;
    var tableCells: seq<Cell> := [];
    ghost var result := RowCellsFrom(ctx, tableRowNode, 0, tableCells);
    for i := 0 to |kids|
      invariant RowCellsFrom(ctx, tableRowNode, i, tableCells) == result
    {
      var tableCell := CreateTableCell(ctx, kids[i]);
      if tableCell.Throws? {
        return Throws;
      }
      if tableCell.value.Some? {
        tableCells := tableCells + [tableCell.value.value];
      }
    }
    r := Ok(Some(Row(tableCells, HasAttr(tableRowNode, "header"))));
  }

  method CreateTable(ctx: Ctx, tableNode: XNode) returns (r: Try<Option<Block>>)
    ensures r == TableOf(ctx, tableNode)
    decreases tableNode
  {
    if !tableNode.Element? {
      return Ok(None);
    }
    var width := Px2Num(Attr(tableNode, "width"));
    var kids := tableNode.children;
    var tableRows: seq<Row> := [];
    ghost var result := TableRowsFrom(ctx, tableNode, 0, tableRows);
    for i := 0 to |kids|
      invariant TableRowsFrom(ctx, tableNode, i, tableRows) == result
    {
      var tableRow := CreateTableRow(ctx, kids[i]);
      if tableRow.Throws? {
        return Throws;
      }
      if tableRow.value.Some? {
        tableRows := tableRows + [tableRow.value.value];
      }
    }
    r := Ok(Some(Table(tableRows, WidthOption(width), Some(TableMargin), [])));
  }

  /** The number of element children from `i` on. */
  function ElementsFrom(kids: seq<XNode>, i: nat): nat
    requires i <= |kids|
    decreases |kids| - i
  {
    if i == |kids| then 0 else (if kids[i].Element? then 1 else 0) + ElementsFrom(kids, i + 1)
  }

  lemma {:induction false} RowCellsCount(ctx: Ctx, rowNode: XNode, i: nat, cells: seq<Cell>)
    requires i <= |Children(rowNode)|
    requires RowCellsFrom(ctx, rowNode, i, cells).Ok?
    ensures |RowCellsFrom(ctx, rowNode, i, cells).value| == |cells| + ElementsFrom(Children(rowNode), i)
    decreases |Children(rowNode)| - i
  {
    if i < |Children(rowNode)| {
      var c := CellOf(ctx, Children(rowNode)[i]).value;
      RowCellsCount(ctx, rowNode, i + 1, if c.Some? then cells + [c.value] else cells);
    }
  }

  /** Every element child of a row is a cell, whatever its tag, and text
      between them is skipped. */
  lemma RowCells(ctx: Ctx, rowNode: XNode)
    requires RowOf(ctx, rowNode).Ok? && RowOf(ctx, rowNode).value.Some?
    ensures |RowOf(ctx, rowNode).value.value.cells| == ElementsFrom(Children(rowNode), 0)
    ensures RowOf(ctx, rowNode).value.value.tableHeader <==> HasAttr(rowNode, "header")
  {
    RowCellsCount(ctx, rowNode, 0, []);
  }

  lemma {:induction false} TableRowsCount(ctx: Ctx, tableNode: XNode, i: nat, rows: seq<Row>)
    requires i <= |Children(tableNode)|
    requires TableRowsFrom(ctx, tableNode, i, rows).Ok?
    ensures |TableRowsFrom(ctx, tableNode, i, rows).value| == |rows| + ElementsFrom(Children(tableNode), i)
    decreases |Children(tableNode)| - i
  {
    if i < |Children(tableNode)| {
      var r := RowOf(ctx, Children(tableNode)[i]).value;
      TableRowsCount(ctx, tableNode, i + 1, if r.Some? then rows + [r.value] else rows);
    }
  }

  /** Every element child of a table is a row; every table has the fixed
      75-dxa margins and no column widths. */
  lemma TableRows(ctx: Ctx, tableNode: XNode)
    requires TableOf(ctx, tableNode).Ok? && TableOf(ctx, tableNode).value.Some?
    ensures TableOf(ctx, tableNode).value.value.Table?
    ensures |TableOf(ctx, tableNode).value.value.rows| == ElementsFrom(Children(tableNode), 0)
    ensures TableOf(ctx, tableNode).value.value.margins == Some(TableMargin)
  {
    TableRowsCount(ctx, tableNode, 0, []);
  }

  /** A cell's spans are set only above 1 and its width is the pixel width
      in dxa, which reads back as the same pixels. */
  lemma CellOptions(ctx: Ctx, cellNode: XNode)
    requires CellOf(ctx, cellNode).Ok? && CellOf(ctx, cellNode).value.Some?
    ensures var c := CellOf(ctx, cellNode).value.value;
      && (c.columnSpan.Some? <==> ParseInt(Attr(cellNode, "colSpan")).Int? && ParseInt(Attr(cellNode, "colSpan")).value > 1)
      && (c.rowSpan.Some? <==> ParseInt(Attr(cellNode, "rowSpan")).Int? && ParseInt(Attr(cellNode, "rowSpan")).value > 1)
      && (c.width.Some? <==> Px2Num(Attr(cellNode, "width")).Truthy())
      && (c.width.Some? ==> Elem.Dxa2PxNum(Int(c.width.value)) == Px2Num(Attr(cellNode, "width")))
      && !c.borderless
  {
  }

  // ---------------------------------------------------------------------------
  // The section

  /** The width of the invisible spacer table, in dxa. */
  const SpacerWidth := 8932

  /** `createBreak`: a one-cell, borderless, fixed-layout table holding an
      empty paragraph, used to separate questions. */
  function SpacerTable(): (t: Block)
    ensures t.Table? && |t.rows| == 1 && |t.rows[0].cells| == 1 && t.rows[0].cells[0].borderless
    ensures t.width == Some(SpacerWidth) && t.columnWidths == [SpacerWidth]
  {
    Table([Row([Cell([TextParagraph("")], None, None, Some(SpacerWidth), true)], false)],
          Some(SpacerWidth), None, [SpacerWidth])
  }

  /** The loop of `createDocx` from child `i` on. */
  function DocBlocksFrom(ctx: Ctx, rootNode: XNode, i: nat, blocks: seq<Block>): Try<seq<Block>>
    requires i <= |Children(rootNode)|
    decreases |Children(rootNode)| - i
  {
    if i == |Children(rootNode)| then Ok(blocks)
    else
      var x := Children(rootNode)[i];
      if IsElementNamed(x, "div") then
        DocBlocksFrom(ctx, rootNode, i + 1, blocks + [SpacerTable()])
      else if IsElementNamed(x, "p") then
        match ParagraphOf(ctx, x)
        case Throws => Throws
        case Ok(p) => DocBlocksFrom(ctx, rootNode, i + 1, blocks + (if p.Some? then [p.value] else []))
      else if IsElementNamed(x, "ul") || IsElementNamed(x, "ol") then
        match ListOf(ctx, x)
        case Throws => Throws
        case Ok(ps) => DocBlocksFrom(ctx, rootNode, i + 1, blocks + (if ps.Some? then ps.value else []))
      else if IsElementNamed(x, "table") then
        match TableOf(ctx, x)
        case Throws => Throws
        case Ok(t) => DocBlocksFrom(ctx, rootNode, i + 1, blocks + (if t.Some? then [t.value] else []))
      else
        DocBlocksFrom(ctx, rootNode, i + 1, blocks)
  }

  /** `createDocx(htDoc, images, maths)`: the blocks of the one section
      added, none when the document has no root element. */
  function DocxOf(ctx: Ctx, rootNode: Option<XNode>): Try<Option<seq<Block>>>
  {
    if rootNode.None? || !rootNode.value.Element? then Ok(None)
    else
      match DocBlocksFrom(ctx, rootNode.value, 0, [])
      case Throws => Throws
      case Ok(blocks) => Ok(Some(blocks))
  }

  method CreateDocx(ctx: Ctx, rootNode: Option<XNode>) returns (r: Try<Option<seq<Block>>>)
    ensures r == DocxOf(ctx, rootNode)
  {
    if rootNode.None? || !rootNode.value.Element? {
      return Ok(None);
    }
    var root := rootNode.value;
    var kids := root.children;
    var blocks: seq<Block> := [];
    ghost var result := DocBlocksFrom(ctx, root, 0, blocks);
    for i := 0 to |kids|
      invariant DocBlocksFrom(ctx, root, i, blocks) == result
    {
      var childNode := kids[i];
      if IsElementNamed(childNode, "div") {
        blocks := blocks + [SpacerTable()];
      } else if IsElementNamed(childNode, "p") {
        var p := CreateParagraph(ctx, childNode);
        if p.Throws? {
          return Throws;
        }
        blocks := blocks + (if p.value.Some? then [p.value.value] else []);
      } else if IsElementNamed(childNode, "ul") || IsElementNamed(childNode, "ol") {
        var ps := CreateUL(ctx, childNode);
        if ps.Throws? {
          return Throws;
        }
        blocks := blocks + (if ps.value.Some? then ps.value.value else []);
      } else if IsElementNamed(childNode, "table") {
        var table := CreateTable(ctx, childNode);
        if table.Throws? {
          return Throws;
        }
        blocks := blocks + (if table.value.Some? then [table.value.value] else []);
      }
    }
    r := Ok(Some(blocks));
  }

  /** The `createDocx` loop only adds: the blocks collected before a child
      are still the first blocks at the end. */
  lemma {:induction false} DocBlocksKeepEarlier(ctx: Ctx, rootNode: XNode, i: nat, blocks: seq<Block>)
    requires i <= |Children(rootNode)|
    requires DocBlocksFrom(ctx, rootNode, i, blocks).Ok?
    ensures |blocks| <= |DocBlocksFrom(ctx, rootNode, i, blocks).value|
    ensures DocBlocksFrom(ctx, rootNode, i, blocks).value[..|blocks|] == blocks
    decreases |Children(rootNode)| - i
  {
    if i < |Children(rootNode)| {
      var x := Children(rootNode)[i];
      var more: seq<Block> := [];
      if IsElementNamed(x, "div") {
        more := [SpacerTable()];
      } else if IsElementNamed(x, "p") {
        var p := ParagraphOf(ctx, x).value;
        more := if p.Some? then [p.value] else [];
      } else if IsElementNamed(x, "ul") || IsElementNamed(x, "ol") {
        var ps := ListOf(ctx, x).value;
        more := if ps.Some? then ps.value else [];
      } else if IsElementNamed(x, "table") {
        var t := TableOf(ctx, x).value;
        more := if t.Some? then [t.value] else [];
      } else {
        assert blocks + more == blocks;
      }
      assert DocBlocksFrom(ctx, rootNode, i, blocks) == DocBlocksFrom(ctx, rootNode, i + 1, blocks + more);
      DocBlocksKeepEarlier(ctx, rootNode, i + 1, blocks + more);
      var v := DocBlocksFrom(ctx, rootNode, i, blocks).value;
      assert v[..|blocks + more|][..|blocks|] == v[..|blocks|];
      assert (blocks + more)[..|blocks|] == blocks;
    }
  }

  /** Top-level children other than `div`, `p`, `ul`, `ol` and `table` are
      skipped: a root holding only such children gives no blocks. */
  lemma {:induction false} OtherChildrenSkipped(ctx: Ctx, rootNode: XNode, i: nat, blocks: seq<Block>)
    requires i <= |Children(rootNode)|
    requires forall j :: i <= j < |Children(rootNode)| ==>
      !IsElementNamed(Children(rootNode)[j], "div") && !IsElementNamed(Children(rootNode)[j], "p") &&
      !IsElementNamed(Children(rootNode)[j], "ul") && !IsElementNamed(Children(rootNode)[j], "ol") &&
      !IsElementNamed(Children(rootNode)[j], "table")
    ensures DocBlocksFrom(ctx, rootNode, i, blocks) == Ok(blocks)
    decreases |Children(rootNode)| - i
  {
    if i < |Children(rootNode)| {
      OtherChildrenSkipped(ctx, rootNode, i + 1, blocks);
    }
  }

  /** Each top-level `div` becomes one spacer table, and nothing else does:
      a document of `div`s is that many spacer tables. */
  lemma {:induction false} DivsAreSpacers(ctx: Ctx, rootNode: XNode, i: nat, blocks: seq<Block>)
    requires i <= |Children(rootNode)|
    requires forall j :: i <= j < |Children(rootNode)| ==> IsElementNamed(Children(rootNode)[j], "div")
    ensures DocBlocksFrom(ctx, rootNode, i, blocks).Ok?
    ensures |DocBlocksFrom(ctx, rootNode, i, blocks).value| == |blocks| + |Children(rootNode)| - i
    ensures forall k :: 0 <= k < |blocks| ==> DocBlocksFrom(ctx, rootNode, i, blocks).value[k] == blocks[k]
    ensures forall k :: |blocks| <= k < |DocBlocksFrom(ctx, rootNode, i, blocks).value| ==>
      DocBlocksFrom(ctx, rootNode, i, blocks).value[k] == SpacerTable()
    decreases |Children(rootNode)| - i
  {
    if i < |Children(rootNode)| {
      DivsAreSpacers(ctx, rootNode, i + 1, blocks + [SpacerTable()]);
    }
  }
}
