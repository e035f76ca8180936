# htdocx in Dafny

This project models the core of htdocx, a converter between an Office Open
XML WordprocessingML document (ECMA-376 Part 1, clause 17) and a simplified
HTML tree, and proves properties of that model. It covers both directions:

- **docx to HTML.** A `.docx` package's parts (relationships, numbering,
  styles, document) are parsed into an intermediate component tree. Drawings
  and embedded objects are resolved through an outside resolver. The tree is
  then rendered to an HTML tree, and list numbers are threaded through the
  walk.
- **HTML to docx.** A simplified HTML tree (`div`, `p`, `ul`, `ol`, `table`,
  `span`, `img`) is mapped onto the block structure of the `docx` builder
  library. That structure is modelled as plain data.

The modules follow the source files:

| module | file | models |
|---|---|---|
| `Wrappers` | wrappers.dfy | `Option`, `Try` (a JavaScript value or a thrown exception), and a loop over a sequence whose body may throw |
| `Js` | js.dfy | the JavaScript built-ins the code relies on: `parseInt`, `String(n)`, `n.toString(16)`, `indexOf`, `replace`, string comparison, NaN |
| `Xml` | xml.dfy | the XML input as a node tree; `getAttribute`, `textContent`, `getChildrenByTagName`, `firstElementByTagName` |
| `Tables` | tables.dfy | the `px2ptTab` and `sz2pxTab` lookup tables |
| `Helper` | helper.dfy | entity decoding, the brace-aware delimiter scanner and splitter, `replaceMathML` |
| `NumberFormat` | numformat.dfy | the letter, Roman and simplified-Chinese list-number formatters |
| `Numbering` | numbering.dfy | the numbering part and its counter machine `setNumLevel`, as a class whose state is the counter table |
| `Elem` | elem.dfy | the intermediate tree, `addChild`, unit conversions, the style dictionary, border styles, the rowspan pass |
| `ElemHtml` | elemhtml.dfy | the `toHTElem` renderers, as a pure walk that threads the numbering counters |
| `DocxProps` | docxprops.dfy | the property parsers (`parseRunPR`, `parsePPR`, `parseTablePR`, ...) |
| `DocxTree` | docxtree.dfy | the tree builders (`parseText`, `parseRun`, `parseWP`, `parseTableCell`, `parseWTBL`, `parseDocument`, ...) |
| `Package` | package.dfy | relationships, styles, resource resolution, the `Docx` object, `parseDocx`, `createHT` |
| `Ht2docx` | ht2docx.dfy | the HTML-to-docx builder |

The parsers and builders loop over `childNodes`, so each is a method with a
loop. Each method is proved equal to a specification function, and the
properties are proved about those functions. The counters and the formula
table change in place, so they are class fields. The intermediate tree is a
value. `createHT` writes into that tree in place: it resolves images and
formulas, and the rowspan pass marks the tables' cells. The model assigns
the document the tree that results (`Resolved`, then `Marked`).

Where the code and its design description disagree, the model follows the
code:

- **Deeper levels.** `setNumLevel` resets only the deeper level keys already
  present in the list's table, and "deeper" means greater as a string. It
  does not reset every level with a greater index.
- **Uncaught errors.** Some paths throw instead of degrading:
  - a second `w:t` in a run whose first text was merged into the previous run;
  - a paragraph border with a top edge but a missing bottom or left edge;
  - a colour that is not `rgb(...)`;
  - a Roman numeral whose count of `M`s is out of range.

  Each of these is modelled as `Throws`.
- **Text runs.** Besides decoding entities, text runs replace every
  backslash and every letter `t` with two spaces.
- **Roman numerals.** These are not limited to 1-3999. `n / 1000` leading
  `M`s are written for any size. Negative numbers give the results that
  `Digits` popping produces.

## Model

| member | source | states |
|---|---|---|
| Wrappers.FoldTryAppend | dist/node/docx2ht.js:24-36 | a child loop over `a + b` is the loop over `a` followed by the loop over `b`, and an exception in `a` ends it |
| Wrappers.FoldTrySkips | dist/node/docx2ht.js:746-789 | children the loop body ignores leave the loop state unchanged |
| Wrappers.FoldTryKeeps | dist/node/docx2ht.js:964-1003 | an invariant each loop turn keeps holds at the end of a loop that does not throw |
| Xml.ElementsNamed | dist/node/docx2ht.js:24-36 | the selected children are exactly the element children with the tag, and there are at most as many as children |
| Xml.ElementsNamedAppend | dist/node/docx2ht.js:24-36 | filtering a concatenation filters each part |
| Xml.ChildrenByTagName | dist/node/docx2ht.js:24-36 | the `getChildrenByTagName` loop returns the element children with the tag, in document order |
| Xml.FirstNamed | dist/node/docx2ht.js:38-62 | the first element with the tag is one of the list and has the tag; none means no element of the list has it |
| Xml.FirstElementIsPreOrder | dist/node/docx2ht.js:38-62 | `firstElementByTagName` finds the first element with the tag in a pre-order walk of the descendants |
| Tables.Px2PtEntry | src/helper.js:249-275 | `px2ptTab` has an entry exactly for 9 to 33 pixels, and twice the entry is `(3n + 1) / 2` |
| Tables.Sz2PxEntry | src/helper.js:277-315 | `sz2pxTab` has an entry exactly for 14 to 50 half-points, and the entry is `2n / 3` rounded down |
| Helper.DecodeEntities | src/helper.js:8-22 | decoding never lengthens a string, and a string without `&` is unchanged |
| Helper.DecodeEscaped | src/helper.js:8-22 | decoding inverts HTML escaping of `&`, `<`, `>` and `"`: a round trip |
| Helper.DecodeNbsp | src/helper.js:8-22 | `&nbsp;` becomes a plain space |
| Helper.DecodeIsSinglePass | src/helper.js:8-22 | the pass is single: `&amp;` is followed by the decoding of the rest, and `&amp;lt;` decodes to `&lt;`, not `<` |
| Helper.EndOfMath | src/helper.js:24-50 | the answer is -1 or an index at or after `startIndex` where the delimiter fits in the text |
| Helper.FindEndOfMath | src/helper.js:24-50 | the `findEndOfMath` loop answers what the specification scan answers |
| Helper.EndOfMathOccurs | src/helper.js:24-50 | where an index is returned, the delimiter occurs there |
| Helper.EndOfMathPlain | src/helper.js:24-50 | on text without braces or backslashes, the scan is `indexOf` |
| Helper.EndOfMathSkipsEscaped | src/helper.js:30-36 | the character after a backslash is never the match |
| Helper.EndOfMathInsideBraces | src/helper.js:24-50 | inside an open brace the delimiter is not matched: `$` in `{$}$` is found at 3 |
| Helper.SplitAtDelimiters | src/helper.js:52-113 | the `splitAtDelimiters` loop returns the specification split |
| Helper.SplitLoop | src/helper.js:65-110 | the while loop, fed the pieces so far, returns the whole split |
| Helper.PushText | src/helper.js:67-80 | a left delimiter found: the text before it is pushed and the scan looks for the right delimiter |
| Helper.PushMath | src/helper.js:81-105 | a right delimiter found: the math piece with its data and raw text is pushed and the scan looks for a left delimiter |
| Helper.SplitJoined | src/helper.js:52-113 | joining the text pieces' data and the math pieces' raw data gives back the input exactly |
| Helper.SplitShape | src/helper.js:65-110 | the pieces are non-empty, start and end with text, and alternate; every math piece's raw data is left delimiter, data, right delimiter |
| Helper.SplitTexts | src/helper.js:65-110 | no text piece but the last holds the left delimiter; the last holds none, or starts with it and has no closing delimiter |
| Helper.CleanUnmatched | src/helper.js:106-110 | an unmatched left delimiter leaves the rest, delimiter included, as the last text piece |
| Helper.SplitTrivial | src/helper.js:52-58 | a non-text start gives `[]`; text without the left delimiter is one text piece |
| Helper.MathKeyInjective | src/helper.js:124-136 | distinct ids give distinct `@math-ml-<id>@` keys |
| Helper.ReplaceMathML | src/helper.js:115-138 | the result is `"undefined"` followed by the text with each `<math>` block replaced by its key; the table gains the keyed blocks |
| Helper.ReplaceLoop | src/helper.js:124-136 | the loop over the pieces appends text and keys, and stores one entry per math piece |
| Helper.MathEntriesContent | src/helper.js:124-136 | the k-th math block is stored as MathML under the key of id `startId + k`, and there are exactly as many entries as blocks |
| NumberFormat.UpperLetterOfNum | src/helper.js:183-187 | the result is one character |
| NumberFormat.LowerLetterOfNum | src/helper.js:189-193 | the result is one character |
| NumberFormat.LettersOfAlphabet | src/helper.js:183-193 | for 1 to 26 the letter is the n-th capital (code 64 + n) or small letter (code 96 + n) |
| NumberFormat.LettersDoNotWrap | src/helper.js:183-193 | there is no wrap-around: 27 gives `[` or `{`, and 0 gives `@` or `` ` `` |
| NumberFormat.RomanOfNum | src/helper.js:195-207 | the digit-popping loop gives the specification numeral, or throws where `Array(n)` would |
| NumberFormat.UpperRomanOfNum | src/helper.js:195-207 | `upperRomanOfNum` is the loop over the upper-case key |
| NumberFormat.LowerRomanOfNum | src/helper.js:209-221 | `lowerRomanOfNum` is the loop over the lower-case key |
| NumberFormat.RomanNonNegative | src/helper.js:195-207 | from 0 up: `n / 1000` `M`s followed by the hundreds, tens and units pieces; it throws once the `M` count passes the array limit; 0 gives `""` |
| NumberFormat.RomanRoundTrip | src/helper.js:195-207 | from 0 up, the numeral is worth the number: the value of the letters read back is the input |
| NumberFormat.RomanNegative | src/helper.js:195-207 | negative numbers give the numeral of their absolute value from -99 to -1 and from -1999 to -1000, and throw otherwise |
| NumberFormat.RomanHundredsNegative | src/helper.js:195-207 | from -999 to -100, a lone minus sign is left for the `M` count and the call throws |
| NumberFormat.LowerRoman | src/helper.js:209-221 | the lower-case numeral exists iff the upper-case one does; below 1000 it is its lower case; from 1000 the leading `M`s stay upper case |
| NumberFormat.SimpleChineseOfNum | src/helper.js:223-247 | the loop gives the specification reading |
| NumberFormat.ChineseRounds | src/helper.js:229-244 | the for loop over the digit characters gives the reading from the first digit with `prevIsZero` false |
| NumberFormat.ChineseZero | src/helper.js:223-247 | 0 gives `""` |
| NumberFormat.ChineseOneDigit | src/helper.js:223-247 | 1 to 9 give the one digit character |
| NumberFormat.ChineseTeens | src/helper.js:223-247 | 10 to 19 lose their leading `一`: 10 is `十`, 11 is `十一` |
| NumberFormat.ChineseReadsDigits | src/helper.js:229-244 | `prevIsZero` means some 0 has been passed, so every later non-zero digit gets a `零` in front |
| NumberFormat.ChineseOfReading | src/helper.js:223-247 | from 100 to twelve digits, the result reads each non-zero digit with its position, with `零` before it after any earlier 0 |
| Numbering.IndentOf | dist/node/docx2ht.js:171-183 | no `w:ind` element gives no indentation |
| Numbering.ParseLevel | dist/node/docx2ht.js:136-191 | the loop over a `w:lvl`'s children keeps the last value of each setting |
| Numbering.LevelsOf | dist/node/docx2ht.js:136-191 | one level per `w:lvl` element |
| Numbering.ParseAbstractNum | dist/node/docx2ht.js:136-191 | `parseAbstractNum` returns the specification abstract definition |
| Numbering.ParseNum | dist/node/docx2ht.js:193-211 | `parseNum` returns the specification num |
| Numbering.FindAbstract | dist/node/docx2ht.js:238-256 | the definition found is the first with the id; none means no definition has it |
| Numbering.Resolved | dist/node/docx2ht.js:238-256 | each num gets the first abstract definition with its `abstractNumId`, and nothing else changes |
| Numbering.ParseAbstractNums | dist/node/docx2ht.js:213-259 | the push loop parses every `w:abstractNum` in order |
| Numbering.ParseNums | dist/node/docx2ht.js:213-259 | the push loop parses every `w:num` in order |
| Numbering.ResolveNums | dist/node/docx2ht.js:238-256 | the resolving loop gives the resolved nums |
| Numbering.FindNum | dist/node/docx2ht.js:261-280 | the num found is the first with the id; none means no num has it |
| Numbering.FindLevel | dist/node/docx2ht.js:261-280 | the level found is the first with the `ilvl`; none means no level has it |
| Numbering.ResetDeeper | dist/node/docx2ht.js:287-292 | the reset keeps the set of level keys |
| Numbering.DigitPrefix | dist/node/docx2ht.js:316-346 | the greedy digit run after a `%` is all digits and is followed by a non-digit |
| Numbering.StepInactive | dist/node/docx2ht.js:261-280 | a call returns null exactly when the num, its abstract definition or the level is missing; the counters are then untouched |
| Numbering.AdvancedLast | dist/node/docx2ht.js:287-312 | after a call of level L: L's counter goes up by one, a deeper key already present restarts at 0, and every other key keeps its counter |
| Numbering.StepActive | dist/node/docx2ht.js:281-346 | a call of a known level advances only its list's table; the number is the counter plus one plus `start - 1` |
| Numbering.NumObjOfHolds | dist/node/docx2ht.js:316-346 | the number object holds the number, the level text filled in, and the level's indentation; it throws iff the formatter throws |
| Numbering.SuccessiveNumbers | dist/node/docx2ht.js:294-312 | two calls of the same list level in a row give consecutive numbers |
| Numbering.DeeperRestarts | dist/node/docx2ht.js:287-312 | a deeper level right after a shallower one of the same list numbers `1 + (start - 1)` again |
| Numbering.OtherListsKept | dist/node/docx2ht.js:261-349 | a call changes no other list's counters |
| Numbering.UpperRomanNumbering | dist/node/docx2ht.js:316-340 | an `upperRoman` list's numeral is worth the number |
| Numbering.DecimalNumbering | dist/node/docx2ht.js:316-340 | a `decimal` list writes the digits of the number |
| Numbering.ReplacePercentsNone | dist/node/docx2ht.js:341-346 | a level text without `%` is kept as it is |
| Numbering.ReplacePercentsPrefix | dist/node/docx2ht.js:341-346 | text before the first `%` is copied unchanged |
| Numbering.ReplacePercentsPlaceholder | dist/node/docx2ht.js:341-346 | `%` with its digits, taken greedily, is replaced as a whole |
| Numbering.OnePlaceholder | dist/node/docx2ht.js:341-346 | a level text such as `%1.` becomes the literal text around the formatted number |
| Numbering.ResetDeeperLevels | dist/node/docx2ht.js:306-310 | the `for ... in` loop appends a 0 to every deeper level key |
| Numbering.FormatNumberOf | dist/node/docx2ht.js:316-340 | the format switch gives the specification formatting |
| Numbering.Numbering.constructor | dist/node/docx2ht.js:213-259 | `parse` gives the abstract definitions, the resolved nums and an empty counter table |
| Numbering.Numbering.SetNumLevel | dist/node/docx2ht.js:261-349 | the in-place call returns, and leaves in the counter table, what the pure step gives; the definitions are unchanged |
| Elem.Kids | src/elem.js:12-18 | only containers have children |
| Elem.AddChild | src/elem.js:20-25 | the child goes at the end, the earlier children are unchanged, and so is everything else |
| Elem.Dxa2PxNum | src/elem.js:89-91 | pixels are `floor(dxa / 15)`: `15 px <= dxa < 15 px + 15`; NaN stays NaN |
| Elem.Emu2PxNum | src/elem.js:93-95 | pixels are `floor(emu / 9525)`; NaN stays NaN |
| Elem.FontSz2Px | src/elem.js:161-167 | from 14 to 50 half-points the table value `2n / 3`; above 50, 33; otherwise 14 |
| Elem.StyleGet | src/elem.js:83-87 | a property read back is one that was stored |
| Elem.StyleKeys | src/elem.js:83-87 | the property names in insertion order |
| Elem.SetStyle | src/elem.js:109-136 | `styles[k] = v`: `k` reads `v`, other names are unchanged, an existing name keeps its place, and a new one goes last |
| Elem.Obj2StyleString | src/elem.js:83-87 | the style string is empty exactly for an empty dictionary |
| Elem.StyleStringAppend | src/elem.js:83-87 | one more property puts one more `name:value;` at the end |
| Elem.BorderAssignmentsResult | src/elem.js:109-136 | over distinct names, each border property ends with its last assignment, and other names are unchanged |
| Elem.BorderKeysDistinct | src/elem.js:109-136 | the style, width and colour names of a border side are distinct; the width name is `border-width` only for the whole box |
| Elem.BorderStyles | src/elem.js:109-136 | a border sets its line style, its width in eighths of a point when set, its colour when set, and always `border-width: 1px`; nothing else changes |
| Elem.SetPBorderStyle | src/elem.js:498-515 | it throws iff the top border is set and the bottom or left one is missing; without a top border only the right border is written |
| Elem.ContinueRun | src/elem.js:730-750 | the run of `continue` cells below is maximal: every row in it continues the merge, and the next one does not |
| Elem.RowSpanned | src/elem.js:712-755 | the pass keeps the number of rows |
| Elem.SpanBelow | src/elem.js:730-750 | the inner loop, which ends only by `break`, counts 1 plus the continuing cells below |
| Elem.MarkRowCells | src/elem.js:718-754 | the loop over one row's cells gives the specification row |
| Elem.MarkRowSpans | src/elem.js:712-755 | the triple loop gives the specification rows |
| Elem.MarkKeepsVMerge | src/elem.js:712-755 | the pass changes no cell's `vMerge`, its children, or the shape of a row |
| Elem.RowSpanOfCell | src/elem.js:712-755 | a `restart` cell with n >= 1 continuing cells below gets rowSpan n + 1; every other cell is left as it was |
| Elem.RowSpannedIdempotent | src/elem.js:728-753 | the pass assigns rather than accumulates: running it again changes nothing |
| Elem.RowSpannedSize | src/elem.js:712-755 | the pass keeps the tree's size |
| ElemHtml.FindParagraphStyle | dist/node/docx2ht.js:466-474 | the style found is the first with the id; none means no style has it |
| ElemHtml.HeadingTag | src/elem.js:488-495 | the tag is `h1` to `h6` exactly for the names `heading 1` to `heading 6`, else `p` |
| ElemHtml.IndentStyles | src/elem.js:539-557 | indentation never sets the line height |
| ElemHtml.SpacingStyles | src/elem.js:565-580 | the line height is the spacing's line in pixels when it is set, and is otherwise unchanged |
| ElemHtml.SpacingStage | src/elem.js:565-589 | the line height is the spacing line in pixels, or the one already set, or `1.8` |
| ElemHtml.ParagraphStyles | src/elem.js:539-589 | the paragraph's styles throw exactly when its border has a top edge and lacks a bottom or left edge |
| ElemHtml.NumberPrefix | src/elem.js:591-606 | the prefix is empty, or a number span followed by two non-breaking spaces |
| ElemHtml.ImageStyle | src/elem.js:311-352 | a floating image's style is `float:right;`, any other's `vertical-align:middle;` |
| ElemHtml.TableRowStyles | src/elem.js:775-806 | a row always has `vertical-align: top` and a style attribute; it has a height exactly when its height is non-zero |
| ElemHtml.TableCellAttrs | src/elem.js:824-863 | a `continue` cell has no node; otherwise `colspan` exactly when gridSpan is set, and `rowspan` exactly when rowSpan is set |
| ElemHtml.HasAttributeAppend | src/elem.js:824-863 | an attribute is present in a concatenation iff it is present in a part |
| ElemHtml.BorderKeepsOthers | src/elem.js:109-136 | a border writes only properties whose names start with `bo` |
| ElemHtml.PBorderKeepsOthers | src/elem.js:498-515 | a paragraph border writes only properties whose names start with `bo` |
| ElemHtml.ParagraphLineHeight | src/elem.js:565-584 | every paragraph has a line height: the spacing line in pixels when set, else `1.8` |
| ElemHtml.ParagraphStyled | src/elem.js:523-623 | a paragraph renders with its tag and exactly one, non-empty `style` attribute, and its children start with its number prefix |
| ElemHtml.EmptyParagraphSpan | src/elem.js:615-617 | a childless paragraph holds one empty span, after its number when it has one |
| ElemHtml.NumberedPrefix | src/elem.js:591-606 | a numbered paragraph shows the text `setNumLevel` returns in a span, and the counters advance as `setNumLevel` advances them |
| ElemHtml.UnnumberedPrefix | src/elem.js:591-606 | without a number, or for a level `setNumLevel` does not know, there is no prefix |
| ElemHtml.ToHtAllLength | src/elem.js:33-50 | `buildChildren` gives at most one node per child |
| ElemHtml.ToHtAllAppend | src/elem.js:33-50 | rendering two runs of siblings renders the first, then the second with the counters the first leaves |
| ElemHtml.NoNumberingKeepsCounters | dist/node/docx2ht.js:1361-1364 | without a numbering part, rendering never touches the counters |
| ElemHtml.MergedCellHidden | src/elem.js:830-836 | a `continue` cell renders as nothing and reads no counters |
| ElemHtml.CellRendersTd | src/elem.js:824-863 | any other cell renders as a `td`, with `colspan` exactly when its gridSpan is set |
| ElemHtml.TableRenderStable | src/elem.js:712-755 | a table renders the same whether or not its rows went through the rowspan pass already |
| ElemHtml.TableShape | src/elem.js:668-760 | every table has `border="1"`; a row is `th` exactly for a header row |
| ElemHtml.DrawingImage | src/elem.js:311-352 | a drawing renders as an `img` with its source first, its relationship id, and `float:right;` exactly when it floats |
| ElemHtml.ObjectImage | src/elem.js:375-407 | an object's image never floats, and has its LaTeX as `alt` exactly when the LaTeX is truthy |
| ElemHtml.SetIfGet | src/elem.js:175-236 | a conditional style assignment, read back at any name |
| ElemHtml.RunStyleValues | src/elem.js:175-236 | each of a run's style properties is what the run asks for, else what its border set |
| ElemHtml.RunBorderApart | src/elem.js:175-236 | a run's border never sets a property the run sets itself |
| ElemHtml.BackgroundGet | src/elem.js:175-236 | the background is the highlight colour, else `#` with the shading fill, else unchanged |
| ElemHtml.FontStylesGet | src/elem.js:175-236 | colour, font size in pixels, and font family when set; every other name unchanged |
| ElemHtml.TextStylesGet | src/elem.js:175-236 | underline, italic and weight 800 exactly as the text properties ask |
| ElemHtml.RunVertAlign | src/elem.js:175-236 | superscript and subscript put the content in a `sup` or `sub` inside the span; other runs hold it directly |
| DocxProps.LastSetStep | dist/node/docx2ht.js:663-744 | one more child either sets the property or leaves it as the earlier children left it |
| DocxProps.LastSetIsLast | dist/node/docx2ht.js:663-744 | a property loop keeps what the last child setting it set, and is unset iff no child sets it |
| DocxProps.LastAttr | dist/node/docx2ht.js:136-191 | the attribute of the last element with the tag exists iff such an element does |
| DocxProps.LastNum | dist/node/docx2ht.js:136-191 | the number of the last element with the tag exists iff such an element does |
| DocxProps.SpacingOf | dist/node/docx2ht.js:639-649 | `before`, `after` and `line` are `parseInt` of their attributes |
| DocxProps.BorderOf | dist/node/docx2ht.js:651-661 | the style, `parseInt` of the size, and the colour of the attributes |
| DocxProps.IndentOf | dist/node/docx2ht.js:841-856 | `w:left` falls back to `w:start`, `w:right` to `w:end`; hanging and first line read directly |
| DocxProps.TblFloatOf | dist/node/docx2ht.js:1203-1212 | the horizontal and vertical anchors |
| DocxProps.FontNameSet | dist/node/docx2ht.js:663-744 | only `w:rFonts` sets a font name, which is not empty; it is the East Asian name unless replaced by the ASCII one |
| DocxProps.FontSizeSet | dist/node/docx2ht.js:663-744 | a size is set exactly by a `w:sz` or `w:szCs` with a value |
| DocxProps.RunPrOf | dist/node/docx2ht.js:663-744 | run properties exist exactly when the `w:rPr` element does |
| DocxProps.RunPrChild | dist/node/docx2ht.js:663-744 | one loop turn sets the field its tag names, ORs in bold, italics and underline, and leaves every other field |
| DocxProps.ParseRunPR | dist/node/docx2ht.js:663-744 | `parseRunPR` returns the specification run properties |
| DocxProps.ParsePBorderPr | dist/node/docx2ht.js:858-890 | `parsePBorderPr` returns the specification border |
| DocxProps.ParseNumPr | dist/node/docx2ht.js:892-916 | `parseNumPr` returns the specification numbering reference |
| DocxProps.PPrOf | dist/node/docx2ht.js:918-962 | paragraph properties exist exactly when the `w:pPr` element does |
| DocxProps.PPrChild | dist/node/docx2ht.js:918-962 | one loop turn sets the field its tag names and leaves every other field |
| DocxProps.ParsePPR | dist/node/docx2ht.js:918-962 | `parsePPR` returns the specification paragraph properties |
| DocxProps.VMergeValue | dist/node/docx2ht.js:1005-1037 | a `w:vMerge` without a value reads as `continue`, else as its value |
| DocxProps.CellPrOf | dist/node/docx2ht.js:1005-1037 | cell properties exist exactly when the `w:tcPr` element does |
| DocxProps.ParseTableCellPr | dist/node/docx2ht.js:1005-1037 | `parseTableCellPr` returns the specification cell properties |
| DocxProps.RowPrOf | dist/node/docx2ht.js:1070-1098 | row properties exist exactly when the `w:trPr` element does |
| DocxProps.ParseTableRowPr | dist/node/docx2ht.js:1070-1098 | `parseTableRowPr` returns the specification row properties |
| DocxProps.LeftBorderSet | dist/node/docx2ht.js:1122-1164 | `w:left` and `w:start` both set the left border |
| DocxProps.RightBorderSet | dist/node/docx2ht.js:1122-1164 | `w:right` and `w:end` both set the right border |
| DocxProps.TblBorderChild | dist/node/docx2ht.js:1122-1164 | one loop turn sets the edge its tag names and leaves the others |
| DocxProps.ParseTableBorderPr | dist/node/docx2ht.js:1122-1164 | `parseTableBorderPr` returns the specification borders |
| DocxProps.LeftMarginSet | dist/node/docx2ht.js:1166-1201 | `w:left` and `w:start` both set the left margin |
| DocxProps.RightMarginSet | dist/node/docx2ht.js:1166-1201 | `w:right` and `w:end` both set the right margin |
| DocxProps.ParseTableCellMarPr | dist/node/docx2ht.js:1166-1201 | `parseTableCellMarPr` returns the specification margins |
| DocxProps.TblWidthOf | dist/node/docx2ht.js:1214-1264 | a table width counts only in `dxa`; any other unit reads as 0 |
| DocxProps.TablePrOf | dist/node/docx2ht.js:1214-1264 | table properties exist exactly when the `w:tblPr` element does |
| DocxProps.TablePrChild | dist/node/docx2ht.js:1214-1264 | one loop turn sets the field its tag names and leaves every other field |
| DocxProps.ParseTablePR | dist/node/docx2ht.js:1214-1264 | `parseTablePR` returns the specification table properties |
| DocxProps.WrapSet | dist/node/docx2ht.js:516-602 | a wrapping mode is the tag of a `wp:wrap...` child |
| DocxProps.ParseAnchorFloat | dist/node/docx2ht.js:516-602 | the anchor loop returns the specification placement |
| DocxTree.DrawingOf | dist/node/docx2ht.js:516-602 | an inline drawing has no placement and an anchored one has one; none without either; the image source is still unresolved |
| DocxTree.ParseDrawing | dist/node/docx2ht.js:516-602 | `parseDrawing` returns the specification drawing |
| DocxTree.ObjectOf | dist/node/docx2ht.js:604-636 | an object exists iff it has a `v:shape` with a `v:imagedata` and an `o:OLEObject`; it carries the OLE relationship id |
| DocxTree.MergeText | dist/node/docx2ht.js:490-514 | merging rewrites only the last sibling, a run whose one text run gets the text appended |
| DocxTree.AddToRun | dist/node/docx2ht.js:478-488 | a child goes at the end of the run while it exists, and is dropped once the run is gone |
| DocxTree.ParseText | dist/node/docx2ht.js:490-514 | `parseText` is the specification text step |
| DocxTree.ParseRun | dist/node/docx2ht.js:746-789 | `parseRun` leaves the specification siblings |
| DocxTree.GetChildRuns | dist/node/docx2ht.js:791-812 | `getChildRuns` parses every child run in order |
| DocxTree.ParseWP | dist/node/docx2ht.js:964-1003 | `parseWP` returns the specification paragraph |
| DocxTree.Placeholders | dist/node/docx2ht.js:1057-1065 | n empty placeholder objects, none for n <= 0 |
| DocxTree.ParseTableCell | dist/node/docx2ht.js:1039-1068 | `parseTableCell` appends the cell and its placeholders |
| DocxTree.AddPlaceholders | dist/node/docx2ht.js:1057-1065 | the placeholder loop appends `gridSpan - 1` placeholders |
| DocxTree.ParseTableRow | dist/node/docx2ht.js:1100-1120 | `parseTableRow` returns the specification row |
| DocxTree.ParseWTBL | dist/node/docx2ht.js:1287-1309 | `parseWTBL` returns the specification table |
| DocxTree.ParseDocument | dist/node/docx2ht.js:1311-1345 | `parseDocument` returns the specification document, none without a `w:body` |
| DocxTree.BodyStepsBlocks | dist/node/docx2ht.js:1328-1341 | the body loop keeps the blocks already built and adds one paragraph or table per `w:p` or `w:tbl` element |
| DocxTree.DocumentBlocks | dist/node/docx2ht.js:1311-1345 | a parsed document is one body holding exactly one paragraph or table per `w:p` or `w:tbl` element of `w:body`, and nothing else |
| DocxTree.OtherRunChildSkipped | dist/node/docx2ht.js:761-784 | run children other than text, tabs, breaks, drawings and objects are skipped |
| DocxTree.BreakIsTab | dist/node/docx2ht.js:761-784 | `w:br` gives the same tab as `w:tab` |
| DocxTree.SingleTextRun | dist/node/docx2ht.js:490-514 | a one-text run merges into a mergeable previous run and adds no run; otherwise it appends a run holding the text |
| DocxTree.MergedRunThrowsOnSecondText | dist/node/docx2ht.js:490-514 | after a merge, a second `w:t` in the run throws |
| DocxTree.RunStepKeepsEarlier | dist/node/docx2ht.js:746-789 | each run loop turn keeps the earlier siblings and the run's properties |
| DocxTree.RunOfKeepsSiblings | dist/node/docx2ht.js:746-789 | `parseRun` appends one run with its properties, or rewrites only the last sibling run |
| DocxTree.RunOfInline | dist/node/docx2ht.js:746-789 | runs stay runs, and inline content stays inline |
| DocxTree.RunsStepInline | dist/node/docx2ht.js:791-812 | a `getChildRuns` turn keeps runs runs, and inline content inline |
| DocxTree.ChildRunsInline | dist/node/docx2ht.js:814-827 | the runs of a hyperlink, smart tag or simple field keep a list of runs, and inline content inline |
| DocxTree.ParaStepInline | dist/node/docx2ht.js:964-1003 | a paragraph loop turn keeps its children inline |
| DocxTree.ParagraphInline | dist/node/docx2ht.js:964-1003 | a parsed paragraph holds only runs, math, and hyperlinks of runs |
| DocxTree.Columns | dist/node/docx2ht.js:1057-1065 | a cell covers its gridSpan columns when that is above 1, else one |
| DocxTree.WidthBeforeAppend | dist/node/docx2ht.js:1057-1065 | appending to a row does not change the columns of its earlier cells |
| DocxTree.AlignedAppend | dist/node/docx2ht.js:1039-1068 | a cell and its placeholders keep a row column-aligned |
| DocxTree.RowColumnAligned | dist/node/docx2ht.js:1100-1120 | every cell of a parsed row sits at the index of its grid column, and the row is as long as the columns its cells cover |
| Package.RelationsIn | dist/node/docx2ht.js:97-114 | one relation per `Relationship` element, in order |
| Package.ParseRelations | dist/node/docx2ht.js:97-114 | `Relations.parse` returns the specification relations |
| Package.FindRel | dist/node/docx2ht.js:116-124 | the relation found is the first with exactly that id; none means no relation has it |
| Package.RelationLookup | dist/node/docx2ht.js:97-124 | an id is found iff a `Relationship` child carries it, and the relation found has such a child's target |
| Package.ParseParagraphStyle | dist/node/docx2ht.js:364-386 | `parseParagraphStyle` returns the specification style |
| Package.ParagraphStylesIn | dist/node/docx2ht.js:397-464 | at most one paragraph style per `w:style` element |
| Package.ParseStyles | dist/node/docx2ht.js:397-464 | `Styles.parse` returns the specification styles |
| Package.ParagraphStyleLookup | dist/node/docx2ht.js:397-474 | a style id is found iff a `w:style` of type `paragraph` has it, and the style found is parsed from such an element |
| Package.FindStyleAppend | dist/node/docx2ht.js:466-474 | the first match in a concatenation is the first part's, if any |
| Package.CollectedAllAppend | dist/node/docx2ht.js:1398-1417 | collecting from a concatenation collects from each part |
| Package.GetDrawingAndObjects | dist/node/docx2ht.js:1398-1417 | the walk pushes, in pre-order, every component whose `imgRId` is truthy |
| Package.TargetOf | dist/node/docx2ht.js:1419-1463 | a target exists only when it is not empty |
| Package.DealDrawing | dist/node/docx2ht.js:1419-1463 | only the drawing's image source changes |
| Package.DealOle | dist/node/docx2ht.js:1419-1463 | only the object's image source and LaTeX change |
| Package.DealObject | dist/node/docx2ht.js:1419-1463 | only the object's image source and LaTeX change |
| Package.Deal | dist/node/docx2ht.js:1419-1463 | only `imgSrc` and `latex` of drawings and objects change; every other component is as it was |
| Package.DealDrawingOrObject | dist/node/docx2ht.js:1419-1463 | `dealDrawingOrObject` returns the specification component |
| Package.Resolved | dist/node/docx2ht.js:1465-1479 | resolving keeps every component's `imgRId` and kind |
| Package.ResolvedAll | dist/node/docx2ht.js:1465-1479 | resolving keeps the number of siblings |
| Package.DealtAll | dist/node/docx2ht.js:1465-1479 | each collected component is dealt with, in order |
| Package.DealAll | dist/node/docx2ht.js:1465-1479 | the `createHT` loop deals with every collected component, or none without a resolver |
| Package.DealtAllAppend | dist/node/docx2ht.js:1465-1479 | dealing with a concatenation deals with each part |
| Package.ResolvedCollected | dist/node/docx2ht.js:1465-1479 | the resolved tree holds, in the same pre-order places, exactly the collected components, each dealt with once |
| Package.ResolvedAllCollected | dist/node/docx2ht.js:1465-1479 | the same for a list of siblings |
| Package.NothingCollectedUnchanged | dist/node/docx2ht.js:1465-1479 | a tree with nothing to collect is left as it is |
| Package.DrawingResolution | dist/node/docx2ht.js:1419-1463 | a drawing gets the resolver's source for `'word/' + Target`, and is unchanged when its relation is missing |
| Package.ObjectResolution | dist/node/docx2ht.js:1419-1463 | an object gets its OLE part's LaTeX and its picture's source through `'word/' + Target`; truthy LaTeX nulls the source only when the picture's relation is missing |
| Package.Docx.constructor | dist/node/docx2ht.js:1348-1354 | the object holds the parsed parts |
| Package.Docx.GetRelByRId | dist/node/docx2ht.js:1356-1359 | the relation found has the id; none means no relations part or no relation with the id |
| Package.Docx.GetParagraphStyle | dist/node/docx2ht.js:1366-1369 | the style found is the first with the id; none means no styles part or no style with the id |
| Package.Docx.SetNumLevel | dist/node/docx2ht.js:1361-1364 | null without a numbering part; otherwise the numbering's step, with the definitions unchanged |
| Package.Docx.CreateHT | dist/node/docx2ht.js:1465-1479 | nothing without a document; otherwise the resolved tree is rendered, throwing iff rendering throws. On success the document becomes the resolved tree with its rendered tables' rowspans marked, and the counters advance as rendering advances them |
| ElemHtml.Marked | src/elem.js:712-755 | the tree after rendering: each table reached has its rows through the rowspan pass, and the tree has as many components as before |
| ElemHtml.MarkedTableFree | src/elem.js:712-755 | the rowspan marks are the only write rendering makes: a tree without tables is unchanged |
| Package.ParseDocx | dist/node/docx2ht.js:1375-1396 | each part is parsed, absent parts give null, and it throws iff the document parse throws |
| Ht2docx.PxDxaRoundTrip | dist/node/ht2docx.js:31-33 | `dxa2PxNum(pxNum2DXA(p))` is `p`: 15 dxa per pixel, exactly |
| Ht2docx.DigitRun10 | dist/node/ht2docx.js:41-44 | the `\d+` run is all digits and followed by a non-digit |
| Ht2docx.Field | dist/node/ht2docx.js:41-44 | a matched group is a non-empty digit string |
| Ht2docx.RgbMatch | dist/node/ht2docx.js:41-44 | each of the three matched groups is a non-empty digit string |
| Ht2docx.Hex2 | dist/node/ht2docx.js:41-44 | the last two lower-case hexadecimal digits, zero-padded |
| Ht2docx.Hex2Wraps | dist/node/ht2docx.js:41-44 | a component above 255 keeps only its last two hexadecimal digits |
| Ht2docx.ParseDigitGroup | dist/node/ht2docx.js:41-44 | `parseInt` of a digit group is its decimal value |
| Ht2docx.Rgb2Hex | dist/node/ht2docx.js:41-44 | it throws iff the string does not match; otherwise six hexadecimal digits |
| Ht2docx.FieldOf | dist/node/ht2docx.js:41-44 | a digit group followed by its terminator is matched as a whole |
| Ht2docx.RgbMatchOf | dist/node/ht2docx.js:41-44 | the pattern matches `rgb(` with three comma-separated digit groups and gives back the groups |
| Ht2docx.RgbRoundTrip | dist/node/ht2docx.js:41-44 | `rgb(r,g,b)` gives the two hexadecimal digits of each component |
| Ht2docx.FontPx2PtTwice | dist/node/ht2docx.js:46-55 | twice the point size is between 14 and 50 |
| Ht2docx.FontSizeOfPx | dist/node/ht2docx.js:46-55 | `<n>px` gets `(3n + 1) / 2` half-points from 9 to 33 pixels, 50 above 33, and 20 below 9 |
| Ht2docx.Untab | dist/node/ht2docx.js:141-143 | no backslash and no `t` remains, and the text does not shrink |
| Ht2docx.UntabPlain | dist/node/ht2docx.js:141-143 | text without a backslash or a `t` is unchanged |
| Ht2docx.CreateTextRun | dist/node/ht2docx.js:57-100 | `createTextRun` returns the specification run |
| Ht2docx.TextRunOptions | dist/node/ht2docx.js:57-100 | it throws iff the colour is set and not `rgb(...)`; bold iff weight >= 700; yellow highlight iff a background colour is set; sub and sup as `verticalAlign` says |
| Ht2docx.CreateSpan | dist/node/ht2docx.js:129-164 | `createSpan` returns the specification runs, and throws when a formula is met without a formula table |
| Ht2docx.SpanWithoutMaths | dist/node/ht2docx.js:144-152 | a span holding a formula throws when `createDocx` was given no formula table (`ctx.maths` undefined) |
| Ht2docx.SpanRunsCount | dist/node/ht2docx.js:145-162 | the span loop adds one run per text piece and per formula found |
| Ht2docx.SpanRuns | dist/node/ht2docx.js:129-164 | when the span does not throw, the runs are as many as the pieces that give a run (every text piece, and each formula found in `ctx.maths`), and at least one |
| Ht2docx.FindImage | dist/node/ht2docx.js:166-219 | the image found is the first with the URL; none means no image has it |
| Ht2docx.FloatingOf | dist/node/ht2docx.js:166-219 | floating exactly for `cssFloat` left or right, aligned left exactly for left |
| Ht2docx.ImgOf | dist/node/ht2docx.js:166-219 | no picture iff the width or height is 0 or not a number, or no buffer for `src`; otherwise the picture with those values |
| Ht2docx.ParagraphOf | dist/node/ht2docx.js:229-270 | a paragraph built has at least one run |
| Ht2docx.CreateParagraph | dist/node/ht2docx.js:229-270 | `createParagraph` returns the specification paragraph |
| Ht2docx.ParaRunsGrow | dist/node/ht2docx.js:229-270 | the paragraph loop never removes runs |
| Ht2docx.ParaRunsSpan | dist/node/ht2docx.js:229-270 | a span child adds at least one run |
| Ht2docx.ParagraphWithSpan | dist/node/ht2docx.js:229-270 | a paragraph with a span child is never dropped |
| Ht2docx.CreateUL | dist/node/ht2docx.js:272-304 | `createUL` returns the specification paragraphs |
| Ht2docx.ListFromItems | dist/node/ht2docx.js:272-304 | the list loop adds at most one paragraph per `li` |
| Ht2docx.ListParagraphs | dist/node/ht2docx.js:272-304 | a list gives at most one paragraph per `li`, and only paragraphs |
| Ht2docx.SpanOption | dist/node/ht2docx.js:306-365 | a span is set exactly above 1, to that value |
| Ht2docx.WidthOption | dist/node/ht2docx.js:306-365 | a width is set exactly for a truthy pixel width, and reads back as the same pixels |
| Ht2docx.CreateTableCell | dist/node/ht2docx.js:306-365 | `createTableCell` returns the specification cell |
| Ht2docx.CreateTableRow | dist/node/ht2docx.js:367-397 | `createTableRow` returns the specification row |
| Ht2docx.CreateTable | dist/node/ht2docx.js:406-448 | `createTable` returns the specification table |
| Ht2docx.RowCellsCount | dist/node/ht2docx.js:367-397 | the row loop adds one cell per element child |
| Ht2docx.RowCells | dist/node/ht2docx.js:367-397 | a row has one cell per element child, and is a header row iff it has a `header` attribute |
| Ht2docx.TableRowsCount | dist/node/ht2docx.js:406-448 | the table loop adds one row per element child |
| Ht2docx.TableRows | dist/node/ht2docx.js:406-448 | a table has one row per element child, and cell margins of 75 dxa |
| Ht2docx.CellOptions | dist/node/ht2docx.js:306-365 | spans are set only above 1; the width is the pixel width in dxa and reads back as the same pixels; the cell has borders |
| Ht2docx.SpacerTable | dist/node/ht2docx.js:454-499 | one borderless cell in one row, 8932 dxa wide, one column of 8932 |
| Ht2docx.CreateDocx | dist/node/ht2docx.js:510-550 | `createDocx` returns the specification blocks |
| Ht2docx.DivsAreSpacers | dist/node/ht2docx.js:526-545 | each top-level `div` becomes one spacer table, and the blocks before it are kept |
| Ht2docx.DocBlocksKeepEarlier | dist/node/ht2docx.js:526-545 | the loop only adds blocks: those collected before a child stay first |
| Ht2docx.OtherChildrenSkipped | dist/node/ht2docx.js:526-545 | top-level children other than `div`, `p`, `ul`, `ol` and `table` add no block |

## Left out

- XML parsing and serialisation (xmldom's `DOMParser` and `toString`): the input is a node tree and the output an HTML tree, not text. An `m:oMath` renders as an empty `math` element: its OMML markup is not serialised.
- DOM construction (`createElement`, `setAttribute`, `appendChild`): the HTML output is the `HtNode` datatype.
- The `docx` builder library (`Document`, `Paragraph`, `TextRun`, `Table`, `Media.addImage`, `addSection` and its enums): its objects are the `Run` and `Block` datatypes.
- createDocx without a root element returns the `docx` module itself; the model returns `None`.
- dist/node/ext/omath.js, the OMML component `createOMath` builds: a formula run is the formula source and its size.
- createBr (dist/node/ht2docx.js:102-109): no caller uses it.
- The resolver (`pConvtHelper.getLatex`, `getImgSrc`) is a pair of pure functions. Its asynchronous calls are awaited one at a time, so there is no concurrency; console logging is not modelled.
- `Settings` (dist/node/docx2ht.js:64-89) is parsed but never read by rendering, so it is not modelled.
- parseTableGrid (dist/node/docx2ht.js:1266-1285) never returns its widths, so a table's column widths are always undefined; the model has none.
- The character, table and numbering style parsers of `Styles` are stubs returning undefined, so only the paragraph styles are kept.
- visitNode and replaceLatex (src/helper.js:140-181) walk live DOM text nodes; their logic is `splitAtDelimiters`, which is modelled.
- test/test.js, src/convt.js, src/index.js and dist/node/index.js hold no logic beyond re-exports and stubs.
- lodash's `_.find`, `_.isEqual` and `_.last` are first match, structural equality of the datatypes and the last element.
- Parent back-references and object identity in the intermediate tree are not modelled: the tree is a value, and `createHT`'s writes into it produce the new tree the document is assigned.
- Package.Docx.CreateHT: when rendering throws partway, the source keeps the rowspan marks it has written so far and the counters it has advanced so far. The model then states the resolved tree without marks, and leaves the counters unchanged.
- Numbers are exact integers. `parseInt` of digit strings longer than 2^53 loses precision in JavaScript but not in the model, and this reaches `rgb2hex` components. `borderPr.width / 8` is written as that integer's exact eighths.
- `createImg`'s vertical alignment and `createTableCell`'s `verticalAlign`: both are computed but never passed to the library, so neither is modelled.
- dist/node/elem.js is the compiled copy of src/elem.js, and the model is written against src/elem.js.
- Helper.EndOfMathOccurs: states that the delimiter occurs at the answer, not that the brace depth there is at most zero.
- Ht2docx.Rgb2Hex: its contract gives the length of the result; the digits are stated only for the canonical `rgb(r,g,b)` form (RgbRoundTrip), not for forms with spaces after the commas.
- Ht2docx.ListParagraphs: bounds the paragraphs by the number of `li` items rather than naming which items give one.
- Numbering.Numbering.SetNumLevel: on a throw from the formatter the counters have already advanced in the source; the model states the same counters through the pure step, but the number object is then absent.
