/** The numbering part of a docx package (`word/numbering.xml`) and the
    per-list counters the converter keeps while it renders numbered
    paragraphs (`Numbering` in dist/node/docx2ht.js). */
module Numbering {
  import opened Wrappers
  import opened Js
  import opened Xml
  import NumberFormat

  // ---------------------------------------------------------------------------
  // Definitions

  /** One `w:lvl` of an abstract numbering definition.  `start` and
      `indentLeft` are absent (undefined) when the XML does not set them. */
  datatype Level = Level(
    ilvl: string,
    start: Option<Num>,
    numFmt: Option<string>,
    lvlText: Option<string>,
    lvlJc: Option<string>,
    indentLeft: Option<Num>)

  /** A `w:abstractNum`: its id and its levels in document order. */
  datatype AbstractNum = AbstractNum(id: string, levels: seq<Level>)

  /** A `w:num`: its id, the abstract definition it names, and that
      definition once resolved (undefined when no abstractNum has the id). */
  datatype NumDef = NumDef(id: string, abstractNumId: Option<string>, abstractNum: Option<AbstractNum>)

  /** What `setNumLevel` returns for a numbered paragraph. */
  datatype NumObj = NumObj(number: int, text: string, indentLeft: Option<Num>)

  /** `this.numbering`: for each numId, for each level key, the history of
      that level's counter (the converter only ever appends to it). */
  type Counters = map<string, map<string, seq<int>>>

  // ---------------------------------------------------------------------------
  // Parsing the definitions

  /** The number `parseInt` reads from an attribute value that is there. */
  function NumOf(v: Option<string>): Option<Num>
  {
    if v.Some? then Some(ParseInt(v.value)) else None
  }

  /** `indentLeft` of a level from its first `w:ind` element: `w:left` when
      set, minus `w:hanging` when set (undefined minus a number is NaN). */
  function IndentOf(ind: Option<XNode>): (r: Option<Num>)
    ensures ind.None? ==> r.None?
  {
    if ind.None? then None
    else
      var left := Attr(ind.value, "w:left");
      var hanging := Attr(ind.value, "w:hanging");
      var a := if left != "" then Some(ParseInt(left)) else None;
      if hanging != "" then Some(Sub(if a.Some? then a.value else NaN, ParseInt(hanging))) else a
  }

  /** The level a `w:lvl` element describes: each setting is the `w:val` of
      the last child element that sets it. */
  function LevelOf(lvl: XNode): Level
  {
    Level(
      Attr(lvl, "w:ilvl"),
      NumOf(LastVal(Children(lvl), "w:start")),
      LastVal(Children(lvl), "w:numFmt"),
      LastVal(Children(lvl), "w:lvlText"),
      LastVal(Children(lvl), "w:lvlJc"),
      IndentOf(FirstElementByTagName(lvl, "w:ind")))
  }

  /** The loop of `parseAbstractNum` over one `w:lvl` element's children. */
  method ParseLevel(lvl: XNode) returns (level: Level)
    ensures level == LevelOf(lvl)
  {
    var kids := Children(lvl);
    level := Level(Attr(lvl, "w:ilvl"), None, None, None, None, None);
    for i := 0 to |kids|
      invariant level.ilvl == Attr(lvl, "w:ilvl") && level.indentLeft.None?
      invariant level.start == NumOf(LastVal(kids[..i], "w:start"))
      invariant level.numFmt == LastVal(kids[..i], "w:numFmt")
      invariant level.lvlText == LastVal(kids[..i], "w:lvlText")
      invariant level.lvlJc == LastVal(kids[..i], "w:lvlJc")
    {
      LastNamedStep(kids, i, "w:start");
      LastNamedStep(kids, i, "w:numFmt");
      LastNamedStep(kids, i, "w:lvlText");
      LastNamedStep(kids, i, "w:lvlJc");
      var childNode := kids[i];
      if childNode.Element? {
        var val := Attr(childNode, "w:val");
        match childNode.tag
        case "w:start" => level := level.(start := Some(ParseInt(val)));
        case "w:numFmt" => level := level.(numFmt := Some(val));
        case "w:lvlText" => level := level.(lvlText := Some(val));
        case "w:lvlJc" => level := level.(lvlJc := Some(val));
        case _ =>
      }
    }
    assert kids[..|kids|] == kids;
    level := level.(indentLeft := IndentOf(FirstElementByTagName(lvl, "w:ind")));
  }

  /** The levels of a list of `w:lvl` elements, in order. */
  function LevelsOf(lvls: seq<XNode>): (r: seq<Level>)
    ensures |r| == |lvls|
  {
    if lvls == [] then [] else LevelsOf(lvls[..|lvls| - 1]) + [LevelOf(lvls[|lvls| - 1])]
  }

  function AbstractNumOf(e: XNode): AbstractNum
  {
    AbstractNum(Attr(e, "w:abstractNumId"), LevelsOf(ElementsNamed(Children(e), "w:lvl")))
  }

  /** `Numbering.parseAbstractNum`. */
  method ParseAbstractNum(abNumElem: XNode) returns (abstractNum: AbstractNum)
    ensures abstractNum == AbstractNumOf(abNumElem)
  {
    var lvlElements := ChildrenByTagName(abNumElem, "w:lvl");
    var levels: seq<Level> := [];
    for i := 0 to |lvlElements|
      invariant levels == LevelsOf(lvlElements[..i])
    {
      assert lvlElements[..i + 1][..i] == lvlElements[..i];
      var level := ParseLevel(lvlElements[i]);
      levels := levels + [level];
    }
    assert lvlElements[..|lvlElements|] == lvlElements;
    abstractNum := AbstractNum(Attr(abNumElem, "w:abstractNumId"), levels);
  }

  function NumDefOf(e: XNode): NumDef
  {
    NumDef(Attr(e, "w:numId"), LastVal(Children(e), "w:abstractNumId"), None)
  }

  /** `Numbering.parseNum`. */
  method ParseNum(numElem: XNode) returns (num: NumDef)
    ensures num == NumDefOf(numElem)
  {
    var kids := Children(numElem);
    num := NumDef(Attr(numElem, "w:numId"), None, None);
    for i := 0 to |kids|
      invariant num == NumDef(Attr(numElem, "w:numId"), LastVal(kids[..i], "w:abstractNumId"), None)
    {
      LastNamedStep(kids, i, "w:abstractNumId");
      var childNode := kids[i];
      if IsElementNamed(childNode, "w:abstractNumId") {
        num := num.(abstractNumId := Some(Attr(childNode, "w:val")));
      }
    }
    assert kids[..|kids|] == kids;
  }

  /** The key `_.find(abstractNums, {id: abstractNumId})` matches on. */
  function AbstractIdIs(id: Option<string>): AbstractNum -> bool
  {
    (a: AbstractNum) => Some(a.id) == id
  }

  /** `_.find(abstractNums, {id: abstractNumId})`: the first with that id. */
  function FindAbstract(abs: seq<AbstractNum>, id: Option<string>): (r: Option<AbstractNum>)
    ensures r.Some? ==> r.value in abs && Some(r.value.id) == id
    ensures r.Some? ==> FirstWith(abs, r.value, AbstractIdIs(id))
    ensures r.None? ==> forall a :: a in abs ==> Some(a.id) != id
  {
    if abs == [] then None
    else if Some(abs[0].id) == id then assert FirstWith(abs, abs[0], AbstractIdIs(id)) by { assert abs[0] == abs[0]; } Some(abs[0])
    else
      var r := FindAbstract(abs[1..], id);
      if r.Some? then FirstWithTail(abs, r.value, AbstractIdIs(id)); r else r
  }

  /** Each num with its abstract definition looked up. */
  function Resolved(nums: seq<NumDef>, abs: seq<AbstractNum>): (r: seq<NumDef>)
    ensures |r| == |nums|
    ensures forall i :: 0 <= i < |r| ==>
      r[i] == nums[i].(abstractNum := FindAbstract(abs, nums[i].abstractNumId))
  {
    if nums == [] then []
    else
      Resolved(nums[..|nums| - 1], abs)
        + [nums[|nums| - 1].(abstractNum := FindAbstract(abs, nums[|nums| - 1].abstractNumId))]
  }

  function AbstractNumsOf(abNums: seq<XNode>): seq<AbstractNum>
  {
    if abNums == [] then [] else AbstractNumsOf(abNums[..|abNums| - 1]) + [AbstractNumOf(abNums[|abNums| - 1])]
  }

  function NumDefsOf(numElems: seq<XNode>): seq<NumDef>
  {
    if numElems == [] then [] else NumDefsOf(numElems[..|numElems| - 1]) + [NumDefOf(numElems[|numElems| - 1])]
  }

  /** The `abstractNums.push` loop of `Numbering.parse`. */
  method ParseAbstractNums(abNumElements: seq<XNode>) returns (abs: seq<AbstractNum>)
    ensures abs == AbstractNumsOf(abNumElements)
  {
    abs := [];
    for i := 0 to |abNumElements|
      invariant abs == AbstractNumsOf(abNumElements[..i])
    {
      assert abNumElements[..i + 1][..i] == abNumElements[..i];
      var abstractNum := ParseAbstractNum(abNumElements[i]);
      abs := abs + [abstractNum];
    }
    assert abNumElements[..|abNumElements|] == abNumElements;
  }

  /** The `nums.push` loop of `Numbering.parse`. */
  method ParseNums(numElements: seq<XNode>) returns (ns: seq<NumDef>)
    ensures ns == NumDefsOf(numElements)
  {
    ns := [];
    for i := 0 to |numElements|
      invariant ns == NumDefsOf(numElements[..i])
    {
      assert numElements[..i + 1][..i] == numElements[..i];
      var num := ParseNum(numElements[i]);
      ns := ns + [num];
    }
    assert numElements[..|numElements|] == numElements;
  }

  /** The loop of `Numbering.parse` that attaches to each num its abstract
      definition. */
  method ResolveNums(ns: seq<NumDef>, abs: seq<AbstractNum>) returns (resolved: seq<NumDef>)
    ensures resolved == Resolved(ns, abs)
  {
    resolved := [];
    for i := 0 to |ns|
      invariant resolved == Resolved(ns[..i], abs)
    {
      assert ns[..i + 1][..i] == ns[..i];
      resolved := resolved + [ns[i].(abstractNum := FindAbstract(abs, ns[i].abstractNumId))];
    }
    assert ns[..|ns|] == ns;
  }

  // ---------------------------------------------------------------------------
  // One call of setNumLevel, as a function of the counters

  /** The key `_.find(this.nums, {id: numId})` matches on. */
  function NumIdIs(numId: Option<string>): NumDef -> bool
  {
    (n: NumDef) => Some(n.id) == numId
  }

  /** `_.find(this.nums, {id: numId})`: the first num with that id. */
  function FindNum(nums: seq<NumDef>, numId: Option<string>): (r: Option<NumDef>)
    ensures r.Some? ==> r.value in nums && Some(r.value.id) == numId
    ensures r.Some? ==> FirstWith(nums, r.value, NumIdIs(numId))
    ensures r.None? ==> forall n :: n in nums ==> Some(n.id) != numId
  {
    if nums == [] then None
    else if Some(nums[0].id) == numId then assert FirstWith(nums, nums[0], NumIdIs(numId)) by { assert nums[0] == nums[0]; } Some(nums[0])
    else
      var r := FindNum(nums[1..], numId);
      if r.Some? then FirstWithTail(nums, r.value, NumIdIs(numId)); r else r
  }

  /** The key `_.find(levels, {ilvl: ilvl})` matches on. */
  function LevelIs(ilvl: Option<string>): Level -> bool
  {
    (l: Level) => Some(l.ilvl) == ilvl
  }

  /** `_.find(levels, {ilvl: ilvl})`: the first level with that `ilvl`. */
  function FindLevel(levels: seq<Level>, ilvl: Option<string>): (r: Option<Level>)
    ensures r.Some? ==> r.value in levels && Some(r.value.ilvl) == ilvl
    ensures r.Some? ==> FirstWith(levels, r.value, LevelIs(ilvl))
    ensures r.None? ==> forall l :: l in levels ==> Some(l.ilvl) != ilvl
  {
    if levels == [] then None
    else if Some(levels[0].ilvl) == ilvl then assert FirstWith(levels, levels[0], LevelIs(ilvl)) by { assert levels[0] == levels[0]; } Some(levels[0])
    else
      var r := FindLevel(levels[1..], ilvl);
      if r.Some? then FirstWithTail(levels, r.value, LevelIs(ilvl)); r else r
  }

  /** The level a call numbers, when the num, its abstract definition and
      the level all exist. */
  function ActiveLevel(nums: seq<NumDef>, numId: Option<string>, ilvl: Option<string>): Option<Level>
  {
    var num := FindNum(nums, numId);
    if num.None? || num.value.abstractNum.None? then None
    else FindLevel(num.value.abstractNum.value.levels, ilvl)
  }

  /** One list's table of level histories; an unseen list has none. */
  function Table(c: Counters, numId: string): map<string, seq<int>>
  {
    if numId in c then c[numId] else map[]
  }

  /** The last entry of a level's history, 0 when it has none. */
  function Last0(m: map<string, seq<int>>, l: string): int
  {
    if l in m && m[l] != [] then m[l][|m[l]| - 1] else 0
  }

  /** The current value of a level's counter. */
  function Current(c: Counters, numId: string, ilvl: string): int
  {
    Last0(Table(c, numId), ilvl)
  }

  /** The `for (let k in numberingOfNum)` loop: a 0 is appended to every
      level key that compares greater, as a string, than `ilvl`. */
  function ResetDeeper(m: map<string, seq<int>>, ilvl: string): (r: map<string, seq<int>>)
    ensures r.Keys == m.Keys
  {
    map k | k in m :: if StrLess(ilvl, k) then m[k] + [0] else m[k]
  }

  /** `level.start - 1 || 0`: an absent or unreadable start, and start 1,
      give offset 0. */
  function Offset(start: Option<Num>): int
  {
    if start.Some? && start.value.Int? then start.value.value - 1 else 0
  }

  /** The `switch (level.numFmt)` of `setNumLevel`: each format through its
      formatter, any other or a missing one through simplified Chinese.  The
      Roman formatters can throw a RangeError. */
  function FormatNumber(numFmt: Option<string>, n: int): Try<string>
  {
    if numFmt == Some("decimal") then Ok(DecimalString(n))
    else if numFmt == Some("lowerLetter") then Ok(NumberFormat.LowerLetterOfNum(n))
    else if numFmt == Some("upperLetter") then Ok(NumberFormat.UpperLetterOfNum(n))
    else if numFmt == Some("lowerRoman") then NumberFormat.RomanOf(n, NumberFormat.LowerKey)
    else if numFmt == Some("upperRoman") then NumberFormat.RomanOf(n, NumberFormat.UpperKey)
    else Ok(NumberFormat.ChineseOf(n))
  }

  /** How many digits start `s`. */
  function DigitPrefix(s: string): (k: nat)
    ensures k <= |s|
    ensures forall i :: 0 <= i < k ==> IsDigit(s[i])
    ensures k < |s| ==> !IsDigit(s[k])
  {
    if s != [] && IsDigit(s[0]) then 1 + DigitPrefix(s[1..]) else 0
  }

  /** `s.replace(/%\d+/g, rep)`: every `%` followed by one or more digits,
      digits taken greedily, becomes `rep`, scanning left to right.  `rep`
      is inserted literally: no formatted number holds a `$` followed by
      another character. */
  function ReplacePercents(s: string, rep: string): string
    decreases |s|
  {
    if s == [] then ""
    else if s[0] == '%' && |s| >= 2 && IsDigit(s[1]) then
      rep + ReplacePercents(s[1 + DigitPrefix(s[1..])..], rep)
    else [s[0]] + ReplacePercents(s[1..], rep)
  }

  /** The text of a numbered paragraph: a non-empty `lvlText` with its
      placeholders filled in, else the bare formatted number. */
  function NumText(lvlText: Option<string>, fmt: string): string
  {
    if lvlText.Some? && lvlText.value != "" then ReplacePercents(lvlText.value, fmt) else fmt
  }

  /** A level's counter history in one list's table; a level seen for the
      first time starts from `[0]`. */
  function History(m: map<string, seq<int>>, l: string): seq<int>
  {
    if l in m then m[l] else [0]
  }

  /** The counter a call of that level takes: one more than the last. */
  function NextNo(m: map<string, seq<int>>, l: string): int
  {
    var hist := History(m, l);
    (if hist == [] then 0 else hist[|hist| - 1]) + 1
  }

  /** The list's table after a call of level `l`: `l`'s history gets the new
      counter, and every deeper level key gets a 0. */
  function Advanced(m: map<string, seq<int>>, l: string): map<string, seq<int>>
  {
    ResetDeeper(m[l := History(m, l) + [NextNo(m, l)]], l)
  }

  /** The number object of a level numbered `number`. */
  function NumObjOf(level: Level, number: int): Try<Option<NumObj>>
  {
    match FormatNumber(level.numFmt, number)
    case Throws => Throws
    case Ok(fmt) => Ok(Some(NumObj(number, NumText(level.lvlText, fmt), level.indentLeft)))
  }

  /** What one call returns and the counters it leaves. */
  datatype Outcome = Outcome(obj: Try<Option<NumObj>>, counters: Counters)

  /** `setNumLevel(numId, ilvl)` on counters `c`: nothing happens when the
      num, its abstract definition or the level is missing; otherwise the
      level's counter goes up by one, every deeper level key present gets a
      0, and the number is the counter plus the start offset. */
  function Step(nums: seq<NumDef>, c: Counters, numId: Option<string>, ilvl: Option<string>): Outcome
  {
    match ActiveLevel(nums, numId, ilvl)
    case None => Outcome(Ok(None), c)
    case Some(level) =>
      var m := Table(c, numId.value);
      Outcome(NumObjOf(level, NextNo(m, ilvl.value) + Offset(level.start)),
              c[numId.value := Advanced(m, ilvl.value)])
  }

  // ---------------------------------------------------------------------------
  // What a call does to the counters

  /** A call returns null exactly when its list level is unknown, and then
      the counters are left as they were. */
  lemma StepInactive(nums: seq<NumDef>, c: Counters, numId: Option<string>, ilvl: Option<string>)
    ensures Step(nums, c, numId, ilvl).obj == Ok(None) <==> ActiveLevel(nums, numId, ilvl).None?
    ensures ActiveLevel(nums, numId, ilvl).None? ==> Step(nums, c, numId, ilvl).counters == c
  {
    match ActiveLevel(nums, numId, ilvl)
    case None =>
    case Some(level) =>
      var number := NextNo(Table(c, numId.value), ilvl.value) + Offset(level.start);
      assert Step(nums, c, numId, ilvl).obj == NumObjOf(level, number);
  }

  /** A level's counter after a call of level `l`: `l`'s own goes up by one,
      a deeper level already in the table restarts at 0, any other keeps
      its value. */
  lemma AdvancedLast(m: map<string, seq<int>>, l: string, k: string)
    ensures Last0(Advanced(m, l), k) ==
      if k == l then Last0(m, l) + 1
      else if StrLess(l, k) && k in m then 0
      else Last0(m, k)
  {
    var pushed := m[l := History(m, l) + [NextNo(m, l)]];
    StrLessIrreflexive(l);
    assert Advanced(m, l) == ResetDeeper(pushed, l);
    if k == l {
      assert Advanced(m, l)[l] == pushed[l];
    } else if k in m {
      assert pushed[k] == m[k];
    } else {
      assert k !in Advanced(m, l);
    }
  }

  /** The counters a call of a known level leaves: its own list's table
      advanced, every other list as it was; the number it returns is the
      level's current counter plus one, plus the start offset. */
  lemma StepActive(nums: seq<NumDef>, c: Counters, numId: string, ilvl: string, level: Level)
    requires ActiveLevel(nums, Some(numId), Some(ilvl)) == Some(level)
    ensures Step(nums, c, Some(numId), Some(ilvl)).counters == c[numId := Advanced(Table(c, numId), ilvl)]
    ensures Step(nums, c, Some(numId), Some(ilvl)).obj ==
      NumObjOf(level, Current(c, numId, ilvl) + 1 + Offset(level.start))
  {
    var m := Table(c, numId);
    assert NextNo(m, ilvl) == Current(c, numId, ilvl) + 1;
  }

  /** What a call's number object holds: the number and the level's
      indentation. */
  lemma NumObjOfHolds(level: Level, number: int)
    ensures NumObjOf(level, number).Ok? ==>
      NumObjOf(level, number).value == Some(NumObj(number, NumText(level.lvlText, FormatNumber(level.numFmt, number).value), level.indentLeft))
    ensures NumObjOf(level, number).Throws? <==> FormatNumber(level.numFmt, number).Throws?
  {
  }

  /** The same list level twice in a row: the second number is the first
      plus one. */
  lemma SuccessiveNumbers(nums: seq<NumDef>, c: Counters, numId: string, ilvl: string)
    requires ActiveLevel(nums, Some(numId), Some(ilvl)).Some?
    ensures var o1 := Step(nums, c, Some(numId), Some(ilvl));
      var o2 := Step(nums, o1.counters, Some(numId), Some(ilvl));
      o1.obj.Ok? && o2.obj.Ok? ==> o2.obj.value.value.number == o1.obj.value.value.number + 1
  {
    var level := ActiveLevel(nums, Some(numId), Some(ilvl)).value;
    var o1 := Step(nums, c, Some(numId), Some(ilvl));
    StepActive(nums, c, numId, ilvl, level);
    StepActive(nums, o1.counters, numId, ilvl, level);
    AdvancedLast(Table(c, numId), ilvl, ilvl);
    var n1 := Current(c, numId, ilvl) + 1 + Offset(level.start);
    NumObjOfHolds(level, n1);
    NumObjOfHolds(level, n1 + 1);
  }

  /** A deeper level right after a shallower one of the same list starts
      over: its number is 1 plus its start offset, whether or not it was
      numbered before. */
  lemma DeeperRestarts(nums: seq<NumDef>, c: Counters, numId: string, upper: string, deeper: string)
    requires ActiveLevel(nums, Some(numId), Some(upper)).Some?
    requires ActiveLevel(nums, Some(numId), Some(deeper)).Some?
    requires StrLess(upper, deeper)
    ensures var o1 := Step(nums, c, Some(numId), Some(upper));
      var o2 := Step(nums, o1.counters, Some(numId), Some(deeper));
      o2.obj.Ok? ==>
        o2.obj.value.value.number == 1 + Offset(ActiveLevel(nums, Some(numId), Some(deeper)).value.start)
  {
    var o1 := Step(nums, c, Some(numId), Some(upper));
    var level := ActiveLevel(nums, Some(numId), Some(deeper)).value;
    StrLessIrreflexive(upper);
    StepActive(nums, c, numId, upper, ActiveLevel(nums, Some(numId), Some(upper)).value);
    StepActive(nums, o1.counters, numId, deeper, level);
    AdvancedLast(Table(c, numId), upper, deeper);
    assert Current(o1.counters, numId, deeper) == 0;
    NumObjOfHolds(level, 1 + Offset(level.start));
  }

  /** A call changes no other list's counters. */
  lemma OtherListsKept(nums: seq<NumDef>, c: Counters, numId: Option<string>, ilvl: Option<string>, other: string)
    requires numId != Some(other)
    ensures Table(Step(nums, c, numId, ilvl).counters, other) == Table(c, other)
  {
    if ActiveLevel(nums, numId, ilvl).Some? {
      StepActive(nums, c, numId.value, ilvl.value, ActiveLevel(nums, numId, ilvl).value);
    }
  }

  /** An upper-Roman list numbers with numerals worth the number itself. */
  lemma UpperRomanNumbering(n: int)
    requires n >= 0
    ensures FormatNumber(Some("upperRoman"), n).Ok? ==>
      NumberFormat.RomanValue(FormatNumber(Some("upperRoman"), n).value) == n
  {
    if FormatNumber(Some("upperRoman"), n).Ok? {
      NumberFormat.RomanRoundTrip(n, NumberFormat.RomanOf(n, NumberFormat.UpperKey));
    }
  }

  /** A decimal list numbers with the digits of the number. */
  lemma DecimalNumbering(n: nat)
    ensures FormatNumber(Some("decimal"), n).Ok?
    ensures DigitsValue(FormatNumber(Some("decimal"), n).value) == n
  {
    DigitsRoundTrip(n, Digits(n));
  }

  // ---------------------------------------------------------------------------
  // The level text

  /** A level text without `%` is kept as it is. */
  lemma {:induction false} ReplacePercentsNone(s: string, rep: string)
    requires '%' !in s
    ensures ReplacePercents(s, rep) == s
    decreases |s|
  {
    if s != [] {
      assert '%' !in s[1..] by {
        assert forall i :: 0 <= i < |s[1..]| ==> s[1..][i] == s[i + 1];
      }
      ReplacePercentsNone(s[1..], rep);
    }
  }

  /** Text before a `%`-free prefix is copied unchanged. */
  lemma {:induction false} ReplacePercentsPrefix(a: string, b: string, rep: string)
    requires '%' !in a
    ensures ReplacePercents(a + b, rep) == a + ReplacePercents(b, rep)
    decreases |a|
  {
    if a != [] {
      assert (a + b)[0] == a[0];
      assert (a + b)[1..] == a[1..] + b;
      assert '%' !in a[1..] by {
        assert forall i :: 0 <= i < |a[1..]| ==> a[1..][i] == a[i + 1];
      }
      ReplacePercentsPrefix(a[1..], b, rep);
    } else {
      assert a + b == b;
    }
  }

  /** A placeholder `%` followed by its digits is replaced as a whole. */
  lemma ReplacePercentsPlaceholder(d: string, b: string, rep: string)
    requires d != [] && AllDigits(d)
    requires b == [] || !IsDigit(b[0])
    ensures ReplacePercents("%" + d + b, rep) == rep + ReplacePercents(b, rep)
  {
    var s := "%" + d + b;
    assert s[1..] == d + b;
    DigitPrefixOf(d, b);
    assert s[1 + |d|..] == b;
  }

  lemma {:induction false} DigitPrefixOf(d: string, b: string)
    requires AllDigits(d)
    requires b == [] || !IsDigit(b[0])
    ensures DigitPrefix(d + b) == |d|
    decreases |d|
  {
    if d != [] {
      assert (d + b)[1..] == d[1..] + b;
      DigitPrefixOf(d[1..], b);
    } else {
      assert d + b == b;
    }
  }

  /** The usual level text, such as `%1.` or `(%2)`: one placeholder with
      literal text around it becomes that text around the formatted
      number. */
  lemma OnePlaceholder(a: string, d: string, b: string, fmt: string)
    requires '%' !in a && '%' !in b
    requires d != [] && AllDigits(d)
    requires b == [] || !IsDigit(b[0])
    ensures NumText(Some(a + "%" + d + b), fmt) == a + fmt + b
  {
    assert a + "%" + d + b == a + ("%" + d + b);
    ReplacePercentsPrefix(a, "%" + d + b, fmt);
    ReplacePercentsPlaceholder(d, b, fmt);
    ReplacePercentsNone(b, fmt);
  }

  /** The `for (let k in numberingOfNum)` loop of `setNumLevel`. */
  method ResetDeeperLevels(m: map<string, seq<int>>, l: string) returns (r: map<string, seq<int>>)
    ensures r == ResetDeeper(m, l)
  {
    r := m;
    var keys := m.Keys;
    while keys != {}
      invariant keys <= m.Keys && r.Keys == m.Keys
      invariant forall k :: k in m ==> r[k] == if k !in keys && StrLess(l, k) then m[k] + [0] else m[k]
      decreases keys
    {
      var k :| k in keys;
      if StrLess(l, k) {
        r := r[k := r[k] + [0]];
      }
      keys := keys - {k};
    }
  }

  /** The `switch (level.numFmt)` of `setNumLevel`. */
  method FormatNumberOf(numFmt: Option<string>, number: int) returns (fmtNumber: Try<string>)
    ensures fmtNumber == FormatNumber(numFmt, number)
  {
    if numFmt == Some("decimal") {
      fmtNumber := Ok(DecimalString(number));
    } else if numFmt == Some("lowerLetter") {
      fmtNumber := Ok(NumberFormat.LowerLetterOfNum(number));
    } else if numFmt == Some("upperLetter") {
      fmtNumber := Ok(NumberFormat.UpperLetterOfNum(number));
    } else if numFmt == Some("lowerRoman") {
      fmtNumber := NumberFormat.LowerRomanOfNum(number);
    } else if numFmt == Some("upperRoman") {
      fmtNumber := NumberFormat.UpperRomanOfNum(number);
    } else {
      var chinese := NumberFormat.SimpleChineseOfNum(number);
      fmtNumber := Ok(chinese);
    }
  }

  // ---------------------------------------------------------------------------
  // The counter table

  /** The numbering definitions of a docx package and the counters of the
      lists numbered so far. */
  class Numbering {
    var abstractNums: seq<AbstractNum>
    var nums: seq<NumDef>
    var numbering: Counters

    /** `Numbering.parse` on the root element of numbering.xml: the abstract
        definitions, then the nums, then each num resolved. */
    constructor (root: XNode)
      ensures abstractNums == AbstractNumsOf(ElementsNamed(Children(root), "w:abstractNum"))
      ensures nums == Resolved(NumDefsOf(ElementsNamed(Children(root), "w:num")), abstractNums)
      ensures numbering == map[]
    {
      var abNumElements := ChildrenByTagName(root, "w:abstractNum");
      var abs := ParseAbstractNums(abNumElements);
      var numElements := ChildrenByTagName(root, "w:num");
      var ns := ParseNums(numElements);
      var resolved := ResolveNums(ns, abs);
      abstractNums := abs;
      nums := resolved;
      numbering := map[];
    }

    /** `Numbering.setNumLevel(numId, ilvl)`: updates the counters in place
        and returns the number object, null for an unknown list level. */
    method SetNumLevel(numId: Option<string>, ilvl: Option<string>) returns (r: Try<Option<NumObj>>)
      modifies this
      ensures abstractNums == old(abstractNums) && nums == old(nums)
      ensures Outcome(r, numbering) == Step(nums, old(numbering), numId, ilvl)
    {
      var level := ActiveLevel(nums, numId, ilvl);
      if level.None? {
        return Ok(None);
      }
      var id := numId.value;
      var l := ilvl.value;
      var numberingOfNum := if id in numbering then numbering[id] else map[];
      var numberingOfNumLevel := History(numberingOfNum, l);
      var curNo := if numberingOfNumLevel == [] then 0 else numberingOfNumLevel[|numberingOfNumLevel| - 1];
      curNo := curNo + 1;
      var reset := ResetDeeperLevels(numberingOfNum[l := numberingOfNumLevel + [curNo]], l);
      assert curNo == NextNo(numberingOfNum, l) && reset == Advanced(numberingOfNum, l);
      numbering := numbering[id := reset];
      var number := curNo + Offset(level.value.start);
      var fmtNumber := FormatNumberOf(level.value.numFmt, number);
      if fmtNumber.Throws? {
        r := Throws;
      } else {
        r := Ok(Some(NumObj(number, NumText(level.value.lvlText, fmtNumber.value), level.value.indentLeft)));
      }
      assert r == NumObjOf(level.value, number);
    }
  }
}
