/** The string and number helpers of src/helper.js: HTML entity decoding,
    splitting text at math delimiters, replacing MathML blocks by keys, the
    numeral formatters used by list numbering, and the font size tables. */
module Helper {
  import opened Wrappers
  import opened Js

  // ===========================================================================
  // decodeEntities

  /** The entity at the start of `s`, as its length and its character. */
  function EntityAt(s: string): (r: Option<(nat, char)>)
    ensures r.Some? ==> 4 <= r.value.0 <= |s| && s[0] == '&'
  {
    if StartsWith(s, "&nbsp;") then Some((6, ' '))
    else if StartsWith(s, "&amp;") then Some((5, '&'))
    else if StartsWith(s, "&quot;") then Some((6, '"'))
    else if StartsWith(s, "&lt;") then Some((4, '<'))
    else if StartsWith(s, "&gt;") then Some((4, '>'))
    else None
  }

  /** One left-to-right pass of `/&(nbsp|amp|quot|lt|gt);/g`: each of the
      five entities becomes its character (`&nbsp;` a plain space), and
      the produced characters are never looked at again. */
  function DecodeEntities(s: string): (r: string)
    ensures |r| <= |s|
    ensures (forall i :: 0 <= i < |s| ==> s[i] != '&') ==> r == s
  {
    if s == [] then ""
    else
      match EntityAt(s)
      case Some((n, c)) => [c] + DecodeEntities(s[n..])
      case None => [s[0]] + DecodeEntities(s[1..])
  }

  /** The escaping that `DecodeEntities` undoes. */
  function EscapeChar(c: char): string
  {
    if c == '&' then "&amp;"
    else if c == '<' then "&lt;"
    else if c == '>' then "&gt;"
    else if c == '"' then "&quot;"
    else [c]
  }

  function EscapeHtml(s: string): string
  {
    if s == [] then "" else EscapeChar(s[0]) + EscapeHtml(s[1..])
  }

  /** An escaped character is read back as one entity, the whole escape. */
  lemma EntityAtEscape(c: char, t: string)
    requires c == '&' || c == '<' || c == '>' || c == '"'
    ensures EntityAt(EscapeChar(c) + t) == Some((|EscapeChar(c)|, c))
  {
    var e := EscapeChar(c);
    var s := e + t;
    assert s[..|e|] == e;
    assert s[1] == e[1] && s[2] == e[2];
  }

  lemma EntityAtOther(c: char, t: string)
    requires c != '&'
    ensures EntityAt([c] + t) == None
  {
    assert ([c] + t)[0] == c;
  }

  lemma DecodeEscapedChar(c: char, t: string)
    ensures DecodeEntities(EscapeChar(c) + t) == [c] + DecodeEntities(t)
  {
    var s := EscapeChar(c) + t;
    if c == '&' || c == '<' || c == '>' || c == '"' {
      EntityAtEscape(c, t);
      assert s[|EscapeChar(c)|..] == t;
    } else {
      EntityAtOther(c, t);
      assert s[1..] == t;
    }
  }

  /** Decoding inverts HTML escaping. */
  lemma {:induction false} DecodeEscaped(s: string)
    ensures DecodeEntities(EscapeHtml(s)) == s
  {
    if s != [] {
      DecodeEscaped(s[1..]);
      DecodeEscapedChar(s[0], EscapeHtml(s[1..]));
    }
  }

  /** `&nbsp;` becomes a plain space, not a no-break space. */
  lemma DecodeNbsp(t: string)
    ensures DecodeEntities("&nbsp;" + t) == " " + DecodeEntities(t)
  {
    var s := "&nbsp;" + t;
    assert s[..6] == "&nbsp;";
    assert s[6..] == t;
  }

  /** A single pass: the `&` that `&amp;` produces does not start another
      entity, so `&amp;lt;` decodes to `&lt;`. */
  lemma DecodeIsSinglePass(t: string)
    ensures DecodeEntities("&amp;" + t) == "&" + DecodeEntities(t)
    ensures DecodeEntities("&amp;lt;") == "&lt;"
  {
    DecodeEscapedChar('&', t);
    DecodeEscapedChar('&', "lt;");
    assert "&amp;lt;" == EscapeChar('&') + "lt;";
    assert DecodeEntities("lt;") == "lt;";
  }

  // ===========================================================================
  // findEndOfMath

  /** Where the scan of `findEndOfMath` that is at `index` with brace depth
      `braceLevel` stops: the first position where `delimiter` occurs while
      the depth is at most zero, skipping the character after each `\`;
      -1 when the text ends first. */
  function EndOfMathFrom(delimiter: string, text: string, index: nat, braceLevel: int): (r: int)
    ensures r == -1 || (index <= r < |text| && r + |delimiter| <= |text|)
  {
    EndOfMathScan(delimiter, text, index, braceLevel)
  }

  /** The recursion behind `EndOfMathFrom`; the contracts speak of that one,
      which the verifier does not unfold step by step. */
  function EndOfMathScan(delimiter: string, text: string, index: nat, braceLevel: int): (r: int)
    ensures r == -1 || (index <= r < |text| && r + |delimiter| <= |text|)
    decreases |text| - index
  {
    if index >= |text| then -1
    else if braceLevel <= 0 && OccursAt(text, delimiter, index) then index
    else EndOfMathScan(delimiter, text, index + Width(text[index]), Depth(text[index], braceLevel))
  }

  /** The result of `findEndOfMath(delimiter, text, startIndex)`: the scan
      from `startIndex` at depth zero. */
  function EndOfMath(delimiter: string, text: string, startIndex: nat): (r: int)
    ensures r == -1 || (startIndex <= r < |text| && r + |delimiter| <= |text|)
  {
    EndOfMathFrom(delimiter, text, startIndex, 0)
  }

  /** How far the scan moves past a character: a backslash takes the
      character after it along. */
  function Width(c: char): nat
  {
    if c == '\\' then 2 else 1
  }

  /** The brace depth after a character. */
  function Depth(c: char, braceLevel: int): int
  {
    if c == '{' then braceLevel + 1
    else if c == '}' then braceLevel - 1
    else braceLevel
  }

  /** Where the scan stops, the delimiter occurs. */
  lemma {:induction false} EndOfMathFound(delimiter: string, text: string, index: nat, braceLevel: int)
    ensures EndOfMathFrom(delimiter, text, index, braceLevel) != -1 ==>
      OccursAt(text, delimiter, EndOfMathFrom(delimiter, text, index, braceLevel))
    decreases |text| - index
  {
    if index < |text| && !(braceLevel <= 0 && OccursAt(text, delimiter, index)) {
      EndOfMathFound(delimiter, text, index + Width(text[index]), Depth(text[index], braceLevel));
    }
  }

  /** Where `findEndOfMath` answers with an index, the delimiter occurs there. */
  lemma EndOfMathOccurs(delimiter: string, text: string, startIndex: nat, r: int)
    requires r == EndOfMath(delimiter, text, startIndex) && r != -1
    ensures OccursAt(text, delimiter, r)
  {
    EndOfMathFound(delimiter, text, startIndex, 0);
  }

  /** `findEndOfMath(delimiter, text, startIndex)`. */
  method FindEndOfMath(delimiter: string, text: string, startIndex: nat) returns (r: int)
    ensures r == EndOfMath(delimiter, text, startIndex)
  {
    var index := startIndex;
    var braceLevel := 0;
    while index < |text|
      invariant EndOfMathFrom(delimiter, text, index, braceLevel) == EndOfMath(delimiter, text, startIndex)
      decreases |text| - index
    {
      var character := text[index];
      if braceLevel <= 0 && OccursAt(text, delimiter, index) {
        return index;
      } else if character == '\\' {
        index := index + 1;
      } else if character == '{' {
        braceLevel := braceLevel + 1;
      } else if character == '}' {
        braceLevel := braceLevel - 1;
      }
      index := index + 1;
    }
    return -1;
  }

  predicate Plain(text: string, from: nat)
  {
    forall k :: from <= k < |text| ==> text[k] != '\\' && text[k] != '{' && text[k] != '}'
  }

  /** Without braces and backslashes the scan is a plain search. */
  lemma {:induction false} EndOfMathPlain(delimiter: string, text: string, index: nat)
    requires delimiter != [] && index <= |text| && Plain(text, index)
    ensures EndOfMathFrom(delimiter, text, index, 0) == IndexOf(text, delimiter, index)
    decreases |text| - index
  {
    if index < |text| && !OccursAt(text, delimiter, index) {
      EndOfMathPlain(delimiter, text, index + 1);
    }
  }

  /** The character after a backslash the scan meets is never the match. */
  lemma EndOfMathSkipsEscaped(delimiter: string, text: string, index: nat, braceLevel: int)
    requires index < |text| && text[index] == '\\'
    requires !(braceLevel <= 0 && OccursAt(text, delimiter, index))
    ensures EndOfMathFrom(delimiter, text, index, braceLevel) != index + 1
  {
  }

  /** Inside an open brace the delimiter is not matched: `{$}$` ends at 3. */
  lemma EndOfMathInsideBraces()
    ensures EndOfMath("$", "{$}$", 0) == 3
  {
    var t := "{$}$";
    assert t[3..4] == "$";
    assert t[0..1][0] == '{' && t[2..3][0] == '}';
    assert EndOfMathFrom("$", t, 3, 0) == 3;
    assert EndOfMathFrom("$", t, 2, 1) == 3;
    assert EndOfMathFrom("$", t, 1, 1) == 3;
  }

  lemma OccursAtSuffix(text: string, p: string, c: nat, index: nat)
    requires c <= index && c <= |text|
    ensures OccursAt(text[c..], p, index - c) == OccursAt(text, p, index)
  {
    if index + |p| <= |text| {
      assert text[c..][index - c..index - c + |p|] == text[index..index + |p|];
    }
  }

  /** The scan reads only the text from its own position on. */
  lemma {:induction false} EndOfMathSuffix(delimiter: string, text: string, c: nat, index: nat, braceLevel: int,
                                           r: int, rs: int)
    requires c <= index && c <= |text|
    requires r == EndOfMathFrom(delimiter, text, index, braceLevel)
    requires rs == EndOfMathFrom(delimiter, text[c..], index - c, braceLevel)
    ensures rs == if r == -1 then -1 else r - c
    decreases |text| - index
  {
    var t := text[c..];
    if index < |text| {
      assert t[index - c] == text[index];
      OccursAtSuffix(text, delimiter, c, index);
      if !(braceLevel <= 0 && OccursAt(text, delimiter, index)) {
        var i2 := index + Width(text[index]);
        var b2 := Depth(text[index], braceLevel);
        assert i2 - c == (index - c) + Width(t[index - c]);
        EndOfMathSuffix(delimiter, text, c, i2, b2,
                        EndOfMathFrom(delimiter, text, i2, b2), EndOfMathFrom(delimiter, t, i2 - c, b2));
      }
    }
  }

  // ===========================================================================
  // splitAtDelimiters

  /** A piece of `splitAtDelimiters`' result: a text run, or a math block
      with its inner text, its text with both delimiters, and the display
      flag passed in. */
  datatype Piece = Text(data: string) | Math(data: string, rawData: string, display: bool)

  /** The source text a piece stands for. */
  function Raw(p: Piece): string
  {
    if p.Text? then p.data else p.rawData
  }

  function Joined(ps: seq<Piece>): string
  {
    if ps == [] then "" else Raw(ps[0]) + Joined(ps[1..])
  }

  /** The pieces the loop of `splitAtDelimiters` pushes, final text piece
      included, from position `curr` on while it looks for a left
      delimiter. */
  function PiecesFromText(text: string, left: string, right: string, display: bool, curr: nat): seq<Piece>
    requires curr <= |text| && |left| + |right| > 0
  {
    ScanText(text, left, right, display, curr)
  }

  /** The same from a left delimiter at `curr`: the math block up to the
      end the scan finds, or, when there is none, the rest as text. */
  function PiecesFromMath(text: string, left: string, right: string, display: bool, curr: nat): seq<Piece>
    requires curr <= |text| && |left| + |right| > 0
  {
    ScanMath(text, left, right, display, curr)
  }

  /** The recursion behind `PiecesFromText` and `PiecesFromMath`; the
      contracts speak of those two, which the verifier does not unfold
      step by step. */
  function ScanText(text: string, left: string, right: string, display: bool, curr: nat): seq<Piece>
    requires curr <= |text| && |left| + |right| > 0
    decreases 2 * (|text| - curr) + 1
  {
    var next := IndexOf(text, left, curr);
    if next == -1 then [Text(text[curr..])]
    else [Text(text[curr..next])] + ScanMath(text, left, right, display, next)
  }

  function ScanMath(text: string, left: string, right: string, display: bool, curr: nat): seq<Piece>
    requires curr <= |text| && |left| + |right| > 0
    decreases 2 * (|text| - curr)
  {
    var next := EndOfMath(right, text, curr + |left|);
    if next == -1 then [Text(text[curr..])]
    else
      [Math(text[curr + |left|..next], text[curr..next + |right|], display)]
      + ScanText(text, left, right, display, next + |right|)
  }

  /** `splitAtDelimiters(startData, leftDelim, rightDelim, display)`: a
      math piece as input gives no pieces.  With both delimiters empty the
      source loops forever, so one of them must be non-empty (the callers
      pass `<math>`/`</math>`, `$`/`$` and `@math-`/`@`). */
  function Split(start: Piece, left: string, right: string, display: bool): seq<Piece>
    requires |left| + |right| > 0
  {
    if start.Math? then [] else PiecesFromText(start.data, left, right, display, 0)
  }

  method SplitAtDelimiters(start: Piece, left: string, right: string, display: bool) returns (finalData: seq<Piece>)
    requires |left| + |right| > 0
    ensures finalData == Split(start, left, right, display)
  {
    finalData := [];
    if start.Math? {
      return;
    }
    var text := start.data;
    var lookingForLeft := true;
    var currIndex: nat := 0;
    var nextIndex := IndexOf(text, left, 0);
    if nextIndex != -1 {
      currIndex := nextIndex;
      FirstStep(text, left, right, display, nextIndex);
      finalData := finalData + [Text(text[..currIndex])];
      lookingForLeft := false;
    } else {
      AppendEmpty(PiecesFromText(text, left, right, display, 0));
    }
    finalData := SplitLoop(text, left, right, display, finalData, currIndex, lookingForLeft, PiecesFromText(text, left, right, display, 0));
  }

  /** The `while (true)` loop of `splitAtDelimiters` and the final text piece
      pushed after it, from the state the first search leaves. */
  method SplitLoop(text: string, left: string, right: string, display: bool,
                   collected: seq<Piece>, start: nat, searchLeft: bool, ghost whole: seq<Piece>) returns (finalData: seq<Piece>)
    requires SplitState(text, left, right, display, collected, start, searchLeft, whole)
    ensures finalData == whole
  {
    finalData := collected;
    var lookingForLeft := searchLeft;
    var currIndex := start;
    while true
      invariant SplitState(text, left, right, display, finalData, currIndex, lookingForLeft, whole)
      decreases 2 * (|text| - currIndex) + (if lookingForLeft then 1 else 0)
    {
      if lookingForLeft {
        var nextIndex := IndexOf(text, left, currIndex);
        if nextIndex == -1 {
          TextStepEnds(text, left, right, display, finalData, currIndex, whole);
          break;
        }
        finalData, currIndex := PushText(text, left, right, display, finalData, currIndex, nextIndex, whole);
      } else {
        var nextIndex := FindEndOfMath(right, text, currIndex + |left|);
        if nextIndex == -1 {
          MathStepEnds(text, left, right, display, finalData, currIndex, whole);
          break;
        }
        finalData, currIndex := PushMath(text, left, right, display, finalData, currIndex, nextIndex, whole);
      }
      lookingForLeft := !lookingForLeft;
    }
    finalData := finalData + [Text(text[currIndex..])];
  }

  /** The push of a text piece in the loop: the text up to the left
      delimiter found at `next`. */
  method PushText(text: string, left: string, right: string, display: bool, collected: seq<Piece>, curr: nat, next: int, ghost whole: seq<Piece>)
    returns (finalData: seq<Piece>, currIndex: nat)
    requires SplitState(text, left, right, display, collected, curr, true, whole)
    requires next == IndexOf(text, left, curr) && next != -1
    ensures curr <= next <= |text|
    ensures finalData == collected + [Text(text[curr..next])] && currIndex == next
    ensures SplitState(text, left, right, display, finalData, currIndex, false, whole)
  {
    TextStepKeeps(text, left, right, display, collected, curr, next, whole);
    finalData := collected + [Text(text[curr..next])];
    currIndex := next;
  }

  /** The push of a math piece in the loop: data and raw text up to the
      closing delimiter found at `next`, after which the loop resumes. */
  method PushMath(text: string, left: string, right: string, display: bool, collected: seq<Piece>, curr: nat, next: int, ghost whole: seq<Piece>)
    returns (finalData: seq<Piece>, currIndex: nat)
    requires SplitState(text, left, right, display, collected, curr, false, whole)
    requires next == EndOfMath(right, text, curr + |left|) && next != -1
    ensures curr + |left| <= next && next + |right| <= |text|
    ensures finalData == collected + [Math(text[curr + |left|..next], text[curr..next + |right|], display)]
    ensures currIndex == next + |right|
    ensures SplitState(text, left, right, display, finalData, currIndex, true, whole)
  {
    MathStepKeeps(text, left, right, display, collected, curr, next, whole);
    finalData := collected + [Math(text[curr + |left|..next], text[curr..next + |right|], display)];
    currIndex := next + |right|;
  }
  /** The loop invariant of `splitAtDelimiters`: the pieces collected so far
      followed by the pieces of the rest of the text are all the pieces. */
  ghost predicate SplitState(text: string, left: string, right: string, display: bool,
                             collected: seq<Piece>, curr: int, lookingForLeft: bool, whole: seq<Piece>)
  {
    0 <= curr <= |text| && |left| + |right| > 0
    && (lookingForLeft ==> collected + PiecesFromText(text, left, right, display, curr) == whole)
    && (!lookingForLeft ==> collected + PiecesFromMath(text, left, right, display, curr) == whole)
  }

  lemma TextStepEnds(text: string, left: string, right: string, display: bool, collected: seq<Piece>, curr: nat, whole: seq<Piece>)
    requires SplitState(text, left, right, display, collected, curr, true, whole)
    requires IndexOf(text, left, curr) == -1
    ensures collected + [Text(text[curr..])] == whole
  {
    PiecesFromTextStep(text, left, right, display, curr, -1);
  }

  lemma TextStepKeeps(text: string, left: string, right: string, display: bool, collected: seq<Piece>, curr: nat, next: int, whole: seq<Piece>)
    requires SplitState(text, left, right, display, collected, curr, true, whole)
    requires next == IndexOf(text, left, curr) && next != -1
    ensures curr <= next <= |text|
    ensures SplitState(text, left, right, display, collected + [Text(text[curr..next])], next, false, whole)
  {
    PiecesFromTextStep(text, left, right, display, curr, next);
    AppendAssoc(collected, [Text(text[curr..next])], PiecesFromMath(text, left, right, display, next));
  }

  lemma MathStepEnds(text: string, left: string, right: string, display: bool, collected: seq<Piece>, curr: nat, whole: seq<Piece>)
    requires SplitState(text, left, right, display, collected, curr, false, whole)
    requires EndOfMath(right, text, curr + |left|) == -1
    ensures collected + [Text(text[curr..])] == whole
  {
    PiecesFromMathStep(text, left, right, display, curr, -1);
  }

  /** The loop step after a closing delimiter: the math piece moves from the
      remaining pieces to the collected ones. */
  lemma MathStepKeeps(text: string, left: string, right: string, display: bool, collected: seq<Piece>, curr: nat, next: int, whole: seq<Piece>)
    requires SplitState(text, left, right, display, collected, curr, false, whole)
    requires next == EndOfMath(right, text, curr + |left|) && next != -1
    ensures curr + |left| <= next && next + |right| <= |text|
    ensures SplitState(text, left, right, display,
      collected + [Math(text[curr + |left|..next], text[curr..next + |right|], display)], next + |right|, true, whole)
  {
    var piece := Math(text[curr + |left|..next], text[curr..next + |right|], display);
    PiecesFromMathStep(text, left, right, display, curr, next);
    AppendAssoc(collected, [piece], PiecesFromText(text, left, right, display, next + |right|));
  }

  /** The first search of `splitAtDelimiters`, before its loop. */
  lemma FirstStep(text: string, left: string, right: string, display: bool, next: int)
    requires |left| + |right| > 0
    requires next == IndexOf(text, left, 0) && next != -1
    ensures next <= |text|
    ensures [] + [Text(text[..next])] + PiecesFromMath(text, left, right, display, next)
      == PiecesFromText(text, left, right, display, 0)
  {
    PiecesFromTextStep(text, left, right, display, 0, next);
    assert text[..next] == text[0..next];
    AppendEmpty([Text(text[..next])]);
  }

  lemma AppendEmpty<T>(s: seq<T>)
    ensures [] + s == s
  {
  }

  lemma AppendAssoc<T>(a: seq<T>, b: seq<T>, c: seq<T>)
    ensures (a + b) + c == a + (b + c)
  {
  }

  /** One unfolding of `PiecesFromText`, for the loop. */
  lemma PiecesFromTextStep(text: string, left: string, right: string, display: bool, curr: nat, next: int)
    requires curr <= |text| && |left| + |right| > 0
    requires next == IndexOf(text, left, curr)
    ensures next == -1 ==> PiecesFromText(text, left, right, display, curr) == [Text(text[curr..])]
    ensures next != -1 ==> curr <= next <= |text|
    ensures next != -1 ==>
      (PiecesFromText(text, left, right, display, curr)
       == [Text(text[curr..next])] + PiecesFromMath(text, left, right, display, next))
  {
  }

  /** One unfolding of `PiecesFromMath`, for the loop. */
  lemma PiecesFromMathStep(text: string, left: string, right: string, display: bool, curr: nat, next: int)
    requires curr <= |text| && |left| + |right| > 0
    requires next == EndOfMath(right, text, curr + |left|)
    ensures next == -1 ==> PiecesFromMath(text, left, right, display, curr) == [Text(text[curr..])]
    ensures next != -1 ==> curr + |left| <= next && next + |right| <= |text|
    ensures next != -1 ==>
      (PiecesFromMath(text, left, right, display, curr)
       == [Math(text[curr + |left|..next], text[curr..next + |right|], display)]
          + PiecesFromText(text, left, right, display, next + |right|))
  {
    if next != -1 {
      assert curr + |left| <= next;
    }
  }

  lemma SliceConcat(text: string, a: nat, b: nat)
    requires a <= b <= |text|
    ensures text[a..b] + text[b..] == text[a..]
  {
  }

  lemma JoinedSingle(p: Piece)
    ensures Joined([p]) == Raw(p)
  {
    assert [p][1..] == [];
    assert Raw(p) + "" == Raw(p);
  }

  lemma JoinedCons(p: Piece, rest: seq<Piece>)
    ensures Joined([p] + rest) == Raw(p) + Joined(rest)
  {
    assert ([p] + rest)[1..] == rest;
  }

  /** The text a math piece was cut from is its data between the two
      delimiters. */
  lemma MathPieceText(text: string, left: string, right: string, curr: nat, next: nat)
    requires OccursAt(text, left, curr) && OccursAt(text, right, next) && curr + |left| <= next
    ensures text[curr..next + |right|] == left + text[curr + |left|..next] + right
  {
    assert text[curr..next + |right|]
        == text[curr..curr + |left|] + text[curr + |left|..next] + text[next..next + |right|];
  }

  /** A math piece's raw text is its data between the two delimiters. */
  lemma MathPieceDelimited(text: string, left: string, right: string, curr: nat, next: int)
    requires curr <= |text| && OccursAt(text, left, curr)
    requires next == EndOfMath(right, text, curr + |left|) && next != -1
    ensures curr + |left| <= next && next + |right| <= |text|
    ensures text[curr..next + |right|] == left + text[curr + |left|..next] + right
  {
    EndOfMathOccurs(right, text, curr + |left|, next);
    MathPieceText(text, left, right, curr, next);
  }

  /** Joining the pieces gives back the text. */
  lemma {:induction false} JoinedFromText(text: string, left: string, right: string, display: bool, curr: nat,
                                          r: seq<Piece>)
    requires curr <= |text| && |left| + |right| > 0
    requires r == PiecesFromText(text, left, right, display, curr)
    ensures Joined(r) == text[curr..]
    decreases 2 * (|text| - curr) + 1
  {
    var next := IndexOf(text, left, curr);
    PiecesFromTextStep(text, left, right, display, curr, next);
    if next == -1 {
      JoinedSingle(Text(text[curr..]));
    } else {
      var rest := PiecesFromMath(text, left, right, display, next);
      JoinedFromMath(text, left, right, display, next, rest);
      JoinedCons(Text(text[curr..next]), rest);
      SliceConcat(text, curr, next);
    }
  }

  lemma {:induction false} JoinedFromMath(text: string, left: string, right: string, display: bool, curr: nat,
                                          r: seq<Piece>)
    requires curr <= |text| && |left| + |right| > 0
    requires r == PiecesFromMath(text, left, right, display, curr)
    ensures Joined(r) == text[curr..]
    decreases 2 * (|text| - curr)
  {
    var next := EndOfMath(right, text, curr + |left|);
    PiecesFromMathStep(text, left, right, display, curr, next);
    if next == -1 {
      JoinedSingle(Text(text[curr..]));
    } else {
      var rest := PiecesFromText(text, left, right, display, next + |right|);
      JoinedFromText(text, left, right, display, next + |right|, rest);
      JoinedCons(Math(text[curr + |left|..next], text[curr..next + |right|], display), rest);
      SliceConcat(text, curr, next + |right|);
    }
  }

  lemma SplitJoined(text: string, left: string, right: string, display: bool)
    requires |left| + |right| > 0
    ensures Joined(Split(Text(text), left, right, display)) == text
  {
    JoinedFromText(text, left, right, display, 0, PiecesFromText(text, left, right, display, 0));
  }

  /** Every math piece carries its delimiters around its data, and the
      display flag passed in. */
  predicate MathDelimited(ps: seq<Piece>, left: string, right: string, display: bool)
  {
    forall i :: 0 <= i < |ps| && ps[i].Math? ==>
      ps[i].rawData == left + ps[i].data + right && ps[i].display == display
  }

  /** Every math piece is followed by a text piece, and a text piece is
      followed by another text piece only at the very end. */
  ghost predicate Alternates(ps: seq<Piece>)
  {
    (forall i, j :: 0 <= i < j < |ps| && j == i + 1 && ps[i].Math? ==> ps[j].Text?)
    && (forall i, j :: 0 <= i < j < |ps| - 1 && j == i + 1 && ps[i].Text? ==> ps[j].Math?)
  }

  /** The piece sequence starts and ends with text, every math piece is
      followed by a text piece, and a text piece is followed by another
      text piece only at the very end. */
  ghost predicate Alternating(ps: seq<Piece>)
  {
    |ps| >= 1 && ps[0].Text? && ps[|ps| - 1].Text?
    && Alternates(ps)
  }

  /** The first and last pieces. */
  lemma {:induction false} EndsFromText(text: string, left: string, right: string, display: bool, curr: nat,
                                        r: seq<Piece>)
    requires curr <= |text| && |left| + |right| > 0
    requires r == PiecesFromText(text, left, right, display, curr)
    ensures |r| >= 1 && r[0].Text? && r[|r| - 1].Text?
    decreases 2 * (|text| - curr) + 1
  {
    var next := IndexOf(text, left, curr);
    PiecesFromTextStep(text, left, right, display, curr, next);
    if next != -1 {
      var rest := PiecesFromMath(text, left, right, display, next);
      EndsFromMath(text, left, right, display, next, rest);
      ConsEnds(Text(text[curr..next]), rest);
    }
  }

  lemma {:induction false} EndsFromMath(text: string, left: string, right: string, display: bool, curr: nat,
                                        r: seq<Piece>)
    requires curr <= |text| && |left| + |right| > 0
    requires r == PiecesFromMath(text, left, right, display, curr)
    ensures |r| >= 1 && (r[0].Math? || |r| == 1) && r[|r| - 1].Text?
    decreases 2 * (|text| - curr)
  {
    var next := EndOfMath(right, text, curr + |left|);
    PiecesFromMathStep(text, left, right, display, curr, next);
    if next != -1 {
      var rest := PiecesFromText(text, left, right, display, next + |right|);
      EndsFromText(text, left, right, display, next + |right|, rest);
      ConsEnds(Math(text[curr + |left|..next], text[curr..next + |right|], display), rest);
    }
  }

  lemma ConsEnds(p: Piece, rest: seq<Piece>)
    requires |rest| >= 1
    ensures |[p] + rest| == |rest| + 1 && ([p] + rest)[0] == p && ([p] + rest)[|rest|] == rest[|rest| - 1]
  {
  }

  lemma AlternatesCons(p: Piece, rest: seq<Piece>)
    requires |rest| >= 1 && Alternates(rest)
    requires p.Math? ==> rest[0].Text?
    requires p.Text? ==> rest[0].Math? || |rest| == 1
    ensures Alternates([p] + rest)
  {
    var r := [p] + rest;
    assert forall i :: 1 <= i < |r| ==> r[i] == rest[i - 1];
  }

  /** Math pieces and text pieces alternate. */
  lemma {:induction false} AlternatesFromText(text: string, left: string, right: string, display: bool, curr: nat,
                                              r: seq<Piece>)
    requires curr <= |text| && |left| + |right| > 0
    requires r == PiecesFromText(text, left, right, display, curr)
    ensures Alternates(r)
    decreases 2 * (|text| - curr) + 1
  {
    var next := IndexOf(text, left, curr);
    PiecesFromTextStep(text, left, right, display, curr, next);
    if next != -1 {
      var rest := PiecesFromMath(text, left, right, display, next);
      AlternatesFromMath(text, left, right, display, next, rest);
      EndsFromMath(text, left, right, display, next, rest);
      AlternatesCons(Text(text[curr..next]), rest);
    }
  }

  lemma {:induction false} AlternatesFromMath(text: string, left: string, right: string, display: bool, curr: nat,
                                              r: seq<Piece>)
    requires curr <= |text| && |left| + |right| > 0
    requires r == PiecesFromMath(text, left, right, display, curr)
    ensures Alternates(r)
    decreases 2 * (|text| - curr)
  {
    var next := EndOfMath(right, text, curr + |left|);
    PiecesFromMathStep(text, left, right, display, curr, next);
    if next != -1 {
      var rest := PiecesFromText(text, left, right, display, next + |right|);
      AlternatesFromText(text, left, right, display, next + |right|, rest);
      EndsFromText(text, left, right, display, next + |right|, rest);
      AlternatesCons(Math(text[curr + |left|..next], text[curr..next + |right|], display), rest);
    }
  }

  lemma MathDelimitedCons(p: Piece, rest: seq<Piece>, left: string, right: string, display: bool)
    requires MathDelimited(rest, left, right, display)
    requires p.Math? ==> p.rawData == left + p.data + right && p.display == display
    ensures MathDelimited([p] + rest, left, right, display)
  {
    var r := [p] + rest;
    assert forall i :: 1 <= i < |r| ==> r[i] == rest[i - 1];
  }

  /** Every math piece carries its delimiters. */
  lemma {:induction false} DelimitedFromText(text: string, left: string, right: string, display: bool, curr: nat,
                                             r: seq<Piece>)
    requires curr <= |text| && |left| + |right| > 0
    requires r == PiecesFromText(text, left, right, display, curr)
    ensures MathDelimited(r, left, right, display)
    decreases 2 * (|text| - curr) + 1
  {
    var next := IndexOf(text, left, curr);
    PiecesFromTextStep(text, left, right, display, curr, next);
    if next == -1 {
      MathDelimitedCons(Text(text[curr..]), [], left, right, display);
    } else {
      var rest := PiecesFromMath(text, left, right, display, next);
      IndexOfFound(text, left, curr);
      DelimitedFromMath(text, left, right, display, next, rest);
      MathDelimitedCons(Text(text[curr..next]), rest, left, right, display);
    }
  }

  lemma {:induction false} DelimitedFromMath(text: string, left: string, right: string, display: bool, curr: nat,
                                             r: seq<Piece>)
    requires curr <= |text| && |left| + |right| > 0 && OccursAt(text, left, curr)
    requires r == PiecesFromMath(text, left, right, display, curr)
    ensures MathDelimited(r, left, right, display)
    decreases 2 * (|text| - curr)
  {
    var next := EndOfMath(right, text, curr + |left|);
    PiecesFromMathStep(text, left, right, display, curr, next);
    if next == -1 {
      MathDelimitedCons(Text(text[curr..]), [], left, right, display);
    } else {
      var rest := PiecesFromText(text, left, right, display, next + |right|);
      DelimitedFromText(text, left, right, display, next + |right|, rest);
      MathPieceDelimited(text, left, right, curr, next);
      MathDelimitedCons(Math(text[curr + |left|..next], text[curr..next + |right|], display), rest, left, right, display);
    }
  }

  /** The shape of `splitAtDelimiters`' result for a text input. */
  lemma SplitShape(text: string, left: string, right: string, display: bool)
    requires |left| + |right| > 0
    ensures Alternating(Split(Text(text), left, right, display))
    ensures MathDelimited(Split(Text(text), left, right, display), left, right, display)
  {
    EndsFromText(text, left, right, display, 0, PiecesFromText(text, left, right, display, 0));
    AlternatesFromText(text, left, right, display, 0, PiecesFromText(text, left, right, display, 0));
    DelimitedFromText(text, left, right, display, 0, PiecesFromText(text, left, right, display, 0));
  }

  ghost predicate NoOccurrence(s: string, p: string)
  {
    forall k :: !OccursAt(s, p, k)
  }

  lemma SliceOccurrence(text: string, p: string, a: nat, b: nat, k: int)
    requires a <= b <= |text|
    requires OccursAt(text[a..b], p, k)
    ensures OccursAt(text, p, a + k) && a + k + |p| <= b
  {
    var s := text[a..b];
    assert 0 <= k && k + |p| <= |s|;
    var u, v := s[k..k + |p|], text[a + k..a + k + |p|];
    forall j | 0 <= j < |p|
      ensures u[j] == v[j]
    {
      assert u[j] == s[k + j] == text[a + k + j];
    }
    assert u == v;
  }

  /** A slice of the text that ends before the first occurrence at or
      after its start holds no occurrence. */
  lemma NoOccurrenceBefore(text: string, p: string, a: nat, b: nat)
    requires a <= b <= |text|
    requires forall k :: a <= k && k + |p| <= b ==> !OccursAt(text, p, k)
    ensures NoOccurrence(text[a..b], p)
  {
    forall k ensures !OccursAt(text[a..b], p, k) {
      if OccursAt(text[a..b], p, k) {
        SliceOccurrence(text, p, a, b, k);
      }
    }
  }

  /** No text piece but the last contains the left delimiter; the last one
      either contains none or starts with it and has no closing delimiter:
      an unmatched left delimiter leaves the rest as text. */
  ghost predicate TextsClean(r: seq<Piece>, left: string, right: string)
    requires |r| >= 1
  {
    (forall i :: 0 <= i < |r| - 1 && r[i].Text? ==> NoOccurrence(r[i].data, left))
    && (NoOccurrence(r[|r| - 1].data, left)
        || (StartsWith(r[|r| - 1].data, left) && EndOfMath(right, r[|r| - 1].data, |left|) == -1))
  }

  lemma TextsCleanCons(p: Piece, rest: seq<Piece>, left: string, right: string)
    requires |rest| >= 1 && TextsClean(rest, left, right)
    requires p.Text? ==> NoOccurrence(p.data, left)
    ensures TextsClean([p] + rest, left, right)
  {
    var r := [p] + rest;
    assert forall i :: 1 <= i < |r| ==> r[i] == rest[i - 1];
  }

  lemma {:induction false} CleanFromText(text: string, left: string, right: string, display: bool, curr: nat,
                                         r: seq<Piece>)
    requires curr <= |text| && |left| > 0
    requires r == PiecesFromText(text, left, right, display, curr)
    ensures |r| >= 1 && TextsClean(r, left, right)
    decreases 2 * (|text| - curr) + 1
  {
    var next := IndexOf(text, left, curr);
    PiecesFromTextStep(text, left, right, display, curr, next);
    IndexOfFirst(text, left, curr);
    if next == -1 {
      NoOccurrenceBefore(text, left, curr, |text|);
      assert text[curr..] == text[curr..|text|];
    } else {
      var rest := PiecesFromMath(text, left, right, display, next);
      NoOccurrenceBefore(text, left, curr, next);
      IndexOfFound(text, left, curr);
      CleanFromMath(text, left, right, display, next, rest);
      TextsCleanCons(Text(text[curr..next]), rest, left, right);
    }
  }

  lemma {:induction false} CleanFromMath(text: string, left: string, right: string, display: bool, curr: nat,
                                         r: seq<Piece>)
    requires curr <= |text| && |left| > 0 && OccursAt(text, left, curr)
    requires r == PiecesFromMath(text, left, right, display, curr)
    ensures |r| >= 1 && TextsClean(r, left, right)
    decreases 2 * (|text| - curr)
  {
    var next := EndOfMath(right, text, curr + |left|);
    PiecesFromMathStep(text, left, right, display, curr, next);
    if next == -1 {
      CleanUnmatched(text, left, right, curr);
    } else {
      var rest := PiecesFromText(text, left, right, display, next + |right|);
      CleanFromText(text, left, right, display, next + |right|, rest);
      TextsCleanCons(Math(text[curr + |left|..next], text[curr..next + |right|], display), rest, left, right);
    }
  }

  /** A left delimiter without its closing one leaves the rest as text. */
  lemma CleanUnmatched(text: string, left: string, right: string, curr: nat)
    requires curr <= |text| && OccursAt(text, left, curr)
    requires EndOfMath(right, text, curr + |left|) == -1
    ensures TextsClean([Text(text[curr..])], left, right)
  {
    var t := text[curr..];
    assert t[..|left|] == text[curr..curr + |left|];
    EndOfMathSuffix(right, text, curr, curr + |left|, 0, -1, EndOfMath(right, t, |left|));
    assert StartsWith(t, left) && EndOfMath(right, t, |left|) == -1;
  }

  lemma SplitTexts(text: string, left: string, right: string, display: bool)
    requires |left| > 0
    ensures |Split(Text(text), left, right, display)| >= 1
    ensures TextsClean(Split(Text(text), left, right, display), left, right)
  {
    CleanFromText(text, left, right, display, 0, PiecesFromText(text, left, right, display, 0));
  }

  /** A text without the left delimiter is one text piece; a math piece
      as input gives nothing. */
  lemma SplitTrivial(text: string, left: string, right: string, display: bool, d: string, raw: string)
    requires |left| + |right| > 0
    requires IndexOf(text, left, 0) == -1
    ensures Split(Text(text), left, right, display) == [Text(text)]
    ensures Split(Math(d, raw, display), left, right, display) == []
  {
  }

  // ===========================================================================
  // replaceMathML

  /** A value stored under a math key: the MathML block `replaceMathML`
      cut out, or the LaTeX source the LaTeX pass stores. */
  datatype MathSource = MathML(mathml: string) | Latex(latex: string)

  /** `'@math-ml-' + id + '@'`. */
  function MathKey(id: int): string
  {
    "@math-ml-" + DecimalString(id) + "@"
  }

  lemma MathKeyInjective(a: int, b: int)
    requires MathKey(a) == MathKey(b)
    ensures a == b
  {
    var ka, kb := MathKey(a), MathKey(b);
    assert ka[9..|ka| - 1] == DecimalString(a);
    assert kb[9..|kb| - 1] == DecimalString(b);
    DecimalStringInjective(a, b);
  }

  lemma MathKeyDistinct(a: int, b: int)
    requires a != b
    ensures MathKey(a) != MathKey(b)
  {
    if MathKey(a) == MathKey(b) {
      MathKeyInjective(a, b);
    }
  }

  /** What the loop of `replaceMathML` appends for pieces `ps` when the
      next id is `id`: text pieces as they are, each math piece as its key. */
  function KeyedText(ps: seq<Piece>, id: int): string
  {
    if ps == [] then ""
    else if ps[0].Text? then ps[0].data + KeyedText(ps[1..], id)
    else MathKey(id) + KeyedText(ps[1..], id + 1)
  }

  /** The entries the loop adds for pieces `ps` starting at id `id`. */
  function MathEntries(ps: seq<Piece>, id: int): map<string, MathSource>
  {
    if ps == [] then map[]
    else if ps[0].Text? then MathEntries(ps[1..], id)
    else MathEntries(ps[1..], id + 1)[MathKey(id) := MathML(ps[0].rawData)]
  }

  function MathCount(ps: seq<Piece>): nat
  {
    if ps == [] then 0 else (if ps[0].Math? then 1 else 0) + MathCount(ps[1..])
  }

  /** The math pieces of `ps`, in order. */
  function MathBlocks(ps: seq<Piece>): seq<string>
    ensures |MathBlocks(ps)| == MathCount(ps)
  {
    if ps == [] then [] else (if ps[0].Math? then [ps[0].rawData] else []) + MathBlocks(ps[1..])
  }

  /** The table the source fills: keys of the ids handed out so far. */
  class MathTable {
    var entries: map<string, MathSource>

    constructor ()
      ensures entries == map[]
    {
      entries := map[];
    }
  }

  /** `replaceMathML(htText, startId, maths)`: the result starts with
      `undefined` (the source appends to an uninitialised variable), and
      every `<math>…</math>` block becomes a key stored in `maths`. */
  method ReplaceMathML(htText: string, startId: int, maths: MathTable) returns (result: string)
    modifies maths
    ensures result == "undefined" + KeyedText(Split(Text(htText), "<math>", "</math>", false), startId)
    ensures maths.entries
      == old(maths.entries) + MathEntries(Split(Text(htText), "<math>", "</math>", false), startId)
  {
    var texts := SplitAtDelimiters(Text(htText), "<math>", "</math>", false);
    result := ReplaceLoop(texts, startId, maths);
  }

  /** The loop of `replaceMathML` over the pieces `texts`, from the
      uninitialised `htmlText` on. */
  method ReplaceLoop(texts: seq<Piece>, startId: int, maths: MathTable) returns (result: string)
    modifies maths
    ensures result == "undefined" + KeyedText(texts, startId)
    ensures maths.entries == old(maths.entries) + MathEntries(texts, startId)
  {
    result := "undefined";
    var mathId := startId;
    var i := 0;
    ghost var start := maths.entries;
    assert texts[0..] == texts;
    while i < |texts|
      invariant ReplaceState(texts, startId, start, i, mathId, result, maths.entries)
    {
      var textB := texts[i];
      ReplaceStep(texts, startId, start, i, mathId, result, maths.entries);
      if textB.Text? {
        result := result + textB.data;
      } else {
        var k := MathKey(mathId);
        maths.entries := maths.entries[k := MathML(textB.rawData)];
        mathId := mathId + 1;
        result := result + k;
      }
      i := i + 1;
    }
  }

  /** The loop invariant of `replaceMathML`: what is appended and stored so
      far, followed by what the remaining pieces add, is the whole outcome. */
  ghost predicate ReplaceState(texts: seq<Piece>, startId: int, start: map<string, MathSource>,
                               i: int, mathId: int, result: string, entries: map<string, MathSource>)
  {
    0 <= i <= |texts|
    && result + KeyedText(texts[i..], mathId) == "undefined" + KeyedText(texts, startId)
    && entries + MathEntries(texts[i..], mathId) == start + MathEntries(texts, startId)
  }

  /** One piece of the loop of `replaceMathML`. */
  lemma ReplaceStep(texts: seq<Piece>, startId: int, start: map<string, MathSource>,
                    i: nat, mathId: int, result: string, entries: map<string, MathSource>)
    requires i < |texts|
    requires ReplaceState(texts, startId, start, i, mathId, result, entries)
    ensures texts[i].Text? ==>
      ReplaceState(texts, startId, start, i + 1, mathId, result + texts[i].data, entries)
    ensures texts[i].Math? ==>
      ReplaceState(texts, startId, start, i + 1, mathId + 1, result + MathKey(mathId),
                   entries[MathKey(mathId) := MathML(texts[i].rawData)])
  {
    assert texts[i..][1..] == texts[i + 1..];
    var p := texts[i];
    if p.Text? {
      AppendAssoc(result, p.data, KeyedText(texts[i + 1..], mathId));
    } else {
      var n := MathEntries(texts[i + 1..], mathId + 1);
      MathEntriesAbove(texts[i + 1..], mathId + 1, mathId);
      MergeUpdate(entries, n, MathKey(mathId), MathML(p.rawData));
      AppendAssoc(result, MathKey(mathId), KeyedText(texts[i + 1..], mathId + 1));
    }
  }

  lemma MergeUpdate<K, V>(m: map<K, V>, n: map<K, V>, k: K, v: V)
    requires k !in n
    ensures m + n[k := v] == m[k := v] + n
  {
  }

  /** The keys added start at `id` and are handed out in order. */
  lemma {:induction false} MathEntriesAbove(ps: seq<Piece>, id: int, below: int)
    requires below < id
    ensures MathKey(below) !in MathEntries(ps, id)
  {
    if ps != [] {
      MathEntriesAbove(ps[1..], if ps[0].Text? then id else id + 1, below);
      if ps[0].Math? && MathKey(id) == MathKey(below) {
        MathKeyInjective(id, below);
      }
    }
  }

  lemma {:induction false} MathEntriesSize(ps: seq<Piece>, id: int)
    ensures |MathEntries(ps, id)| == MathCount(ps)
  {
    if ps != [] {
      if ps[0].Text? {
        MathEntriesSize(ps[1..], id);
      } else {
        MathEntriesSize(ps[1..], id + 1);
        MathEntriesAbove(ps[1..], id + 1, id);
      }
    }
  }

  /** The k-th math block of `ps` is stored under the key of `id + k`
      (named `key` here). */
  lemma {:induction false} MathEntriesAt(ps: seq<Piece>, id: int, k: nat, key: int,
                                         m: map<string, MathSource>, blocks: seq<string>)
    requires m == MathEntries(ps, id) && blocks == MathBlocks(ps)
    requires k < |blocks| && key == id + k
    ensures Stored(m, MathKey(key), blocks[k])
    decreases |ps|, 1
  {
    if ps[0].Text? {
      var tail := ps[1..];
      assert blocks == MathBlocks(tail);
      MathEntriesAt(tail, id, k, key, m, blocks);
    } else if k > 0 {
      MathEntriesAtLater(ps, id, k, key, m, blocks);
    }
  }

  /** The same for a later block behind a leading math piece. */
  lemma {:induction false} MathEntriesAtLater(ps: seq<Piece>, id: int, k: nat, key: int,
                                              m: map<string, MathSource>, blocks: seq<string>)
    requires ps != [] && ps[0].Math? && 0 < k
    requires m == MathEntries(ps, id) && blocks == MathBlocks(ps)
    requires k < |blocks| && key == id + k
    ensures Stored(m, MathKey(key), blocks[k])
    decreases |ps|, 0
  {
    var tail := ps[1..];
    var tailBlocks := MathBlocks(tail);
    assert blocks == [ps[0].rawData] + tailBlocks;
    assert blocks[k] == tailBlocks[k - 1];
    var n := MathEntries(tail, id + 1);
    assert m == n[MathKey(id) := MathML(ps[0].rawData)];
    MathEntriesAt(tail, id + 1, k - 1, key, n, tailBlocks);
    MathKeyDistinct(key, id);
    StoredUpdate(n, MathKey(id), MathML(ps[0].rawData), MathKey(key), blocks[k]);
  }

  lemma StoredUpdate(n: map<string, MathSource>, k0: string, v: MathSource, key: string, block: string)
    requires key != k0 && Stored(n, key, block)
    ensures Stored(n[k0 := v], key, block)
  {
  }

  /** `block` is stored under `key` as MathML. */
  predicate Stored(m: map<string, MathSource>, key: string, block: string)
  {
    key in m && m[key] == MathML(block)
  }

  /** The k-th math block is stored under the key of id `startId + k`,
      and there are no other entries. */
  lemma MathEntriesContent(ps: seq<Piece>, id: int)
    ensures |MathEntries(ps, id)| == MathCount(ps)
    ensures forall k :: 0 <= k < MathCount(ps) ==>
      Stored(MathEntries(ps, id), MathKey(id + k), MathBlocks(ps)[k])
  {
    MathEntriesSize(ps, id);
    forall k | 0 <= k < MathCount(ps)
      ensures Stored(MathEntries(ps, id), MathKey(id + k), MathBlocks(ps)[k])
    {
      MathEntriesAt(ps, id, k, id + k, MathEntries(ps, id), MathBlocks(ps));
    }
  }
}
