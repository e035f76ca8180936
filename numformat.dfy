/** The list-number formatters of `src/helper.js`: letters, Roman numerals
    and simplified Chinese numerals.  Numbers are exact integers; the
    numbering engine always passes an integer, so the `isNaN(num)` branch
    of each formatter is not part of this model. */
module NumberFormat {
  import opened Wrappers
  import opened Js

  // ===========================================================================
  // Letters

  /** `String.fromCharCode(code)` for one code: the code is reduced modulo
      2^16 (ToUint16); a lone surrogate, which a Dafny string cannot hold,
      is shown as U+FFFD. */
  function FromCharCode(code: int): (c: char)
    ensures (code % 0x1_0000 < 0xD800 || code % 0x1_0000 > 0xDFFF) ==> c as int == code % 0x1_0000
  {
    var u := code % 0x1_0000;
    if 0xD800 <= u <= 0xDFFF then '\U{FFFD}' else u as char
  }

  /** `upperLetterOfNum(num)`: the one character with code 64 + num. */
  function UpperLetterOfNum(num: int): (r: string)
    ensures |r| == 1
  {
    [FromCharCode(65 + (num - 1))]
  }

  /** `lowerLetterOfNum(num)`: the one character with code 96 + num. */
  function LowerLetterOfNum(num: int): (r: string)
    ensures |r| == 1
  {
    [FromCharCode(97 + (num - 1))]
  }

  /** 1 to 26 give the letters A to Z and a to z, in order, and the letter
      gives back the number. */
  lemma LettersOfAlphabet(num: int)
    requires 1 <= num <= 26
    ensures 'A' <= UpperLetterOfNum(num)[0] <= 'Z' && UpperLetterOfNum(num)[0] as int - 64 == num
    ensures 'a' <= LowerLetterOfNum(num)[0] <= 'z' && LowerLetterOfNum(num)[0] as int - 96 == num
  {
  }

  /** There is no wrap-around after Z: 27 gives `[`, 0 gives `@`. */
  lemma LettersDoNotWrap()
    ensures UpperLetterOfNum(27) == "[" && UpperLetterOfNum(0) == "@"
    ensures LowerLetterOfNum(27) == "{" && LowerLetterOfNum(0) == "`"
  {
  }

  // ===========================================================================
  // Roman numerals

  /** The 30 numeral pieces of `upperRomanOfNum`: hundreds, tens, units. */
  const UpperKey: seq<string> :=
    ["", "C", "CC", "CCC", "CD", "D", "DC", "DCC", "DCCC", "CM"] +
    ["", "X", "XX", "XXX", "XL", "L", "LX", "LXX", "LXXX", "XC"] +
    ["", "I", "II", "III", "IV", "V", "VI", "VII", "VIII", "IX"]

  /** The same pieces in lower case, for `lowerRomanOfNum`. */
  const LowerKey: seq<string> :=
    ["", "c", "cc", "ccc", "cd", "d", "dc", "dcc", "dccc", "cm"] +
    ["", "x", "xx", "xxx", "xl", "l", "lx", "lxx", "lxxx", "xc"] +
    ["", "i", "ii", "iii", "iv", "v", "vi", "vii", "viii", "ix"]

  /** The largest array length `Array(n)` accepts: 2^32 - 1. */
  const MaxArrayLength: int := 0xFFFF_FFFF

  /** `+c` for a character `pop` returns from `String(num)`: a digit's
      value, NaN for the minus sign. */
  function CharNumber(c: char): (r: Num)
    ensures r.Int? <==> IsDigit(c)
  {
    if IsDigit(c) then Int(DigitValue(c)) else NaN
  }

  /** `key[d + i * 10] || ''`: an index that is NaN or out of range reads
      `undefined`, which `|| ''` turns into the empty string. */
  function KeyPiece(key: seq<string>, d: Num, i: nat): string
  {
    if d.Int? && 0 <= d.value + i * 10 < |key| then key[d.value + i * 10] else ""
  }

  /** What `i` rounds of `roman = (key[+digits.pop() + i * 10] || '') + roman`
      put in front of the numeral, for the digits `s` before them; an empty
      array pops `undefined`, whose number is NaN. */
  function Popped(s: string, key: seq<string>, i: nat): string
  {
    PopRounds(s, key, i)
  }

  /** The recursion behind `Popped`, the last round first. */
  function PopRounds(s: string, key: seq<string>, i: nat): string
    decreases i
  {
    if i == 0 then ""
    else if s == [] then PopRounds([], key, i - 1)
    else PopRounds(s[..|s| - 1], key, i - 1) + KeyPiece(key, CharNumber(s[|s| - 1]), i - 1)
  }

  /** `+digits.join('')` for what is left of `String(num)` after the pops:
      the empty string is 0, a lone minus sign NaN. */
  function PrefixNumber(s: string): (r: Num)
  {
    if s == [] then Int(0)
    else if s[0] == '-' then
      (if |s| > 1 && AllDigits(s[1..]) then Int(0 - DigitsValue(s[1..])) else NaN)
    else if AllDigits(s) then Int(DigitsValue(s))
    else NaN
  }

  /** `n` copies of `c`. */
  function Repeat(c: char, n: nat): (r: string)
    ensures |r| == n
    ensures forall k :: 0 <= k < n ==> r[k] == c
  {
    if n == 0 then [] else [c] + Repeat(c, n - 1)
  }

  /** `Array(n + 1).join('M')`: n copies of `M`; a NaN or negative length,
      or one beyond 2^32 - 1, throws a RangeError. */
  function Thousands(n: Num): (r: Try<string>)
  {
    if n.NaN? || n.value + 1 < 0 || n.value + 1 > MaxArrayLength then Throws
    else Ok(Repeat('M', if n.value + 1 == 0 then 0 else n.value))
  }

  /** The loop of `upperRomanOfNum`/`lowerRomanOfNum` with the numeral
      pieces `key`: three digits are popped off `String(num)`, and what is
      left becomes the count of leading `M`s. */
  method RomanOfNum(num: int, key: seq<string>) returns (r: Try<string>)
    ensures r == RomanOf(num, key)
  {
    ghost var s := DecimalString(num);
    var digits := DecimalString(num);
    var roman := "";
    var i := 3;
    ghost var whole := Popped(s, key, i);
    assert s[..|s|] == s;
    while i > 0
      invariant PopState(s, key, digits, i, roman, whole)
      decreases i
    {
      PopStep(s, key, digits, i, roman, whole);
      i := i - 1;
      var d: Num := NaN;
      if |digits| > 0 {
        d := CharNumber(digits[|digits| - 1]);
        digits := digits[..|digits| - 1];
      }
      roman := KeyPiece(key, d, i) + roman;
    }
    assert roman == whole && whole == Popped(s, key, 3);
    assert digits == if |s| >= 3 then s[..|s| - 3] else [];
    var m := Thousands(PrefixNumber(digits));
    if m.Throws? {
      return Throws;
    }
    r := Ok(m.value + roman);
  }

  /** The loop invariant of the Roman formatters: `digits` is what is left
      of `s` after `3 - i` pops, and the `i` pops still to come complete
      `roman` to `whole`. */
  ghost predicate PopState(s: string, key: seq<string>, digits: string, i: int, roman: string, whole: string)
  {
    0 <= i <= 3
    && |digits| == (if |s| >= 3 - i then |s| - (3 - i) else 0)
    && digits == s[..|digits|]
    && Popped(digits, key, i) + roman == whole
  }

  /** One round of `Popped`. */
  lemma PopOne(digits: string, key: seq<string>, i: nat)
    requires i > 0
    ensures digits != [] ==>
      (Popped(digits, key, i)
       == Popped(digits[..|digits| - 1], key, i - 1) + KeyPiece(key, CharNumber(digits[|digits| - 1]), i - 1))
    ensures digits == [] ==> Popped(digits, key, i) == Popped(digits, key, i - 1)
  {
  }

  lemma PopStep(s: string, key: seq<string>, digits: string, i: int, roman: string, whole: string)
    requires PopState(s, key, digits, i, roman, whole) && i > 0
    ensures digits != [] ==>
      PopState(s, key, digits[..|digits| - 1], i - 1,
               KeyPiece(key, CharNumber(digits[|digits| - 1]), i - 1) + roman, whole)
    ensures digits == [] ==> PopState(s, key, digits, i - 1, KeyPiece(key, NaN, i - 1) + roman, whole)
  {
    PopOne(digits, key, i);
    if digits != [] {
      var p := KeyPiece(key, CharNumber(digits[|digits| - 1]), i - 1);
      assert digits[..|digits| - 1] == s[..|digits| - 1];
      assert Popped(digits[..|digits| - 1], key, i - 1) + p + roman
        == Popped(digits[..|digits| - 1], key, i - 1) + (p + roman);
    } else {
      assert roman == "" + roman;
    }
  }

  /** What `RomanOfNum` computes: the numeral pieces of the last three
      digits of `String(num)` behind the `M`s counted by the rest. */
  function RomanOf(num: int, key: seq<string>): (r: Try<string>)
  {
    var s := DecimalString(num);
    var rest := if |s| >= 3 then s[..|s| - 3] else [];
    var m := Thousands(PrefixNumber(rest));
    if m.Throws? then Throws else Ok(m.value + Popped(s, key, 3))
  }

  /** `upperRomanOfNum(num)`. */
  method UpperRomanOfNum(num: int) returns (r: Try<string>)
    ensures r == RomanOf(num, UpperKey)
  {
    r := RomanOfNum(num, UpperKey);
  }

  /** `lowerRomanOfNum(num)`. */
  method LowerRomanOfNum(num: int) returns (r: Try<string>)
    ensures r == RomanOf(num, LowerKey)
  {
    r := RomanOfNum(num, LowerKey);
  }

  /** The three numeral pieces of the digits of `m` below 1000. */
  function LowPieces(m: nat, key: seq<string>): string
    requires |key| == 30
  {
    key[(m / 100) % 10] + key[10 + (m / 10) % 10] + key[20 + m % 10]
  }

  predicate KeyShape(key: seq<string>)
  {
    |key| == 30 && key[0] == "" && key[10] == "" && key[20] == ""
  }

  /** Popping the last digit of `Digits(m)` behind the prefix `p`. */
  lemma PopDigit(p: string, m: nat, key: seq<string>, i: nat, rest: string)
    requires 0 < i
    requires rest == if m < 10 then p else p + Digits(m / 10)
    ensures Popped(p + Digits(m), key, i) == Popped(rest, key, i - 1) + KeyPiece(key, Int(m % 10), i - 1)
  {
    var s := p + Digits(m);
    var d := Digits(m);
    var c := DigitChar(m % 10);
    if m < 10 {
      assert d == [c];
    } else {
      assert d == Digits(m / 10) + [c];
    }
    assert s == rest + [c];
    assert s[..|s| - 1] == rest;
    assert CharNumber(c) == Int(m % 10);
    PopOne(s, key, i);
  }

  /** The numeral pieces of the last `i` decimal digits of `m`, the
      highest first. */
  function LowRounds(m: nat, key: seq<string>, i: nat): string
    requires |key| == 30 && i <= 3
  {
    DigitRounds(m, key, i)
  }

  /** The recursion behind `LowRounds`. */
  function DigitRounds(m: nat, key: seq<string>, i: nat): string
    requires |key| == 30 && i <= 3
  {
    if i == 0 then "" else DigitRounds(m / 10, key, i - 1) + key[m % 10 + (i - 1) * 10]
  }

  lemma LowRoundsZero(key: seq<string>, i: nat)
    requires KeyShape(key) && i <= 3
    ensures LowRounds(0, key, i) == ""
  {
    if i > 0 {
      LowRoundsZero(key, i - 1);
      LowRoundsStep(0, key, i);
      assert KeyPiece(key, Int(0), i - 1) == "";
    }
  }

  /** One round of `LowRounds`. */
  lemma LowRoundsStep(m: nat, key: seq<string>, i: nat)
    requires |key| == 30 && 0 < i <= 3
    ensures LowRounds(m, key, i) == LowRounds(m / 10, key, i - 1) + KeyPiece(key, Int(m % 10), i - 1)
  {
  }

  lemma LowRoundsThree(m: nat, key: seq<string>)
    requires KeyShape(key)
    ensures LowRounds(m, key, 3) == LowPieces(m, key)
  {
    assert m / 10 / 10 == m / 100;
    LowRoundsStep(m, key, 3);
    LowRoundsStep(m / 10, key, 2);
    LowRoundsStep(m / 100, key, 1);
    var h := key[(m / 100) % 10];
    assert LowRounds(m / 100, key, 1) == "" + h == h;
  }

  /** Rounds that pop only a minus sign or nothing add nothing. */
  lemma PopSign(p: string, key: seq<string>, i: nat)
    requires p == "" || p == "-"
    ensures Popped(p, key, i) == ""
    decreases i, |p|
  {
    if i > 0 {
      PopSign([], key, i - 1);
      if p == "-" {
        assert p[..|p| - 1] == [];
      }
    }
  }

  /** `i` rounds over a sign and the digits of `m` give the pieces of the
      last `i` digits of `m`. */
  lemma {:induction false} PopDigits(p: string, m: nat, key: seq<string>, i: nat)
    requires KeyShape(key) && i <= 3
    requires p == "" || p == "-"
    ensures Popped(p + Digits(m), key, i) == LowRounds(m, key, i)
  {
    if i > 0 {
      if m < 10 {
        PopLastDigit(p, m, key, i);
      } else {
        PopDigit(p, m, key, i, p + Digits(m / 10));
        PopDigits(p, m / 10, key, i - 1);
        LowRoundsStep(m, key, i);
      }
    }
  }

  /** The rounds over a sign and a single digit. */
  lemma PopLastDigit(p: string, m: nat, key: seq<string>, i: nat)
    requires KeyShape(key) && 0 < i <= 3 && m < 10
    requires p == "" || p == "-"
    ensures Popped(p + Digits(m), key, i) == LowRounds(m, key, i)
  {
    PopDigit(p, m, key, i, p);
    PopSign(p, key, i - 1);
    LowRoundsStep(m, key, i);
    assert m / 10 == 0;
    LowRoundsZero(key, i - 1);
    var piece := KeyPiece(key, Int(m % 10), i - 1);
    assert "" + piece == piece;
  }

  lemma DigitsDropOne(m: nat)
    requires m >= 10
    ensures Digits(m) == Digits(m / 10) + [DigitChar(m % 10)]
  {
  }

  /** Dropping the last three digits of `Digits(m)` leaves the digits of
      `m / 1000`. */
  lemma DigitsDropThree(p: string, m: nat)
    requires m >= 1000
    ensures var s := p + Digits(m); |s| >= 3 && s[..|s| - 3] == p + Digits(m / 1000)
  {
    DigitsDropOne(m);
    DigitsDropOne(m / 10);
    DigitsDropOne(m / 100);
    assert m / 10 / 10 == m / 100 && m / 100 / 10 == m / 1000;
    var s := p + Digits(m);
    assert s == p + Digits(m / 1000) + [DigitChar(m / 100 % 10), DigitChar(m / 10 % 10), DigitChar(m % 10)];
  }

  /** At most three characters: nothing is left for the `M`s. */
  lemma DigitsShort(p: string, m: nat)
    requires m < (if p == [] then 1000 else 100)
    ensures |p + Digits(m)| <= |p| + 3
    ensures p != [] ==> |p + Digits(m)| <= |p| + 2
  {
    if m >= 10 {
      DigitsDropOne(m);
      if m >= 100 {
        DigitsDropOne(m / 10);
      }
    }
  }

  /** `Array(n + 1).join('M')` for the count `q` that `String(q)` spells. */
  lemma ThousandsOfDigits(p: string, q: nat)
    requires p == "" || p == "-"
    ensures p == "" ==>
      (Thousands(PrefixNumber(p + Digits(q))) ==
       if q + 1 <= MaxArrayLength then Ok(Repeat('M', q)) else Throws)
    ensures p == "-" ==>
      (Thousands(PrefixNumber(p + Digits(q))) == if q <= 1 then Ok("") else Throws)
  {
    var d := Digits(q);
    DigitsRoundTrip(q, d);
    assert d[0] != '-';
    if p == "-" {
      assert (p + d)[1..] == d;
    } else {
      assert p + d == d;
    }
  }

  /** `upperRomanOfNum`/`lowerRomanOfNum` of a number from 0 up: one `M`
      per thousand, then the pieces of the hundreds, tens and units digits;
      more than 2^32 - 2 thousands throw. */
  lemma RomanNonNegative(num: int, key: seq<string>)
    requires num >= 0 && KeyShape(key)
    ensures RomanOf(num, key) ==
      (if num / 1000 + 1 <= MaxArrayLength then Ok(Repeat('M', num / 1000) + LowPieces(num, key)) else Throws)
  {
    if num >= 1000 {
      RomanThousands(num, key);
    } else {
      RomanBelowThousand(num, key);
      assert Repeat('M', num / 1000) + LowPieces(num, key) == LowPieces(num, key);
    }
  }

  lemma RomanThousands(num: int, key: seq<string>)
    requires num >= 1000 && KeyShape(key)
    ensures RomanOf(num, key) ==
      (if num / 1000 + 1 <= MaxArrayLength then Ok(Repeat('M', num / 1000) + LowPieces(num, key)) else Throws)
  {
    var s := DecimalString(num);
    PoppedPieces(num, key, s);
    RestDigits(num, s);
    ThousandsOfDigits("", num / 1000);
    RomanOfParts(num, key, s, s[..|s| - 3], Popped(s, key, 3));
  }

  lemma RomanBelowThousand(num: int, key: seq<string>)
    requires 0 <= num < 1000 && KeyShape(key)
    ensures RomanOf(num, key) == Ok(LowPieces(num, key))
  {
    var s := DecimalString(num);
    PoppedPieces(num, key, s);
    RestEmpty(num, s);
    assert "" + LowPieces(num, key) == LowPieces(num, key);
    RomanOfParts(num, key, s, [], Popped(s, key, 3));
  }

  /** The three pops over `String(num)` give the pieces of the last three
      digits of its magnitude. */
  lemma PoppedPieces(num: int, key: seq<string>, s: string)
    requires KeyShape(key) && s == DecimalString(num)
    ensures Popped(s, key, 3) == LowPieces(if num < 0 then -num else num, key)
  {
    var n := if num < 0 then -num else num;
    var p := if num < 0 then "-" else "";
    assert s == p + Digits(n);
    PopDigits(p, n, key, 3);
    LowRoundsThree(n, key);
  }

  /** From 1000 up, and from -1000 down, the digits before the last three
      spell the thousands. */
  lemma RestDigits(num: int, s: string)
    requires (num >= 1000 || num <= -1000) && s == DecimalString(num)
    ensures |s| >= 3
    ensures s[..|s| - 3] == (if num < 0 then "-" else "") + Digits((if num < 0 then -num else num) / 1000)
  {
    var n := if num < 0 then -num else num;
    var p := if num < 0 then "-" else "";
    assert s == p + Digits(n);
    DigitsDropThree(p, n);
  }

  /** From -99 to 999 nothing is left before the last three characters. */
  lemma RestEmpty(num: int, s: string)
    requires -100 < num < 1000 && s == DecimalString(num)
    ensures |s| <= 3
    ensures (if |s| >= 3 then s[..|s| - 3] else []) == []
  {
    var n := if num < 0 then -num else num;
    var p := if num < 0 then "-" else "";
    assert s == p + Digits(n);
    DigitsShort(p, n);
  }

  /** `RomanOf` from what the pops leave and what they build. */
  lemma RomanOfParts(num: int, key: seq<string>, s: string, rest: string, roman: string)
    requires s == DecimalString(num)
    requires rest == if |s| >= 3 then s[..|s| - 3] else []
    requires roman == Popped(s, key, 3)
    ensures RomanOf(num, key) ==
      (var m := Thousands(PrefixNumber(rest)); if m.Throws? then Throws else Ok(m.value + roman))
  {
  }

  /** Of a negative number only -1 to -99 and -1000 to -1999 give a
      numeral, made of the pieces of the digits of `-num` below 1000 (the
      minus sign and a leading 1 vanish); -100 to -999 and -2000 down
      throw. */
  lemma RomanNegative(num: int, key: seq<string>)
    requires num < 0 && KeyShape(key)
    ensures RomanOf(num, key) ==
      (if -100 < num || -2000 < num <= -1000 then Ok(LowPieces(-num, key)) else Throws)
  {
    if num <= -1000 {
      RomanThousandsNegative(num, key);
    } else if num <= -100 {
      RomanHundredsNegative(num, key, DecimalString(num));
    } else {
      RomanSmallNegative(num, key);
    }
  }

  /** -1000 down: a lone leading 1 counts as no `M`, anything more throws. */
  lemma RomanThousandsNegative(num: int, key: seq<string>)
    requires num <= -1000 && KeyShape(key)
    ensures RomanOf(num, key) == if num > -2000 then Ok(LowPieces(-num, key)) else Throws
  {
    var s := DecimalString(num);
    PoppedPieces(num, key, s);
    RestDigits(num, s);
    ThousandsOfDigits("-", -num / 1000);
    assert "" + LowPieces(-num, key) == LowPieces(-num, key);
    RomanOfParts(num, key, s, s[..|s| - 3], Popped(s, key, 3));
  }

  /** -1 to -99: the minus sign is popped as NaN and adds nothing. */
  lemma RomanSmallNegative(num: int, key: seq<string>)
    requires -100 < num < 0 && KeyShape(key)
    ensures RomanOf(num, key) == Ok(LowPieces(-num, key))
  {
    var s := DecimalString(num);
    PoppedPieces(num, key, s);
    RestEmpty(num, s);
    assert "" + LowPieces(-num, key) == LowPieces(-num, key);
    RomanOfParts(num, key, s, [], Popped(s, key, 3));
  }

  /** -100 to -999: a lone minus sign is left for the `M`s, which throws. */
  lemma RomanHundredsNegative(num: int, key: seq<string>, s: string)
    requires -1000 < num <= -100 && s == DecimalString(num)
    ensures RomanOf(num, key) == Throws
  {
    var n := -num;
    DigitsDropOne(n);
    DigitsDropOne(n / 10);
    assert n / 10 / 10 == n / 100 && n / 100 < 10;
    assert s == "-" + [DigitChar(n / 100 % 10), DigitChar(n / 10 % 10), DigitChar(n % 10)];
    assert s[..|s| - 3] == "-";
    RomanOfParts(num, key, s, "-", Popped(s, key, 3));
  }

  /** The value of a Roman numeral letter; anything else is 0. */
  function RomanDigit(c: char): (v: nat)
    ensures v <= 1000
  {
    match c
    case 'I' => 1
    case 'V' => 5
    case 'X' => 10
    case 'L' => 50
    case 'C' => 100
    case 'D' => 500
    case 'M' => 1000
    case _ => 0
  }

  /** The value of a Roman numeral: each letter counts, negatively when a
      larger letter follows it. */
  function RomanValue(s: string): int
  {
    LetterSum(s)
  }

  /** The recursion behind `RomanValue`, the first letter first. */
  function LetterSum(s: string): int
  {
    if s == [] then 0
    else (if |s| >= 2 && RomanDigit(s[0]) < RomanDigit(s[1]) then 0 - RomanDigit(s[0]) else RomanDigit(s[0]))
         + LetterSum(s[1..])
  }

  /** Numerals add up when the letter at the seam does not grow. */
  lemma {:induction false} RomanConcat(a: string, b: string)
    requires a == [] || b == [] || RomanDigit(a[|a| - 1]) >= RomanDigit(b[0])
    ensures RomanValue(a + b) == RomanValue(a) + RomanValue(b)
  {
    if a == [] {
      assert a + b == b;
    } else if b == [] {
      assert a + b == a;
    } else {
      assert (a + b)[1..] == a[1..] + b;
      RomanConcat(a[1..], b);
    }
  }

  /** `n` `M`s are worth n thousands. */
  lemma {:induction false} RepeatValue(n: nat)
    ensures RomanValue(Repeat('M', n)) == 1000 * n
  {
    if n > 0 {
      RepeatValue(n - 1);
      assert Repeat('M', n)[1..] == Repeat('M', n - 1);
    }
  }

  lemma UpperKeyShape()
    ensures KeyShape(UpperKey)
  {
    assert UpperKey[0] == "" && UpperKey[10] == "" && UpperKey[20] == "";
  }

  /** A numeral piece of `scale` for digit `d`: worth d * scale, starting
      with a letter of at most 5 * scale and ending with one of at least
      `scale`. */
  predicate PieceOf(piece: string, scale: nat, d: nat)
  {
    RomanValue(piece) == d * scale
    && (piece != [] ==> RomanDigit(piece[0]) <= 5 * scale && RomanDigit(piece[|piece| - 1]) >= scale)
  }

  lemma HundredsPiece(d: nat)
    requires d < 10
    ensures PieceOf(UpperKey[d], 100, d)
  {
    if d < 5 {
      HundredsLow(d);
    } else {
      HundredsHigh(d);
    }
  }

  lemma HundredsLow(d: nat)
    requires d < 5
    ensures PieceOf(UpperKey[d], 100, d)
  {
    if d == 0 {
      assert UpperKey[0] == "";
      assert PieceOf("", 100, 0);
    } else if d == 1 {
      assert UpperKey[1] == "C";
      assert PieceOf("C", 100, 1);
    } else if d == 2 {
      assert UpperKey[2] == "CC";
      assert PieceOf("CC", 100, 2);
    } else if d == 3 {
      assert UpperKey[3] == "CCC";
      assert PieceOf("CCC", 100, 3);
    } else {
      assert UpperKey[4] == "CD";
      assert PieceOf("CD", 100, 4);
    }
  }

  lemma HundredsHigh(d: nat)
    requires 5 <= d < 10
    ensures PieceOf(UpperKey[d], 100, d)
  {
    if d == 5 {
      assert UpperKey[5] == "D";
      assert PieceOf("D", 100, 5);
    } else if d == 6 {
      assert UpperKey[6] == "DC";
      assert PieceOf("DC", 100, 6);
    } else if d == 7 {
      assert UpperKey[7] == "DCC";
      assert PieceOf("DCC", 100, 7);
    } else if d == 8 {
      assert UpperKey[8] == "DCCC";
      assert PieceOf("DCCC", 100, 8);
    } else {
      assert UpperKey[9] == "CM";
      assert PieceOf("CM", 100, 9);
    }
  }

  lemma TensPiece(d: nat)
    requires d < 10
    ensures PieceOf(UpperKey[10 + d], 10, d)
  {
    if d < 5 {
      TensLow(d);
    } else {
      TensHigh(d);
    }
  }

  lemma TensLow(d: nat)
    requires d < 5
    ensures PieceOf(UpperKey[10 + d], 10, d)
  {
    if d == 0 {
      assert UpperKey[10] == "";
      assert PieceOf("", 10, 0);
    } else if d == 1 {
      assert UpperKey[11] == "X";
      assert PieceOf("X", 10, 1);
    } else if d == 2 {
      assert UpperKey[12] == "XX";
      assert PieceOf("XX", 10, 2);
    } else if d == 3 {
      assert UpperKey[13] == "XXX";
      assert PieceOf("XXX", 10, 3);
    } else {
      assert UpperKey[14] == "XL";
      assert PieceOf("XL", 10, 4);
    }
  }

  lemma TensHigh(d: nat)
    requires 5 <= d < 10
    ensures PieceOf(UpperKey[10 + d], 10, d)
  {
    if d == 5 {
      assert UpperKey[15] == "L";
      assert PieceOf("L", 10, 5);
    } else if d == 6 {
      assert UpperKey[16] == "LX";
      assert PieceOf("LX", 10, 6);
    } else if d == 7 {
      assert UpperKey[17] == "LXX";
      assert PieceOf("LXX", 10, 7);
    } else if d == 8 {
      assert UpperKey[18] == "LXXX";
      assert PieceOf("LXXX", 10, 8);
    } else {
      assert UpperKey[19] == "XC";
      assert PieceOf("XC", 10, 9);
    }
  }

  lemma UnitsPiece(d: nat)
    requires d < 10
    ensures PieceOf(UpperKey[20 + d], 1, d)
  {
    if d < 5 {
      UnitsLow(d);
    } else {
      UnitsHigh(d);
    }
  }

  lemma UnitsLow(d: nat)
    requires d < 5
    ensures PieceOf(UpperKey[20 + d], 1, d)
  {
    if d == 0 {
      assert UpperKey[20] == "";
      assert PieceOf("", 1, 0);
    } else if d == 1 {
      assert UpperKey[21] == "I";
      assert PieceOf("I", 1, 1);
    } else if d == 2 {
      assert UpperKey[22] == "II";
      assert PieceOf("II", 1, 2);
    } else if d == 3 {
      assert UpperKey[23] == "III";
      assert PieceOf("III", 1, 3);
    } else {
      assert UpperKey[24] == "IV";
      assert PieceOf("IV", 1, 4);
    }
  }

  lemma UnitsHigh(d: nat)
    requires 5 <= d < 10
    ensures PieceOf(UpperKey[20 + d], 1, d)
  {
    if d == 5 {
      assert UpperKey[25] == "V";
      assert PieceOf("V", 1, 5);
    } else if d == 6 {
      assert UpperKey[26] == "VI";
      assert PieceOf("VI", 1, 6);
    } else if d == 7 {
      assert UpperKey[27] == "VII";
      assert PieceOf("VII", 1, 7);
    } else if d == 8 {
      assert UpperKey[28] == "VIII";
      assert PieceOf("VIII", 1, 8);
    } else {
      assert UpperKey[29] == "IX";
      assert PieceOf("IX", 1, 9);
    }
  }

  /** A number from its thousands and its last three digits. */
  lemma DecimalPlaces(n: nat, q: nat, h: nat, t: nat, u: nat)
    requires q == n / 1000 && h == (n / 100) % 10 && t == (n / 10) % 10 && u == n % 10
    ensures n == 1000 * q + 100 * h + 10 * t + u
  {
    assert n / 100 == 10 * (n / 1000) + (n / 100) % 10;
    assert n / 10 == 10 * (n / 100) + (n / 10) % 10;
  }

  /** `M`s followed by a hundreds, a tens and a units piece are worth
      what the digits say. */
  lemma RomanSum(M: string, H: string, T: string, U: string, q: nat, h: nat, t: nat, u: nat)
    requires M == Repeat('M', q) && PieceOf(H, 100, h) && PieceOf(T, 10, t) && PieceOf(U, 1, u)
    ensures RomanValue(M + (H + T + U)) == 1000 * q + 100 * h + 10 * t + u
  {
    RomanConcat(H, T);
    var HT := H + T;
    assert HT != [] ==> RomanDigit(HT[|HT| - 1]) >= 10;
    RomanConcat(HT, U);
    RepeatValue(q);
    RomanConcat(M, HT + U);
  }

  /** Reading back what `upperRomanOfNum` writes for a number from 0 up
      gives the number. */
  lemma RomanRoundTrip(num: int, r: Try<string>)
    requires num >= 0 && r == RomanOf(num, UpperKey) && r.Ok?
    ensures RomanValue(r.value) == num
  {
    UpperKeyShape();
    UpperKeyRoman();
    RomanNonNegative(num, UpperKey);
    ClosedFormValue(num, UpperKey, Repeat('M', num / 1000) + LowPieces(num, UpperKey));
  }

  /** A key whose thirty pieces are the Roman numerals of the hundreds,
      tens and units digits. */
  ghost predicate RomanKey(key: seq<string>)
  {
    |key| == 30
    && (forall k :: 0 <= k < 10 ==> PieceOf(key[k], 100, k))
    && (forall k :: 10 <= k < 20 ==> PieceOf(key[k], 10, k - 10))
    && (forall k :: 20 <= k < 30 ==> PieceOf(key[k], 1, k - 20))
  }

  lemma UpperKeyRoman()
    ensures RomanKey(UpperKey)
  {
    forall k | 0 <= k < 10
      ensures PieceOf(UpperKey[k], 100, k)
    {
      HundredsPiece(k);
    }
    forall k | 10 <= k < 20
      ensures PieceOf(UpperKey[k], 10, k - 10)
    {
      TensPiece(k - 10);
    }
    forall k | 20 <= k < 30
      ensures PieceOf(UpperKey[k], 1, k - 20)
    {
      UnitsPiece(k - 20);
    }
  }

  /** The closed form of `upperRomanOfNum` is worth the number. */
  lemma ClosedFormValue(num: nat, key: seq<string>, v: string)
    requires RomanKey(key)
    requires v == Repeat('M', num / 1000) + LowPieces(num, key)
    ensures RomanValue(v) == num
  {
    var q, h, t, u := num / 1000, (num / 100) % 10, (num / 10) % 10, num % 10;
    var H, T, U := key[h], key[10 + t], key[20 + u];
    assert v == Repeat('M', q) + (H + T + U);
    RomanSum(Repeat('M', q), H, T, U, q, h, t, u);
    DecimalPlaces(num, q, h, t, u);
  }

  /** ASCII lower case of one character. */
  function LowerChar(c: char): char
  {
    if 'A' <= c <= 'Z' then (c as int + 32) as char else c
  }

  /** `s` with every ASCII capital in lower case. */
  function Lowercase(s: string): (r: string)
    ensures |r| == |s| && forall k :: 0 <= k < |s| ==> r[k] == LowerChar(s[k])
  {
    if s == [] then [] else [LowerChar(s[0])] + Lowercase(s[1..])
  }

  lemma LowercaseConcat(a: string, b: string)
    ensures Lowercase(a + b) == Lowercase(a) + Lowercase(b)
  {
  }

  /** The key of `lowerRomanOfNum` is that of `upperRomanOfNum` in lower
      case. */
  lemma LowerKeyIsLowercase(k: nat)
    requires k < 30
    ensures LowerKey[k] == Lowercase(UpperKey[k])
  {
    if k < 10 {
      LowerHundreds(k);
    } else if k < 20 {
      LowerTens(k);
    } else {
      LowerUnits(k);
    }
  }

  lemma LowerHundreds(k: nat)
    requires k < 10
    ensures LowerKey[k] == Lowercase(UpperKey[k])
  {
    if k == 0 {
      assert UpperKey[0] == "" && LowerKey[0] == "";
      assert Lowercase("") == "";
    } else if k == 1 {
      assert UpperKey[1] == "C" && LowerKey[1] == "c";
      assert Lowercase("C") == "c";
    } else if k == 2 {
      assert UpperKey[2] == "CC" && LowerKey[2] == "cc";
      assert Lowercase("CC") == "cc";
    } else if k == 3 {
      assert UpperKey[3] == "CCC" && LowerKey[3] == "ccc";
      assert Lowercase("CCC") == "ccc";
    } else if k == 4 {
      assert UpperKey[4] == "CD" && LowerKey[4] == "cd";
      assert Lowercase("CD") == "cd";
    } else if k == 5 {
      assert UpperKey[5] == "D" && LowerKey[5] == "d";
      assert Lowercase("D") == "d";
    } else if k == 6 {
      assert UpperKey[6] == "DC" && LowerKey[6] == "dc";
      assert Lowercase("DC") == "dc";
    } else if k == 7 {
      assert UpperKey[7] == "DCC" && LowerKey[7] == "dcc";
      assert Lowercase("DCC") == "dcc";
    } else if k == 8 {
      assert UpperKey[8] == "DCCC" && LowerKey[8] == "dccc";
      assert Lowercase("DCCC") == "dccc";
    } else {
      assert UpperKey[9] == "CM" && LowerKey[9] == "cm";
      assert Lowercase("CM") == "cm";
    }
  }

  lemma LowerTens(k: nat)
    requires 10 <= k < 20
    ensures LowerKey[k] == Lowercase(UpperKey[k])
  {
    if k == 10 {
      assert UpperKey[10] == "" && LowerKey[10] == "";
      assert Lowercase("") == "";
    } else if k == 11 {
      assert UpperKey[11] == "X" && LowerKey[11] == "x";
      assert Lowercase("X") == "x";
    } else if k == 12 {
      assert UpperKey[12] == "XX" && LowerKey[12] == "xx";
      assert Lowercase("XX") == "xx";
    } else if k == 13 {
      assert UpperKey[13] == "XXX" && LowerKey[13] == "xxx";
      assert Lowercase("XXX") == "xxx";
    } else if k == 14 {
      assert UpperKey[14] == "XL" && LowerKey[14] == "xl";
      assert Lowercase("XL") == "xl";
    } else if k == 15 {
      assert UpperKey[15] == "L" && LowerKey[15] == "l";
      assert Lowercase("L") == "l";
    } else if k == 16 {
      assert UpperKey[16] == "LX" && LowerKey[16] == "lx";
      assert Lowercase("LX") == "lx";
    } else if k == 17 {
      assert UpperKey[17] == "LXX" && LowerKey[17] == "lxx";
      assert Lowercase("LXX") == "lxx";
    } else if k == 18 {
      assert UpperKey[18] == "LXXX" && LowerKey[18] == "lxxx";
      assert Lowercase("LXXX") == "lxxx";
    } else {
      assert UpperKey[19] == "XC" && LowerKey[19] == "xc";
      assert Lowercase("XC") == "xc";
    }
  }

  lemma LowerUnits(k: nat)
    requires 20 <= k < 30
    ensures LowerKey[k] == Lowercase(UpperKey[k])
  {
    if k == 20 {
      assert UpperKey[20] == "" && LowerKey[20] == "";
      assert Lowercase("") == "";
    } else if k == 21 {
      assert UpperKey[21] == "I" && LowerKey[21] == "i";
      assert Lowercase("I") == "i";
    } else if k == 22 {
      assert UpperKey[22] == "II" && LowerKey[22] == "ii";
      assert Lowercase("II") == "ii";
    } else if k == 23 {
      assert UpperKey[23] == "III" && LowerKey[23] == "iii";
      assert Lowercase("III") == "iii";
    } else if k == 24 {
      assert UpperKey[24] == "IV" && LowerKey[24] == "iv";
      assert Lowercase("IV") == "iv";
    } else if k == 25 {
      assert UpperKey[25] == "V" && LowerKey[25] == "v";
      assert Lowercase("V") == "v";
    } else if k == 26 {
      assert UpperKey[26] == "VI" && LowerKey[26] == "vi";
      assert Lowercase("VI") == "vi";
    } else if k == 27 {
      assert UpperKey[27] == "VII" && LowerKey[27] == "vii";
      assert Lowercase("VII") == "vii";
    } else if k == 28 {
      assert UpperKey[28] == "VIII" && LowerKey[28] == "viii";
      assert Lowercase("VIII") == "viii";
    } else {
      assert UpperKey[29] == "IX" && LowerKey[29] == "ix";
      assert Lowercase("IX") == "ix";
    }
  }

  lemma LowerKeyShape()
    ensures KeyShape(LowerKey)
  {
    assert LowerKey[0] == "" && LowerKey[10] == "" && LowerKey[20] == "";
  }

  /** `lower` holds the pieces of `upper` in lower case. */
  ghost predicate LowerKeyOf(lower: seq<string>, upper: seq<string>)
  {
    |lower| == |upper| == 30 && forall k :: 0 <= k < 30 ==> lower[k] == Lowercase(upper[k])
  }

  lemma LowerKeyOfUpper()
    ensures LowerKeyOf(LowerKey, UpperKey)
  {
    forall k | 0 <= k < 30
      ensures LowerKey[k] == Lowercase(UpperKey[k])
    {
      LowerKeyIsLowercase(k);
    }
  }

  /** The lower-case pieces of a number are the upper-case ones in lower
      case. */
  lemma LowerPieces(m: nat, upper: seq<string>, lower: seq<string>)
    requires LowerKeyOf(lower, upper)
    ensures LowPieces(m, lower) == Lowercase(LowPieces(m, upper))
  {
    var h, t, u := (m / 100) % 10, 10 + (m / 10) % 10, 20 + m % 10;
    LowercaseConcat(upper[h], upper[t]);
    LowercaseConcat(upper[h] + upper[t], upper[u]);
  }

  /** `lowerRomanOfNum` throws exactly when `upperRomanOfNum` does; below
      1000 it writes the same numeral in lower case, and from 1000 up it
      keeps the leading `M`s in upper case (1994 gives `Mcmxciv`). */
  lemma LowerRoman(num: int, u: Try<string>, l: Try<string>)
    requires u == RomanOf(num, UpperKey) && l == RomanOf(num, LowerKey)
    ensures u.Ok? <==> l.Ok?
    ensures u.Ok? && num < 1000 ==> l.value == Lowercase(u.value)
    ensures u.Ok? && num >= 1000 ==>
      (num / 1000 <= |u.value| && l.value == Repeat('M', num / 1000) + Lowercase(u.value[num / 1000..]))
  {
    UpperKeyShape();
    LowerKeyShape();
    LowerKeyOfUpper();
    if num >= 0 {
      LowerRomanNonNegative(num, UpperKey, LowerKey, u, l);
    } else {
      RomanNegative(num, UpperKey);
      RomanNegative(num, LowerKey);
      LowerRomanNegative(num, UpperKey, LowerKey, u, l);
    }
  }

  lemma LowerRomanNonNegative(num: int, upper: seq<string>, lower: seq<string>, u: Try<string>, l: Try<string>)
    requires num >= 0 && KeyShape(upper) && KeyShape(lower) && LowerKeyOf(lower, upper)
    requires u == RomanOf(num, upper) && l == RomanOf(num, lower)
    ensures u.Ok? <==> l.Ok?
    ensures u.Ok? && num < 1000 ==> l.value == Lowercase(u.value)
    ensures u.Ok? && num >= 1000 ==>
      (num / 1000 <= |u.value| && l.value == Repeat('M', num / 1000) + Lowercase(u.value[num / 1000..]))
  {
    RomanNonNegative(num, upper);
    RomanNonNegative(num, lower);
    if u.Ok? {
      LowerClosedForm(num, upper, lower, u.value, l.value);
    }
  }

  /** The two closed forms of a number from 0 up. */
  lemma LowerClosedForm(num: nat, upper: seq<string>, lower: seq<string>, up: string, lo: string)
    requires LowerKeyOf(lower, upper)
    requires up == Repeat('M', num / 1000) + LowPieces(num, upper)
    requires lo == Repeat('M', num / 1000) + LowPieces(num, lower)
    ensures num < 1000 ==> lo == Lowercase(up)
    ensures num / 1000 <= |up| && lo == Repeat('M', num / 1000) + Lowercase(up[num / 1000..])
  {
    LowerPieces(num, upper, lower);
    var ms := Repeat('M', num / 1000);
    var p := LowPieces(num, upper);
    assert up[num / 1000..] == p;
    if num < 1000 {
      assert ms == [];
      assert up == p && lo == Lowercase(p);
    }
  }

  lemma LowerRomanNegative(num: int, upper: seq<string>, lower: seq<string>, u: Try<string>, l: Try<string>)
    requires num < 0 && LowerKeyOf(lower, upper)
    requires u == if -100 < num || -2000 < num <= -1000 then Ok(LowPieces(-num, upper)) else Throws
    requires l == if -100 < num || -2000 < num <= -1000 then Ok(LowPieces(-num, lower)) else Throws
    ensures u.Ok? <==> l.Ok?
    ensures u.Ok? ==> l.value == Lowercase(u.value)
  {
    LowerPieces(-num, upper, lower);
  }

  // ===========================================================================
  // Simplified Chinese numerals

  const ChineseDigits: seq<string> := ["零", "一", "二", "三", "四", "五", "六", "七", "八", "九"]

  const Positions: seq<string> :=
    ["", "十", "百", "千", "万", "十万", "百万", "千万", "亿", "十亿", "百亿", "千亿"]

  /** `digits[parseInt(ch)]` for a character of `String(num)`: the name of
      a digit, undefined for the minus sign. */
  function DigitName(c: char): (r: Option<string>)
    ensures r.Some? <==> IsDigit(c)
  {
    if IsDigit(c) then Some(ChineseDigits[DigitValue(c)]) else None
  }

  /** `positions[k]`: undefined beyond the twelve positions. */
  function PositionName(k: int): (r: Option<string>)
    ensures r.Some? <==> 0 <= k < 12
  {
    if 0 <= k < |Positions| then Some(Positions[k]) else None
  }

  /** A string or undefined, as string concatenation shows it. */
  function Show(v: Option<string>): string
  {
    if v.Some? then v.value else "undefined"
  }

  /** `a + b` for two values that are each a string or undefined: undefined
      plus undefined is the number NaN, which `+=` then appends as "NaN". */
  function Plus(a: Option<string>, b: Option<string>): string
  {
    if a.None? && b.None? then "NaN" else Show(a) + Show(b)
  }

  /** What one round of the loop of `simpleChineseOfNum` appends for
      `cs[i]`, given whether a `0` has been seen. */
  function ChineseItem(cs: string, i: nat, prevIsZero: bool): string
    requires i < |cs|
  {
    var ch := cs[i];
    if ch != '0' && !prevIsZero then Plus(DigitName(ch), PositionName(|cs| - i - 1))
    else if ch == '0' then ""
    else "零" + Show(DigitName(ch)) + Show(PositionName(|cs| - i - 1))
  }

  /** What the rounds from `i` on append. */
  function ChineseFrom(cs: string, i: nat, prevIsZero: bool): string
    requires i <= |cs|
  {
    ChineseScan(cs, i, prevIsZero)
  }

  /** The recursion behind `ChineseFrom`. */
  function ChineseScan(cs: string, i: nat, prevIsZero: bool): string
    requires i <= |cs|
    decreases |cs| - i
  {
    if i == |cs| then ""
    else ChineseItem(cs, i, prevIsZero) + ChineseScan(cs, i + 1, prevIsZero || cs[i] == '0')
  }

  lemma ChineseStep(cs: string, i: nat, prevIsZero: bool)
    requires i < |cs|
    ensures ChineseFrom(cs, i, prevIsZero)
      == ChineseItem(cs, i, prevIsZero) + ChineseFrom(cs, i + 1, prevIsZero || cs[i] == '0')
  {
  }

  /** `simpleChineseOfNum(num)`: the rounds over `String(num)`, then, below
      100, the first `一十` shortened to `十`. */
  function ChineseOf(num: int): string
  {
    var whole := ChineseFrom(DecimalString(num), 0, false);
    if num < 100 then ReplaceFirst(whole, "一十", "十") else whole
  }

  /** `simpleChineseOfNum(num)`. */
  method SimpleChineseOfNum(num: int) returns (result: string)
    ensures result == ChineseOf(num)
  {
    var charArray := DecimalString(num);
    result := ChineseRounds(charArray);
    if num < 100 {
      result := ReplaceFirst(result, "一十", "十");
    }
  }

  /** The loop of `simpleChineseOfNum` over the characters `cs`. */
  method ChineseRounds(cs: string) returns (result: string)
    ensures result == ChineseFrom(cs, 0, false)
  {
    ghost var whole := ChineseFrom(cs, 0, false);
    result := "";
    var prevIsZero := false;
    assert "" + whole == whole;
    for i := 0 to |cs|
      invariant result + ChineseFrom(cs, i, prevIsZero) == whole
    {
      ChineseKeep(cs, i, prevIsZero, result, whole);
      var ch := cs[i];
      if ch != '0' && !prevIsZero {
        result := result + Plus(DigitName(ch), PositionName(|cs| - i - 1));
      } else if ch == '0' {
        assert result + "" == result;
        prevIsZero := true;
      } else if ch != '0' && prevIsZero {
        result := result + ("零" + Show(DigitName(ch)) + Show(PositionName(|cs| - i - 1)));
      }
    }
    assert result + "" == result;
  }

  /** One round keeps the loop invariant of `ChineseRounds`. */
  lemma ChineseKeep(cs: string, i: nat, prevIsZero: bool, result: string, whole: string)
    requires i < |cs| && result + ChineseFrom(cs, i, prevIsZero) == whole
    ensures (result + ChineseItem(cs, i, prevIsZero)) + ChineseFrom(cs, i + 1, prevIsZero || cs[i] == '0') == whole
  {
    ChineseStep(cs, i, prevIsZero);
    var item := ChineseItem(cs, i, prevIsZero);
    var rest := ChineseFrom(cs, i + 1, prevIsZero || cs[i] == '0');
    assert (result + item) + rest == result + (item + rest);
  }

  /** 0 gives the empty string: its one digit only sets `prevIsZero`. */
  lemma ChineseZero()
    ensures ChineseOf(0) == ""
  {
    var cs := DecimalString(0);
    assert cs == "0";
    ChineseStep(cs, 0, false);
    ReplaceFirstTooLong("", "一十", "十");
  }

  /** 1 to 9 give the one digit character. */
  lemma ChineseOneDigit(n: int)
    requires 1 <= n <= 9
    ensures ChineseOf(n) == ChineseDigits[n] && |ChineseOf(n)| == 1
  {
    var cs := DecimalString(n);
    assert cs == [DigitChar(n)];
    ChineseStep(cs, 0, false);
    assert ChineseDigits[n] + "" + "" == ChineseDigits[n];
    assert |ChineseDigits[n]| == 1;
    ReplaceFirstTooLong(ChineseDigits[n], "一十", "十");
  }

  /** 10 to 19 lose their leading `一`: 10 is `十`, 11 is `十一`. */
  lemma ChineseTeens(n: int)
    requires 10 <= n <= 19
    ensures ChineseOf(n) == "十" + (if n == 10 then "" else ChineseDigits[n - 10])
  {
    var cs := DecimalString(n);
    var u := n - 10;
    assert cs == Digits(n / 10) + [DigitChar(n % 10)];
    assert Digits(n / 10) == ['1'];
    assert cs == ['1', DigitChar(u)];
    ChineseStep(cs, 0, false);
    ChineseStep(cs, 1, false);
    var tail := if n == 10 then "" else ChineseDigits[u];
    assert ChineseItem(cs, 0, false) == "一十";
    assert ChineseItem(cs, 1, false) == tail by {
      if u != 0 {
        assert Plus(DigitName(cs[1]), PositionName(0)) == ChineseDigits[u] + "";
      }
    }
    assert ChineseFrom(cs, 2, false) == "";
    ReplaceFirstAtStart("一十" + tail, "一十", "十");
    assert ("一十" + tail)[2..] == tail;
  }

  /** The piece the reading gives the digit at `j`: nothing for a 0, else
      the digit named with its position, with a `零` in front whenever a 0
      stands anywhere to its left. */
  function ZeroMarkedPiece(cs: string, j: nat): string
    requires AllDigits(cs) && |cs| <= 12 && j < |cs|
  {
    if cs[j] == '0' then ""
    else (if '0' in cs[..j] then "零" else "") + ChineseDigits[DigitValue(cs[j])] + Positions[|cs| - 1 - j]
  }

  /** The zero-marked reading of a numeral of at most twelve digits from
      position `j` on. */
  function ZeroMarkedReading(cs: string, j: nat): string
    requires AllDigits(cs) && |cs| <= 12 && j <= |cs|
    decreases |cs| - j
  {
    if j == |cs| then "" else ZeroMarkedPiece(cs, j) + ZeroMarkedReading(cs, j + 1)
  }

  /** One round appends the zero-marked piece when `prevIsZero` says
      whether a 0 has been passed. */
  lemma ChineseItemPiece(cs: string, i: nat, prevIsZero: bool)
    requires AllDigits(cs) && |cs| <= 12 && i < |cs|
    requires prevIsZero == ('0' in cs[..i])
    ensures ChineseItem(cs, i, prevIsZero) == ZeroMarkedPiece(cs, i)
  {
    if cs[i] != '0' {
      var a := ChineseDigits[DigitValue(cs[i])];
      var b := Positions[|cs| - 1 - i];
      assert DigitName(cs[i]) == Some(a);
      assert PositionName(|cs| - i - 1) == Some(b);
      assert "" + a + b == a + b;
    }
  }

  /** `prevIsZero` is exactly "some 0 has been passed", so the rounds give
      the zero-marked reading. */
  lemma {:induction false} ChineseReadsDigits(cs: string, i: nat, prevIsZero: bool)
    requires AllDigits(cs) && |cs| <= 12 && i <= |cs|
    requires prevIsZero == ('0' in cs[..i])
    ensures ChineseFrom(cs, i, prevIsZero) == ZeroMarkedReading(cs, i)
    decreases |cs| - i
  {
    if i < |cs| {
      ChineseStep(cs, i, prevIsZero);
      ChineseItemPiece(cs, i, prevIsZero);
      assert cs[..i + 1] == cs[..i] + [cs[i]];
      ChineseReadsDigits(cs, i + 1, prevIsZero || cs[i] == '0');
    }
  }

  /** From 100 up to twelve digits, `simpleChineseOfNum` gives the
      zero-marked reading of the number's digits. */
  lemma ChineseOfReading(num: int)
    requires 100 <= num < Pow10(12)
    ensures AllDigits(DecimalString(num)) && |DecimalString(num)| <= 12
    ensures ChineseOf(num) == ZeroMarkedReading(DecimalString(num), 0)
  {
    DigitsLength(num, 12);
    ChineseReadsDigits(DecimalString(num), 0, false);
  }
}
