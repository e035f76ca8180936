/** The JavaScript built-ins the converter relies on, on exact integers:
    `parseInt`, `String(n)`, `Number.prototype.toString(16)`, string
    comparison with `<`/`>`, `String.prototype.indexOf` and
    `String.prototype.replace` with a string pattern. */
module Js {

  /** A number as produced by `parseInt` and by integer arithmetic on its
      results: an exact integer or NaN. */
  datatype Num = Int(value: int) | NaN
  {
    /** JavaScript truthiness of a number: 0 and NaN are falsy. */
    predicate Truthy()
    {
      Int? && value != 0
    }
  }

  /** `a - b` on numbers: NaN absorbs. */
  function Sub(a: Num, b: Num): (r: Num)
    ensures r.Int? <==> a.Int? && b.Int?
    ensures r.Int? ==> r.value + b.value == a.value
  {
    if a.Int? && b.Int? then Int(a.value - b.value) else NaN
  }

  // ---------------------------------------------------------------------------
  // Decimal digits and String(n)

  predicate IsDigit(c: char)
  {
    '0' <= c <= '9'
  }

  predicate AllDigits(s: string)
  {
    forall i :: 0 <= i < |s| ==> IsDigit(s[i])
  }

  function DigitChar(d: nat): (c: char)
    requires d < 10
    ensures IsDigit(c)
  {
    ('0' as int + d) as char
  }

  function DigitValue(c: char): (d: nat)
    requires IsDigit(c)
    ensures d < 10 && DigitChar(d) == c
  {
    (c as int - '0' as int) as nat
  }

  /** The decimal digits of a natural number, most significant first. */
  function Digits(n: nat): (s: string)
    ensures |s| >= 1 && AllDigits(s)
    ensures s[0] == '0' ==> n == 0
    ensures n < 10 <==> |s| == 1
  {
    if n < 10 then [DigitChar(n)] else Digits(n / 10) + [DigitChar(n % 10)]
  }

  /** `String(n)` for an integer `n`. */
  function DecimalString(n: int): (s: string)
    ensures |s| >= 1
    ensures n < 0 <==> s[0] == '-'
  {
    if n < 0 then "-" + Digits(-n) else Digits(n)
  }

  /** The value of a string of decimal digits, read left to right. */
  function DigitsValue(s: string): nat
    requires AllDigits(s)
  {
    if s == [] then 0 else DigitsValue(s[..|s| - 1]) * 10 + DigitValue(s[|s| - 1])
  }

  /** Reading back the digits of `n` (given as `s`) gives `n`. */
  lemma {:induction false} DigitsRoundTrip(n: nat, s: string)
    requires s == Digits(n)
    ensures DigitsValue(s) == n
  {
    if n >= 10 {
      var high := Digits(n / 10);
      var low := DigitChar(n % 10);
      assert s == high + [low];
      assert s[..|s| - 1] == high;
      DigitsRoundTrip(n / 10, high);
      assert DigitValue(low) == n % 10;
    }
  }

  /** `String(n)` is one-to-one on integers. */
  lemma DecimalStringInjective(a: int, b: int)
    requires DecimalString(a) == DecimalString(b)
    ensures a == b
  {
    var s := DecimalString(a);
    var ma: nat := if a < 0 then -a else a;
    var mb: nat := if b < 0 then -b else b;
    assert (a < 0) == (b < 0);
    var da, db := Digits(ma), Digits(mb);
    assert da == db by {
      if a < 0 {
        assert s == "-" + da && s == "-" + db;
        assert da == s[1..] == db;
      }
    }
    DigitsRoundTrip(ma, da);
    DigitsRoundTrip(mb, db);
    assert ma == DigitsValue(da) == DigitsValue(db) == mb;
  }

  // ---------------------------------------------------------------------------
  // parseInt

  /** The code points ECMAScript counts as WhiteSpace or LineTerminator: what
      `parseInt` skips and what `\s` matches in a regular expression. */
  predicate IsWhiteSpace(c: char)
  {
    c == '\t' || c == '\n' || c == '\U{000B}' || c == '\U{000C}' || c == '\r'
    || c == ' ' || c == '\U{00A0}' || c == '\U{1680}' || ('\U{2000}' <= c <= '\U{200A}')
    || c == '\U{2028}' || c == '\U{2029}' || c == '\U{202F}' || c == '\U{205F}'
    || c == '\U{3000}' || c == '\U{FEFF}'
  }

  function TrimStart(s: string): (t: string)
    ensures |t| <= |s| && t == s[|s| - |t|..]
    ensures t == [] || !IsWhiteSpace(t[0])
  {
    if s != [] && IsWhiteSpace(s[0]) then TrimStart(s[1..]) else s
  }

  /** The value of a digit character in radix up to 36 (36 when it is none). */
  function RadixDigit(c: char): (d: nat)
    ensures d <= 36
  {
    if '0' <= c <= '9' then c as int - '0' as int
    else if 'a' <= c <= 'z' then c as int - 'a' as int + 10
    else if 'A' <= c <= 'Z' then c as int - 'A' as int + 10
    else 36
  }

  /** The length of the longest prefix of `s` made of digits of `radix`. */
  function DigitRun(s: string, radix: nat): (k: nat)
    ensures k <= |s|
    ensures forall i :: 0 <= i < k ==> RadixDigit(s[i]) < radix
    ensures k < |s| ==> RadixDigit(s[k]) >= radix
  {
    if s != [] && RadixDigit(s[0]) < radix then 1 + DigitRun(s[1..], radix) else 0
  }

  function RadixValue(s: string, radix: nat): nat
  {
    if s == [] then 0 else RadixValue(s[..|s| - 1], radix) * radix + RadixDigit(s[|s| - 1])
  }

  /** `parseInt(s)` when `radixTen` is false, `parseInt(s, 10)` when it is
      true: leading white space and one sign are skipped, a `0x`/`0X` prefix
      switches to radix 16 only without an explicit radix, and the longest
      run of digits that follows is read; no digit gives NaN. */
  function ParseIntRadix(s: string, radixTen: bool): Num
  {
    var t := TrimStart(s);
    if t != [] && t[0] == '-' then Negate(ParseUnsigned(t[1..], radixTen))
    else if t != [] && t[0] == '+' then ParseUnsigned(t[1..], radixTen)
    else ParseUnsigned(t, radixTen)
  }

  function Negate(x: Num): Num
  {
    if x.Int? then Int(-x.value) else NaN
  }

  /** What `parseInt` reads after the sign. */
  function ParseUnsigned(u: string, radixTen: bool): Num
  {
    if !radixTen && |u| >= 2 && u[0] == '0' && (u[1] == 'x' || u[1] == 'X') then
      LeadingDigits(u[2..], 16)
    else
      LeadingDigits(u, 10)
  }

  function LeadingDigits(w: string, radix: nat): Num
  {
    var k := DigitRun(w, radix);
    if k == 0 then NaN else Int(RadixValue(w[..k], radix))
  }

  /** `parseInt(s)`. */
  function ParseInt(s: string): Num
  {
    ParseIntRadix(s, false)
  }

  /** `parseInt(s, 10)`. */
  function ParseInt10(s: string): Num
  {
    ParseIntRadix(s, true)
  }

  lemma RadixValueOfDigits(s: string)
    requires AllDigits(s)
    ensures RadixValue(s, 10) == DigitsValue(s)
  {
    if s != [] {
      RadixValueOfDigits(s[..|s| - 1]);
    }
  }

  lemma {:induction false} DigitRunOfDigits(s: string, rest: string)
    requires AllDigits(s)
    requires rest == [] || !IsDigit(rest[0])
    ensures DigitRun(s + rest, 10) == |s|
  {
    if s != [] {
      assert (s + rest)[1..] == s[1..] + rest;
      DigitRunOfDigits(s[1..], rest);
    } else {
      assert s + rest == rest;
    }
  }

  /** `parseInt` reads back what `String` wrote, and stops at the first
      character that is not a digit: `parseInt(String(n) + "px") == n`
      (without a radix, `String(0)` followed by `x` would read as hex). */
  lemma {:induction false} ParseIntOfDecimal(n: int, rest: string, radixTen: bool)
    requires rest == [] || !IsDigit(rest[0])
    requires !radixTen ==> rest == [] || (rest[0] != 'x' && rest[0] != 'X')
    ensures ParseIntRadix(DecimalString(n) + rest, radixTen) == Int(n)
  {
    if n < 0 {
      ParseNegativeDecimal(-n, rest, radixTen);
    } else {
      ParseUnsignedDecimal(n, rest, radixTen);
      ParseDigitFirst(Digits(n) + rest, radixTen, n);
    }
  }

  lemma ParseNegativeDecimal(m: nat, rest: string, radixTen: bool)
    requires m > 0
    requires rest == [] || !IsDigit(rest[0])
    requires !radixTen ==> rest == [] || (rest[0] != 'x' && rest[0] != 'X')
    ensures ParseIntRadix(DecimalString(0 - m) + rest, radixTen) == Int(0 - m)
  {
    var u := Digits(m) + rest;
    ParseUnsignedDecimal(m, rest, radixTen);
    assert DecimalString(0 - m) + rest == "-" + u;
    ParseSigned(u, radixTen, m);
  }

  lemma ParseSigned(u: string, radixTen: bool, m: nat)
    requires u != [] && IsDigit(u[0])
    requires ParseUnsigned(u, radixTen) == Int(m)
    ensures ParseIntRadix("-" + u, radixTen) == Int(0 - m)
  {
    var s := "-" + u;
    assert TrimStart(s) == s;
    assert s[1..] == u;
  }

  lemma ParseDigitFirst(u: string, radixTen: bool, m: nat)
    requires u != [] && IsDigit(u[0])
    requires ParseUnsigned(u, radixTen) == Int(m)
    ensures ParseIntRadix(u, radixTen) == Int(m)
  {
    assert TrimStart(u) == u;
  }

  lemma ParseUnsignedDecimal(m: nat, rest: string, radixTen: bool)
    requires rest == [] || !IsDigit(rest[0])
    requires !radixTen ==> rest == [] || (rest[0] != 'x' && rest[0] != 'X')
    ensures ParseUnsigned(Digits(m) + rest, radixTen) == Int(m)
  {
    var d := Digits(m);
    var u := d + rest;
    assert ParseUnsigned(u, radixTen) == LeadingDigits(u, 10) by {
      if !radixTen && |u| >= 2 && u[0] == '0' {
        assert |d| == 1;
        assert u[1] == rest[0];
      }
    }
    UnsignedDigits(d, rest);
    DigitsRoundTrip(m, d);
  }

  lemma UnsignedDigits(d: string, rest: string)
    requires AllDigits(d) && d != []
    requires rest == [] || !IsDigit(rest[0])
    ensures DigitRun(d + rest, 10) == |d|
    ensures (d + rest)[..|d|] == d
    ensures RadixValue(d, 10) == DigitsValue(d)
  {
    DigitRunOfDigits(d, rest);
    RadixValueOfDigits(d);
  }

  // ---------------------------------------------------------------------------
  // Number.prototype.toString(16)

  function HexChar(d: nat): (c: char)
    requires d < 16
  {
    "0123456789abcdef"[d]
  }

  /** `n.toString(16)` for a natural number: lower-case hexadecimal digits. */
  function HexDigits(n: nat): (s: string)
    ensures |s| >= 1
    ensures s[|s| - 1] == HexChar(n % 16)
    ensures n < 16 <==> |s| == 1
  {
    if n < 16 then [HexChar(n)] else HexDigits(n / 16) + [HexChar(n % 16)]
  }

  // ---------------------------------------------------------------------------
  // String comparison, indexOf and replace

  /** `a < b` on strings: the first differing character decides, and a
      proper prefix is smaller. */
  predicate StrLess(a: string, b: string)
  {
    if b == [] then false
    else if a == [] then true
    else if a[0] != b[0] then a[0] < b[0]
    else StrLess(a[1..], b[1..])
  }

  lemma {:induction false} StrLessIrreflexive(a: string)
    ensures !StrLess(a, a)
  {
    if a != [] {
      StrLessIrreflexive(a[1..]);
    }
  }

  lemma {:induction false} StrLessTotal(a: string, b: string)
    ensures StrLess(a, b) || a == b || StrLess(b, a)
  {
    if a != [] && b != [] && a[0] == b[0] {
      StrLessTotal(a[1..], b[1..]);
      if a[1..] == b[1..] {
        assert a == [a[0]] + a[1..] && b == [b[0]] + b[1..];
      }
    }
  }

  predicate StartsWith(s: string, p: string)
  {
    |p| <= |s| && s[..|p|] == p
  }

  predicate OccursAt(s: string, p: string, k: int)
  {
    0 <= k && k + |p| <= |s| && s[k..k + |p|] == p
  }

  /** The search behind `indexOf`: the first position at or after `from`
      where `p` occurs, or -1. */
  function SearchFrom(s: string, p: string, from: nat): (r: int)
    requires from <= |s|
    ensures r == -1 || (from <= r && r + |p| <= |s|)
    decreases |s| - from
  {
    if from + |p| > |s| then -1
    else if s[from..from + |p|] == p then from
    else SearchFrom(s, p, from + 1)
  }

  /** `s.indexOf(p, from)` for a start inside the string. */
  function IndexOf(s: string, p: string, from: nat): (r: int)
    requires from <= |s|
    ensures r == -1 || (from <= r && r + |p| <= |s|)
  {
    SearchFrom(s, p, from)
  }

  /** Where `indexOf` finds something, the pattern occurs. */
  lemma {:induction false} IndexOfFound(s: string, p: string, from: nat)
    requires from <= |s|
    ensures IndexOf(s, p, from) != -1 ==> OccursAt(s, p, IndexOf(s, p, from))
    decreases |s| - from
  {
    if from + |p| <= |s| && s[from..from + |p|] != p {
      IndexOfFound(s, p, from + 1);
    }
  }

  /** `indexOf` finds the first occurrence at or after `from`: there is
      none before the index it returns, and none at all when it returns -1. */
  lemma {:induction false} IndexOfFirst(s: string, p: string, from: nat)
    requires from <= |s|
    ensures forall k :: from <= k && (IndexOf(s, p, from) == -1 || k < IndexOf(s, p, from)) ==> !OccursAt(s, p, k)
    decreases |s| - from
  {
    if from + |p| <= |s| && s[from..from + |p|] != p {
      IndexOfFirst(s, p, from + 1);
    }
  }

  /** `s.replace(p, q)` with a string pattern: only the first occurrence is
      replaced.  The replacement is taken literally; the one replacement the
      converter uses contains no `$`. */
  function ReplaceFirst(s: string, p: string, q: string): (r: string)
  {
    var k := IndexOf(s, p, 0);
    if k == -1 then s else s[..k] + q + s[k + |p|..]
  }

  /** A pattern at the very start is the one `replace` replaces. */
  lemma ReplaceFirstAtStart(s: string, p: string, q: string)
    requires StartsWith(s, p)
    ensures ReplaceFirst(s, p, q) == q + s[|p|..]
  {
    assert s[0..|p|] == p;
  }

  /** A pattern longer than the string is not found. */
  lemma ReplaceFirstTooLong(s: string, p: string, q: string)
    requires |p| > |s|
    ensures ReplaceFirst(s, p, q) == s
  {
  }

  /** `parseInt` of a one-character string: the digit's value, or NaN for
      anything else (a sign or white space alone leaves no digit). */
  lemma ParseIntOfChar(c: char)
    ensures ParseInt([c]) == if IsDigit(c) then Int(DigitValue(c)) else NaN
  {
    if IsDigit(c) {
      ParseIntOfDigit(c);
    } else if IsWhiteSpace(c) {
      assert TrimStart([c]) == TrimStart([]);
      assert LeadingDigits([], 10) == NaN;
    } else {
      assert TrimStart([c]) == [c];
      NoLeadingDigit(c);
    }
  }

  lemma ParseIntOfDigit(c: char)
    requires IsDigit(c)
    ensures ParseInt([c]) == Int(DigitValue(c))
  {
    assert !IsWhiteSpace(c);
    assert TrimStart([c]) == [c];
    assert ParseUnsigned([c], false) == LeadingDigits([c], 10);
    assert DigitRun([c], 10) == 1 + DigitRun([], 10);
    assert [c][..1] == [c];
    assert RadixValue([c], 10) == RadixValue([], 10) * 10 + RadixDigit(c);
  }

  lemma NoLeadingDigit(c: char)
    requires !IsDigit(c)
    ensures ParseUnsigned([], false) == NaN
    ensures ParseUnsigned([c], false) == NaN
  {
    assert LeadingDigits([], 10) == NaN;
    assert DigitRun([c], 10) == 0;
  }

  function Pow10(k: nat): (p: nat)
    ensures p >= 1
  {
    if k == 0 then 1 else 10 * Pow10(k - 1)
  }

  /** A number below `10^k` has at most `k` digits. */
  lemma {:induction false} DigitsLength(n: nat, k: nat)
    requires 1 <= k && n < Pow10(k)
    ensures |Digits(n)| <= k
  {
    if n >= 10 {
      assert k >= 2;
      DigitsLength(n / 10, k - 1);
    }
  }
}
