/** String primitives of the JavaScript runtime that the nodes rely on:
    the white-space class shared by the regular-expression escape `\s` and
    `String.prototype.trim`, ASCII case mapping, substring search and the
    decimal rendering of integers. */
module Text {

  /** JavaScript WhiteSpace and LineTerminator code points: exactly the set
      matched by `\s` and removed by `trim()`. */
  predicate IsSpace(c: char) {
    || c == '\t' || c == '\n' || c == '\U{B}' || c == '\U{C}' || c == '\r'
    || c == ' ' || c == '\U{A0}' || c == '\U{1680}'
    || ('\U{2000}' <= c <= '\U{200A}')
    || c == '\U{2028}' || c == '\U{2029}' || c == '\U{202F}' || c == '\U{205F}'
    || c == '\U{3000}' || c == '\U{FEFF}'
  }

  predicate IsUpperAscii(c: char) { 'A' <= c <= 'Z' }

  predicate IsLowerAscii(c: char) { 'a' <= c <= 'z' }

  predicate IsDigit(c: char) { '0' <= c <= '9' }

  function LowerChar(c: char): (r: char)
    ensures !IsUpperAscii(r)
    ensures !IsUpperAscii(c) ==> r == c
    ensures IsUpperAscii(c) ==> IsLowerAscii(r)
  {
    if IsUpperAscii(c) then (c as int + 32) as char else c
  }

  /** `toLowerCase()` restricted to the ASCII letters. */
  function Lower(s: string): string {
    seq(|s|, i requires 0 <= i < |s| => LowerChar(s[i]))
  }

  predicate NoUpper(s: string) {
    forall i :: 0 <= i < |s| ==> !IsUpperAscii(s[i])
  }

  /** Case-insensitive ASCII equality, the comparison a regular expression
      with the `i` flag performs on these characters. */
  predicate EqualsIgnoreCase(a: string, b: string) {
    |a| == |b| && forall i :: 0 <= i < |a| ==> LowerChar(a[i]) == LowerChar(b[i])
  }

  function TrimStart(s: string): (r: string)
    ensures |r| <= |s| && r == s[|s| - |r|..]
    ensures |r| == 0 || !IsSpace(r[0])
    ensures forall i :: 0 <= i < |s| - |r| ==> IsSpace(s[i])
  {
    if |s| > 0 && IsSpace(s[0]) then TrimStart(s[1..]) else s
  }

  function TrimEnd(s: string): (r: string)
    ensures |r| <= |s| && r == s[..|r|]
    ensures |r| == 0 || !IsSpace(r[|r| - 1])
    ensures forall i :: |r| <= i < |s| ==> IsSpace(s[i])
  {
    if |s| > 0 && IsSpace(s[|s| - 1]) then TrimEnd(s[..|s| - 1]) else s
  }

  predicate IsTrimmed(s: string) {
    |s| == 0 || (!IsSpace(s[0]) && !IsSpace(s[|s| - 1]))
  }

  /** `String.prototype.trim`. */
  function Trim(s: string): (r: string)
    ensures IsTrimmed(r)
    ensures IsTrimmed(s) ==> r == s
    ensures |r| <= |s|
  {
    TrimEnd(TrimStart(s))
  }

  /** Does `t` occur in `s` starting at `i`? */
  predicate OccursAt(s: string, t: string, i: int) {
    0 <= i && i + |t| <= |s| && s[i..i + |t|] == t
  }

  /** Scans the positions from `i` on for an occurrence of `t`. */
  function ContainsFrom(s: string, t: string, i: nat): (r: bool)
    ensures r <==> exists j :: i <= j && OccursAt(s, t, j)
    decreases |s| - i
  {
    if i + |t| > |s| then
      assert forall j :: i <= j ==> !OccursAt(s, t, j);
      false
    else if s[i..i + |t|] == t then
      assert OccursAt(s, t, i);
      true
    else
      var rest := ContainsFrom(s, t, i + 1);
      assert forall j :: i <= j ==> (OccursAt(s, t, j) <==> (j != i && i + 1 <= j && OccursAt(s, t, j)));
      rest
  }

  /** `s.indexOf(t) >= 0`. */
  function Contains(s: string, t: string): (r: bool)
    ensures r <==> exists i :: OccursAt(s, t, i)
  {
    ContainsFrom(s, t, 0)
  }

  function DigitChar(d: nat): (c: char)
    requires d < 10
    ensures IsDigit(c)
  {
    ('0' as int + d) as char
  }

  /** Decimal rendering of a natural number, as `String(n)` prints it. */
  function NatToString(n: nat): (r: string)
    ensures |r| >= 1
    ensures forall i :: 0 <= i < |r| ==> IsDigit(r[i])
  {
    if n < 10 then [DigitChar(n)] else NatToString(n / 10) + [DigitChar(n % 10)]
  }

  function IntToString(n: int): (r: string)
    ensures |r| >= 1
  {
    if n < 0 then "-" + NatToString(-n) else NatToString(n)
  }

  /** Decimal value of a digit string. */
  function DigitsValue(s: string): nat
    requires forall i :: 0 <= i < |s| ==> IsDigit(s[i])
  {
    if |s| == 0 then 0
    else
      assert IsDigit(s[|s| - 1]);
      DigitsValue(s[..|s| - 1]) * 10 + (s[|s| - 1] as int - '0' as int)
  }

  /** Reading the decimal rendering back gives the number. */
  lemma {:induction false} NatToStringValue(n: nat)
    ensures DigitsValue(NatToString(n)) == n
  {
    if n >= 10 {
      var s := NatToString(n);
      assert s[..|s| - 1] == NatToString(n / 10);
      NatToStringValue(n / 10);
    }
  }

  predicate IsCanonicalDigits(s: string) {
    |s| > 0 && (forall i :: 0 <= i < |s| ==> IsDigit(s[i])) && (s[0] != '0' || |s| == 1)
  }

  /** A digit string without a superfluous leading zero is exactly the
      rendering of some number; every other string renders no number. */
  lemma CanonicalDigitsIffRendering(s: string)
    ensures IsCanonicalDigits(s) ==> NatToString(DigitsValue(s)) == s
    ensures !IsCanonicalDigits(s) ==> forall n: nat :: NatToString(n) != s
  {
    if IsCanonicalDigits(s) {
      NatToStringCanonical(s);
    } else {
      forall n: nat ensures NatToString(n) != s {
        NatToStringShape(n);
      }
    }
  }

  lemma {:induction false} NatToStringShape(n: nat)
    ensures n == 0 ==> NatToString(n) == "0"
    ensures n != 0 ==> NatToString(n)[0] != '0'
  {
    if n >= 10 {
      NatToStringShape(n / 10);
      assert NatToString(n)[0] == NatToString(n / 10)[0];
    }
  }

  lemma {:induction false} NatToStringCanonical(s: string)
    requires |s| > 0 && (forall i :: 0 <= i < |s| ==> IsDigit(s[i])) && (s[0] != '0' || |s| == 1)
    ensures NatToString(DigitsValue(s)) == s
    decreases |s|
  {
    var last := s[|s| - 1] as int - '0' as int;
    var pre := s[..|s| - 1];
    if |s| == 1 {
      assert DigitsValue(s) == DigitsValue(pre) * 10 + last;
      assert pre == "";
    } else {
      assert pre[0] == s[0];
      NatToStringCanonical(pre);
      DigitsPositive(pre);
      var n := DigitsValue(s);
      assert n == DigitsValue(pre) * 10 + last;
      assert n / 10 == DigitsValue(pre) && n % 10 == last;
      assert [DigitChar(last)] == [s[|s| - 1]];
      assert s == pre + [s[|s| - 1]];
    }
  }

  lemma {:induction false} DigitsPositive(s: string)
    requires |s| > 0 && (forall i :: 0 <= i < |s| ==> IsDigit(s[i])) && s[0] != '0'
    ensures DigitsValue(s) >= 1
    decreases |s|
  {
    if |s| > 1 {
      assert s[..|s| - 1][0] == s[0];
      DigitsPositive(s[..|s| - 1]);
    }
  }

  // ---------------------------------------------------------------
  // Reading numbers from text
  // ---------------------------------------------------------------

  /** The length of the run of digits `s` starts with. */
  function LeadingDigits(s: string): (k: nat)
    ensures k <= |s|
    ensures forall i :: 0 <= i < k ==> IsDigit(s[i])
    ensures k == |s| || !IsDigit(s[k])
  {
    if |s| > 0 && IsDigit(s[0]) then 1 + LeadingDigits(s[1..]) else 0
  }

  predicate AllDigits(s: string) {
    forall i :: 0 <= i < |s| ==> IsDigit(s[i])
  }

  /** Unsigned decimal text without an exponent: digits, optionally a point
      and further digits, with at least one digit in all. */
  predicate IsDecimalText(b: string) {
    var k := LeadingDigits(b);
    || (k == |b| && k > 0)
    || (k < |b| && b[k] == '.' && AllDigits(b[k + 1..]) && (k > 0 || k + 1 < |b|))
  }

  /** An integer or one of the two infinities. */
  datatype ExtendedInt = Finite(n: int) | PlusInfinity | MinusInfinity

  /** `ToIntegerOrInfinity(Number(s))`: surrounding white space is ignored,
      empty text is 0, signed decimal text is truncated toward zero and
      `Infinity` may carry a sign. Any other text is NaN, which becomes 0.
      Hexadecimal, binary, octal and exponent forms are read as NaN too. */
  function TextToInteger(s: string): ExtendedInt
  {
    var t := Trim(s);
    var signed := |t| > 0 && (t[0] == '+' || t[0] == '-');
    var negative := signed && t[0] == '-';
    var body := if signed then t[1..] else t;
    if body == "Infinity" then (if negative then MinusInfinity else PlusInfinity)
    else if t != "" && IsDecimalText(body) then
      var k := LeadingDigits(body);
      var m: int := DigitsValue(body[..k]);
      Finite(if negative then -m else m)
    else Finite(0)
  }

  /** A non-empty digit string reads as its decimal value. */
  lemma DigitTextReads(body: string)
    requires |body| > 0 && AllDigits(body)
    ensures IsDecimalText(body) && body != "Infinity"
    ensures LeadingDigits(body) == |body| && body[..LeadingDigits(body)] == body
  {
    assert body != "Infinity" by { assert IsDigit(body[0]); }
  }

  /** The rendering of an integer is trimmed text. */
  lemma IntegerTextTrimmed(n: int)
    ensures Trim(IntToString(n)) == IntToString(n)
  {
    var s := IntToString(n);
    var digits := NatToString(if n < 0 then -n else n);
    assert s == (if n < 0 then "-" else "") + digits;
    assert IsDigit(digits[0]) && IsDigit(digits[|digits| - 1]);
    assert s[|s| - 1] == digits[|digits| - 1];
    assert s[0] == '-' || s[0] == digits[0];
    assert IsTrimmed(s);
  }

  /** Trimmed unsigned digits read as their value. */
  lemma UnsignedDigitsRead(digits: string)
    requires |digits| > 0 && AllDigits(digits) && Trim(digits) == digits
    ensures TextToInteger(digits) == Finite(DigitsValue(digits))
  {
    assert digits[0] != '+' && digits[0] != '-' by { assert IsDigit(digits[0]); }
    DigitTextReads(digits);
  }

  /** Trimmed digits after a minus sign read as the negated value. */
  lemma NegativeDigitsRead(digits: string)
    requires |digits| > 0 && AllDigits(digits) && Trim("-" + digits) == "-" + digits
    ensures TextToInteger("-" + digits) == Finite(-(DigitsValue(digits) as int))
  {
    var t := "-" + digits;
    assert t[0] == '-' && t[1..] == digits;
    DigitTextReads(digits);
  }

  /** Reading back the decimal rendering of an integer gives the integer. */
  lemma IntegerTextRoundTrip(n: int)
    ensures TextToInteger(IntToString(n)) == Finite(n)
  {
    var digits := NatToString(if n < 0 then -n else n);
    IntegerTextTrimmed(n);
    NatToStringValue(if n < 0 then -n else n);
    if n < 0 {
      assert IntToString(n) == "-" + digits;
      NegativeDigitsRead(digits);
    } else {
      assert IntToString(n) == digits;
      UnsignedDigitsRead(digits);
    }
  }
}
