/**
 * The month-count input check of the purchase conversation:
 * `Number(text.trim())`, then "an integer between 1 and 12".
 *
 * JavaScript's `Number()` is modelled on decimal strings only: an optional
 * sign, digits and an optional fractional part. The empty string is 0, as in
 * JavaScript; every other form (exponents, hexadecimal, `Infinity`) is NaN here.
 */
module NumberInput {
  import opened Wrappers

  /** The characters `String.prototype.trim` strips: white space and line terminators. */
  predicate IsJsWhitespace(c: char) {
    ('\t' <= c <= '\r') || c == ' ' || c == '\U{00A0}' || c == '\U{1680}'
    || ('\U{2000}' <= c <= '\U{200A}') || c == '\U{2028}' || c == '\U{2029}'
    || c == '\U{202F}' || c == '\U{205F}' || c == '\U{3000}' || c == '\U{FEFF}'
  }

  function TrimStart(s: string): string
    decreases |s|
  {
    if s != [] && IsJsWhitespace(s[0]) then TrimStart(s[1..]) else s
  }

  function TrimEnd(s: string): string
    decreases |s|
  {
    if s != [] && IsJsWhitespace(s[|s| - 1]) then TrimEnd(s[..|s| - 1]) else s
  }

  /** `text.trim()`. */
  function Trim(s: string): string {
    TrimEnd(TrimStart(s))
  }

  /** `trimStart` leaves a suffix of its input that does not start with white space. */
  lemma {:induction false} TrimStartShape(s: string)
    ensures var r := TrimStart(s);
      |r| <= |s| && r == s[|s| - |r|..] && (r == [] || !IsJsWhitespace(r[0]))
    decreases |s|
  {
    if s != [] && IsJsWhitespace(s[0]) {
      TrimStartShape(s[1..]);
      var r := TrimStart(s[1..]);
      assert s[1..][|s[1..]| - |r|..] == s[|s| - |r|..];
    }
  }

  /** `trimEnd` leaves a prefix of its input that does not end with white space. */
  lemma {:induction false} TrimEndShape(s: string)
    ensures var r := TrimEnd(s);
      |r| <= |s| && r == s[..|r|] && (r == [] || !IsJsWhitespace(r[|r| - 1]))
    decreases |s|
  {
    if s != [] && IsJsWhitespace(s[|s| - 1]) {
      TrimEndShape(s[..|s| - 1]);
    }
  }

  /** `trim` leaves no white space at either end. */
  lemma TrimShape(s: string)
    ensures var r := Trim(s);
      r == [] || (!IsJsWhitespace(r[0]) && !IsJsWhitespace(r[|r| - 1]))
  {
    var m := TrimStart(s);
    TrimStartShape(s);
    TrimEndShape(m);
    var r := TrimEnd(m);
    if r != [] {
      assert r[0] == m[0];
    }
  }

  /** A string with no white space at either end is left as it is by `trim`. */
  lemma TrimUnchanged(s: string)
    requires s == [] || (!IsJsWhitespace(s[0]) && !IsJsWhitespace(s[|s| - 1]))
    ensures Trim(s) == s
  {
  }

  predicate IsDigit(c: char) {
    '0' <= c <= '9'
  }

  predicate AllDigits(s: string) {
    forall i :: 0 <= i < |s| ==> IsDigit(s[i])
  }

  predicate AllZeros(s: string) {
    forall i :: 0 <= i < |s| ==> s[i] == '0'
  }

  /** The value of a string of decimal digits. */
  function DigitsValue(s: string): nat
    requires AllDigits(s)
    decreases |s|
  {
    if s == [] then 0 else DigitsValue(s[..|s| - 1]) * 10 + (s[|s| - 1] - '0') as int
  }

  /** Position of the first `c` in `s`, or `|s|` when there is none. */
  function IndexOf(s: string, c: char): (r: nat)
    ensures r <= |s|
    ensures r < |s| ==> s[r] == c
    ensures forall i :: 0 <= i < r ==> s[i] != c
    decreases |s|
  {
    if s == [] then 0 else if s[0] == c then 0 else 1 + IndexOf(s[1..], c)
  }

  /**
   * The result of `Number()`: NaN, or a finite value given by its integer
   * part (truncated toward zero, sign included) and whether a non-zero
   * fraction follows it.
   */
  datatype JsNumber = NaN | Finite(whole: int, fractional: bool)

  /** `Number.isInteger`. */
  predicate IsInteger(n: JsNumber) {
    n.Finite? && !n.fractional
  }

  function Negate(n: JsNumber): JsNumber {
    match n
    case NaN => NaN
    case Finite(w, f) => Finite(-w, f)
  }

  /** An unsigned decimal: `digits`, `digits.`, `digits.digits` or `.digits`. */
  function UnsignedDecimal(t: string): JsNumber {
    var p := IndexOf(t, '.');
    var intPart, fracPart := t[..p], if p < |t| then t[p + 1..] else [];
    if p == |t| && intPart == [] then NaN
    else if p < |t| && intPart == [] && fracPart == [] then NaN
    else if !AllDigits(intPart) || !AllDigits(fracPart) then NaN
    else Finite(DigitsValue(intPart), !AllZeros(fracPart))
  }

  /** `Number` on a string already free of surrounding white space. */
  function TrimmedToNumber(t: string): JsNumber {
    if t == [] then Finite(0, false)
    else if t[0] == '-' then Negate(UnsignedDecimal(t[1..]))
    else if t[0] == '+' then UnsignedDecimal(t[1..])
    else UnsignedDecimal(t)
  }

  /** `Number(s)` on the decimal forms. */
  function ToNumber(s: string): JsNumber {
    TrimmedToNumber(Trim(s))
  }

  /**
   * The month count typed by the user: accepted when `Number(text.trim())`
   * is an integer between 1 and 12, rejected (None) otherwise.
   */
  function ParseMonths(text: string): (r: Option<int>)
    ensures r.Some? ==> 1 <= r.value <= 12
  {
    var n := ToNumber(Trim(text));
    if !IsInteger(n) || n.whole < 1 || n.whole > 12 then None else Some(n.whole)
  }

  function DigitChar(d: nat): (c: char)
    requires d < 10
    ensures IsDigit(c) && (c - '0') as int == d
  {
    ('0' as int + d) as char
  }

  /** The decimal digits of `n`, no leading zeros: `${n}` for a non-negative integer. */
  function NatToDecimal(n: nat): (s: string)
    ensures |s| >= 1 && AllDigits(s)
    decreases n
  {
    if n < 10 then [DigitChar(n)] else NatToDecimal(n / 10) + [DigitChar(n % 10)]
  }

  /** `${n}` for an integer. */
  function IntToDecimal(n: int): (s: string)
    ensures |s| >= 1
    ensures forall i :: 0 <= i < |s| ==> IsDigit(s[i]) || (i == 0 && s[i] == '-')
  {
    if n < 0 then "-" + NatToDecimal(-n) else NatToDecimal(n)
  }

  lemma {:induction false} DigitsRoundTrip(n: nat)
    ensures DigitsValue(NatToDecimal(n)) == n
    decreases n
  {
    var s := NatToDecimal(n);
    if n >= 10 {
      DigitsRoundTrip(n / 10);
      assert s[..|s| - 1] == NatToDecimal(n / 10);
    }
  }

  lemma {:induction false} NoPointInDigits(s: string)
    requires AllDigits(s)
    ensures IndexOf(s, '.') == |s|
    decreases |s|
  {
    if s != [] {
      assert IsDigit(s[0]);
      NoPointInDigits(s[1..]);
    }
  }

  /** A non-empty digit string reads as the integer it spells. */
  lemma UnsignedDigits(s: string)
    requires |s| >= 1 && AllDigits(s)
    ensures UnsignedDecimal(s) == Finite(DigitsValue(s), false)
  {
    NoPointInDigits(s);
    assert s[..|s|] == s;
  }

  /** `Number` reads a string without surrounding white space as it stands. */
  lemma ToNumberOfTrimmed(t: string)
    requires t != [] && !IsJsWhitespace(t[0]) && !IsJsWhitespace(t[|t| - 1])
    ensures ToNumber(t) == TrimmedToNumber(t)
  {
    TrimUnchanged(t);
  }

  /** `Number("-" + digits)`, once white space is out of the way. */
  lemma NegativeTrimmed(s: string)
    requires |s| >= 1 && AllDigits(s)
    ensures TrimmedToNumber("-" + s) == Finite(0 - DigitsValue(s), false)
  {
    var neg := "-" + s;
    assert neg[0] == '-' && neg[1..] == s;
    UnsignedDigits(s);
  }

  /** The decimal form of an integer, without its white space handling, reads as that integer. */
  lemma TrimmedRoundTrip(n: int)
    ensures TrimmedToNumber(IntToDecimal(n)) == Finite(n, false)
  {
    var magnitude: nat := if n < 0 then -n else n;
    var digits := NatToDecimal(magnitude);
    DigitsRoundTrip(magnitude);
    if n < 0 {
      NegativeTrimmed(digits);
    } else {
      assert IsDigit(digits[0]);
      UnsignedDigits(digits);
    }
  }

  /** The decimal form of an integer has no white space at either end. */
  lemma DecimalUnpadded(n: int)
    ensures var s := IntToDecimal(n); !IsJsWhitespace(s[0]) && !IsJsWhitespace(s[|s| - 1])
  {
    var s := IntToDecimal(n);
    var first, last := s[0], s[|s| - 1];
    assert IsDigit(first) || first == '-';
    assert IsDigit(last) || last == '-';
  }

  /** Reading back what `${n}` prints gives `n`, as an integer. */
  lemma DecimalRoundTrip(n: int)
    ensures ToNumber(IntToDecimal(n)) == Finite(n, false)
  {
    DecimalUnpadded(n);
    ToNumberOfTrimmed(IntToDecimal(n));
    TrimmedRoundTrip(n);
  }

  /** A month count is accepted exactly when it lies in 1..12, and is then stored as typed. */
  lemma MonthsAcceptedExactlyInRange(n: int)
    ensures ParseMonths(IntToDecimal(n)) == if 1 <= n <= 12 then Some(n) else None
  {
    var s := IntToDecimal(n);
    assert ToNumber(Trim(s)) == Finite(n, false) by {
      DecimalUnpadded(n);
      TrimUnchanged(s);
      DecimalRoundTrip(n);
    }
  }

  /** A month count written without surrounding white space reads the same as it does padded. */
  lemma PaddingIgnored(text: string, t: string)
    requires Trim(text) == t && t != [] && !IsJsWhitespace(t[0]) && !IsJsWhitespace(t[|t| - 1])
    ensures ParseMonths(text) == ParseMonths(t)
  {
    TrimUnchanged(t);
  }

  /** The sample input "7" of the purchase conversation is accepted as 7. */
  lemma AcceptedSample()
    ensures ParseMonths("7") == Some(7)
  {
    assert IntToDecimal(7) == "7" by {
      assert DigitChar(7) == '7';
    }
    MonthsAcceptedExactlyInRange(7);
  }

  predicate AllWhitespace(s: string) {
    forall i :: 0 <= i < |s| ==> IsJsWhitespace(s[i])
  }

  /** `trimStart` drops exactly a leading run of white space. */
  lemma {:induction false} TrimStartSkips(pad: string, s: string)
    requires AllWhitespace(pad) && s != [] && !IsJsWhitespace(s[0])
    ensures TrimStart(pad + s) == s
    decreases |pad|
  {
    if pad != [] {
      assert (pad + s)[0] == pad[0];
      assert (pad + s)[1..] == pad[1..] + s;
      TrimStartSkips(pad[1..], s);
    } else {
      assert pad + s == s;
    }
  }

  /** `trimEnd` drops exactly a trailing run of white space. */
  lemma {:induction false} TrimEndSkips(s: string, pad: string)
    requires AllWhitespace(pad) && s != [] && !IsJsWhitespace(s[|s| - 1])
    ensures TrimEnd(s + pad) == s
    decreases |pad|
  {
    if pad != [] {
      var init := pad[..|pad| - 1];
      assert (s + pad)[|s + pad| - 1] == pad[|pad| - 1];
      assert (s + pad)[..|s + pad| - 1] == s + init;
      TrimEndSkips(s, init);
    } else {
      assert s + pad == s;
    }
  }

  /**
   * A month count typed with any white space around it is read as if it
   * were typed bare: accepted, with its own value, exactly when it lies in 1..12.
   */
  lemma PaddedMonthsAccepted(n: int, before: string, after: string)
    requires AllWhitespace(before) && AllWhitespace(after)
    ensures ParseMonths(before + IntToDecimal(n) + after) == if 1 <= n <= 12 then Some(n) else None
  {
    var s := IntToDecimal(n);
    var text := before + s + after;
    DecimalUnpadded(n);
    assert Trim(text) == s by {
      assert text == before + (s + after);
      TrimStartSkips(before, s + after);
      TrimEndSkips(s, after);
    }
    assert ParseMonths(text) == ParseMonths(s) by {
      PaddingIgnored(text, s);
    }
    MonthsAcceptedExactlyInRange(n);
  }

  /** The sample input "0" of the purchase conversation is out of range. */
  lemma ZeroSampleRejected()
    ensures ParseMonths("0") == None
  {
    assert IntToDecimal(0) == "0" by {
      assert DigitChar(0) == '0';
    }
    MonthsAcceptedExactlyInRange(0);
  }

  /** The sample input "13" of the purchase conversation is out of range. */
  lemma ThirteenSampleRejected()
    ensures ParseMonths("13") == None
  {
    assert IntToDecimal(13) == "13" by {
      assert DigitChar(1) == '1' && DigitChar(3) == '3';
      assert NatToDecimal(13) == NatToDecimal(1) + [DigitChar(3)];
    }
    MonthsAcceptedExactlyInRange(13);
  }

  /** A string without surrounding white space that does not read as an integer is rejected. */
  lemma NonIntegerRejected(t: string)
    requires t != [] && !IsJsWhitespace(t[0]) && !IsJsWhitespace(t[|t| - 1])
    requires !IsInteger(TrimmedToNumber(t))
    ensures ParseMonths(t) == None
  {
    TrimUnchanged(t);
  }

  /** The sample input "7.5" of the purchase conversation is not an integer. */
  lemma FractionSampleRejected()
    ensures ParseMonths("7.5") == None
  {
    var half := "7.5";
    assert IndexOf(half, '.') == 1;
    var intPart, fracPart := half[..1], half[2..];
    assert intPart == "7" && fracPart == "5";
    assert fracPart[0] != '0';
    assert AllDigits(intPart) && AllDigits(fracPart) && !AllZeros(fracPart);
    assert DigitsValue(intPart) == 7 by { assert intPart[..0] == []; }
    assert TrimmedToNumber(half) == Finite(7, true);
    NonIntegerRejected(half);
  }

  /** The sample input "abc" of the purchase conversation is not a number. */
  lemma LettersSampleRejected()
    ensures ParseMonths("abc") == None
  {
    var abc := "abc";
    assert !IsDigit(abc[0]);
    assert TrimmedToNumber(abc) == NaN;
    NonIntegerRejected(abc);
  }
}
