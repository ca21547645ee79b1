/**
 * The JavaScript values that reach the handlers through JSON bodies and query
 * strings, with the conversions the source applies to them: truthiness,
 * `String(v)` and `Number(v)`.
 */
module Js {
  import opened Options
  import opened Strings

  /**
   * A JavaScript number as the handlers tell them apart: NaN, an integer
   * (of magnitude below 10^21, where `String` writes plain decimal digits),
   * or any other number (a fraction, an infinity, a huge integer) together
   * with the text `String` gives it.
   */
  datatype Num = NaN | Int(i: int) | NonInteger(text: string)

  /**
   * A JavaScript value. `Composite` is an object or array: always truthy,
   * carried with the text `String` gives it and the number `Number` gives it.
   */
  datatype Value =
    | Undefined
    | Null
    | Bool(b: bool)
    | Number(n: Num)
    | Str(s: string)
    | Composite(text: string, asNumber: Num)

  /** The properties of a plain object. */
  type Fields = map<string, Value>

  /** `obj[key]`: a missing property reads as `undefined`. */
  function Get(f: Fields, key: string): Value {
    if key in f then f[key] else Undefined
  }

  /** Setting one field leaves every other field as it was. */
  lemma GetOtherField(f: Fields, k: string, v: Value, key: string)
    requires key != k
    ensures Get(f[k := v], key) == Get(f, key)
  {
  }

  predicate Truthy(v: Value) {
    match v
    case Undefined => false
    case Null => false
    case Bool(b) => b
    case Number(n) => n != NaN && n != Int(0)
    case Str(s) => s != ""
    case Composite(_, _) => true
  }

  /** `String(n)` */
  function NumToStr(n: Num): string {
    match n
    case NaN => "NaN"
    case Int(i) => IntToString(i)
    case NonInteger(text) => text
  }

  /** `String(v)` */
  function ToStr(v: Value): string {
    match v
    case Undefined => "undefined"
    case Null => "null"
    case Bool(b) => if b then "true" else "false"
    case Number(n) => NumToStr(n)
    case Str(s) => s
    case Composite(text, _) => text
  }

  /** `String(v || '')`: every falsy value becomes the empty string. */
  function StringOrEmpty(v: Value): (r: string)
    ensures !Truthy(v) ==> r == ""
    ensures v.Str? ==> r == v.s
  {
    if Truthy(v) then ToStr(v) else ""
  }

  // ---------------------------------------------------------------- Number(s)

  /** The position of the first character of `s` that satisfies `p`, or `|s|` when none does. */
  function FirstWhere(s: string, p: char -> bool): (r: nat)
    ensures r <= |s| && (r < |s| ==> p(s[r]))
    ensures forall i :: 0 <= i < r ==> !p(s[i])
  {
    if s == [] || p(s[0]) then 0 else 1 + FirstWhere(s[1..], p)
  }

  predicate IsExponentMark(c: char) { c == 'e' || c == 'E' }

  predicate IsPoint(c: char) { c == '.' }

  /** The value of `c` as a digit in `base` (2, 8 or 16): `0-9`, then `a-f` in either case. */
  function RadixDigit(c: char, base: nat): Option<nat> {
    var d: int :=
      if IsDigit(c) then DigitValue(c)
      else if 'a' <= c <= 'f' then c as int - 'a' as int + 10
      else if 'A' <= c <= 'F' then c as int - 'A' as int + 10
      else base;
    if d < base then Some(d) else None
  }

  /** The value of a run of digits in `base`, the last digit the least significant; `None` when one is not a digit. */
  function RadixValue(s: string, base: nat): Option<nat> {
    if s == [] then Some(0)
    else match RadixDigit(s[|s| - 1], base)
      case None => None
      case Some(d) =>
        match RadixValue(s[..|s| - 1], base)
        case None => None
        case Some(v) => Some(v * base + d)
  }

  /** `0x`, `0o` or `0b` literal digits: at least one, all in the base. */
  function RadixNumber(digits: string, base: nat): Num {
    if digits == [] then NaN
    else match RadixValue(digits, base)
      case None => NaN
      case Some(v) => Int(v)
  }

  /** The exponent of a decimal literal: an optional sign and at least one digit. */
  function SignedDigits(s: string): Option<int> {
    if s != [] && (s[0] == '+' || s[0] == '-') && s[1..] != [] && AllDigits(s[1..]) then
      Some(if s[0] == '-' then -(DigitsValue(s[1..]) as int) else DigitsValue(s[1..]))
    else if s != [] && AllDigits(s) then Some(DigitsValue(s))
    else None
  }

  /** A decimal literal's value as `m * 10^e`: `m` the digits with the point taken out. */
  datatype Scaled = Scaled(m: nat, e: int)

  /**
   * `StrUnsignedDecimalLiteral` without `Infinity`: digits, an optional point
   * and more digits (at least one digit in all), then an optional exponent.
   */
  function UnsignedDecimal(u: string): Option<Scaled> {
    var k := FirstWhere(u, IsExponentMark);
    var exponent := if k == |u| then Some(0) else SignedDigits(u[k + 1..]);
    match exponent
    case None => None
    case Some(e) => MantissaValue(u[..k], e)
  }

  /** The digits before and after the point (if any) of a mantissa, scaled by `10^e`. */
  function MantissaValue(mantissa: string, e: int): Option<Scaled> {
    var p := FirstWhere(mantissa, IsPoint);
    var whole := mantissa[..p];
    var fraction := if p < |mantissa| then mantissa[p + 1..] else [];
    if !AllDigits(whole) || !AllDigits(fraction) || whole + fraction == [] then None
    else Some(Scaled(DigitsValue(whole + fraction), e - |fraction|))
  }

  function Pow10(n: nat): (r: nat)
    ensures r > 0
  {
    if n == 0 then 1 else 10 * Pow10(n - 1)
  }

  /** The number `sign * m * 10^e`: an integer when it is one; otherwise a non-integer carrying `literal`. */
  function ScaledNumber(sign: int, d: Scaled, literal: string): Num {
    if d.e >= 0 then Int(sign * (d.m * Pow10(d.e)))
    else if d.m % Pow10(-d.e) == 0 then Int(sign * (d.m / Pow10(-d.e)))
    else NonInteger(literal)
  }

  /**
   * `Number(s)` for a string (`StringNumericLiteral`): surrounding white space
   * is ignored and the empty string is 0; `0x`, `0o` and `0b` literals read in
   * their base; otherwise an optional sign and `Infinity` or a decimal
   * literal with point and exponent. Anything else is NaN. A value that is
   * not an integer carries its trimmed literal as its text.
   */
  function StringToNumber(s: string): (r: Num)
    ensures Trim(s) == [] ==> r == Int(0)
    ensures r.NonInteger? ==> r.text != []
  {
    LiteralNumber(Trim(s))
  }

  /** `Number` of text with no white space around it. */
  function LiteralNumber(t: string): (r: Num)
    ensures t == [] ==> r == Int(0)
    ensures r.NonInteger? ==> r.text != []
  {
    if t == [] then Int(0)
    else if |t| >= 2 && t[0] == '0' && (t[1] == 'x' || t[1] == 'X') then RadixNumber(t[2..], 16)
    else if |t| >= 2 && t[0] == '0' && (t[1] == 'o' || t[1] == 'O') then RadixNumber(t[2..], 8)
    else if |t| >= 2 && t[0] == '0' && (t[1] == 'b' || t[1] == 'B') then RadixNumber(t[2..], 2)
    else SignedNumber(t)
  }

  /** An optional sign, then `Infinity` or a decimal literal. */
  function SignedNumber(t: string): (r: Num)
    requires t != []
    ensures r.NonInteger? ==> r.text != []
  {
    var sign := if t[0] == '-' then -1 else 1;
    var u := if t[0] == '-' || t[0] == '+' then t[1..] else t;
    if u == "Infinity" then NonInteger(if sign < 0 then "-Infinity" else "Infinity")
    else match UnsignedDecimal(u)
      case None => NaN
      case Some(d) => ScaledNumber(sign, d, t)
  }

  /** `Number(String(i)) === i`: the decimal text of an integer reads back as that integer. */
  lemma StringToNumberOfIntToString(i: int)
    ensures StringToNumber(IntToString(i)) == Int(i)
  {
    StringToNumberOfIntTail(i, "");
    assert IntToString(i) + "" == IntToString(i);
  }

  /** `Number(String(i) + '.0') === i`: a zero fraction leaves the integer as it is. */
  lemma StringToNumberOfPointZero(i: int)
    ensures StringToNumber(IntToString(i) + ".0") == Int(i)
  {
    StringToNumberOfIntTail(i, ".0");
  }

  /** The decimal text of `i` followed by `""` or `".0"` reads as `i`. */
  lemma StringToNumberOfIntTail(i: int, tail: string)
    requires tail == "" || tail == ".0"
    ensures StringToNumber(IntToString(i) + tail) == Int(i)
  {
    var n: nat := if i < 0 then -i else i;
    var d := NatToString(n);
    var u := d + tail;
    assert IntToString(i) + tail == (if i < 0 then "-" else "") + u;
    DigitsThenTail(n, tail);
    UnsignedDecimalOfDigits(d, tail);
    StringToNumberOfDecimal(i < 0, u);
    DigitsValueOfNatToString(n);
    var t := IntToString(i) + tail;
    var sign := if i < 0 then -1 else 1;
    assert sign * n == i;
    if tail != "" {
      DigitsValueOfZeroAppended(d);
      ScaledWhole(sign, n, t);
    } else {
      ScaledWhole(sign, n, t);
    }
  }

  lemma DigitsValueOfZeroAppended(d: string)
    requires AllDigits(d)
    ensures AllDigits(d + "0") && DigitsValue(d + "0") == DigitsValue(d) * 10
  {
    var z := d + "0";
    assert z[..|z| - 1] == d && z[|z| - 1] == '0';
  }

  /** `n` and `n0 * 10^-1` are the same integer. */
  lemma ScaledWhole(sign: int, n: nat, literal: string)
    ensures ScaledNumber(sign, Scaled(n, 0), literal) == Int(sign * n)
    ensures ScaledNumber(sign, Scaled(n * 10, -1), literal) == Int(sign * n)
  {
    assert Pow10(0) == 1;
    assert Pow10(1) == 10;
    assert (n * 10) % 10 == 0 && (n * 10) / 10 == n;
  }

  /** The decimal text of `n` followed by `""` or `".0"` starts with a digit, ends with no space and is no radix literal. */
  lemma DigitsThenTail(n: nat, tail: string)
    requires tail == "" || tail == ".0"
    ensures var u := NatToString(n) + tail;
      && u != [] && IsDigit(u[0]) && !IsJsSpace(u[|u| - 1])
      && !(|u| >= 2 && u[0] == '0' && IsRadixMark(u[1]))
  {
    var d := NatToString(n);
    var u := d + tail;
    assert u[0] == d[0] && IsDigit(d[0]);
    assert u[|u| - 1] == if tail == "" then d[|d| - 1] else '0';
    assert IsDigit(d[|d| - 1]);
    VisibleIsNotSpace(u[|u| - 1]);
    if |u| >= 2 && u[0] == '0' {
      assert n == 0 && |d| == 1 && u[1] == '.';
    }
  }

  /** An optionally negated decimal literal that starts with a digit reads as its scaled value. */
  lemma StringToNumberOfDecimal(neg: bool, u: string)
    requires u != [] && IsDigit(u[0]) && !IsJsSpace(u[|u| - 1])
    requires !(|u| >= 2 && u[0] == '0' && IsRadixMark(u[1]))
    requires UnsignedDecimal(u).Some?
    ensures var t := (if neg then "-" else "") + u;
      StringToNumber(t) == ScaledNumber(if neg then -1 else 1, UnsignedDecimal(u).value, t)
  {
    var t := (if neg then "-" else "") + u;
    TrimOfDecimal(neg, u);
    assert LiteralNumber(t) == SignedNumber(t) by {
      NotRadixLiteral(neg, u);
    }
    assert SignedNumber(t) == ScaledNumber(if neg then -1 else 1, UnsignedDecimal(u).value, t) by {
      SignedDecimal(neg, u);
    }
  }

  lemma TrimOfDecimal(neg: bool, u: string)
    requires u != [] && IsDigit(u[0]) && !IsJsSpace(u[|u| - 1])
    ensures var t := (if neg then "-" else "") + u;
      Trim(t) == t
  {
    var t := (if neg then "-" else "") + u;
    assert t[|t| - 1] == u[|u| - 1];
    assert t[0] == (if neg then '-' else u[0]);
    VisibleIsNotSpace(t[0]);
  }

  lemma NotRadixLiteral(neg: bool, u: string)
    requires u != [] && IsDigit(u[0])
    requires !(|u| >= 2 && u[0] == '0' && IsRadixMark(u[1]))
    ensures var t := (if neg then "-" else "") + u;
      LiteralNumber(t) == SignedNumber(t)
  {
    var t := (if neg then "-" else "") + u;
    if neg {
      assert t[0] == '-';
    } else {
      assert t == u;
    }
  }

  lemma SignedDecimal(neg: bool, u: string)
    requires u != [] && IsDigit(u[0])
    requires UnsignedDecimal(u).Some?
    ensures var t := (if neg then "-" else "") + u;
      SignedNumber(t) == ScaledNumber(if neg then -1 else 1, UnsignedDecimal(u).value, t)
  {
    var t := (if neg then "-" else "") + u;
    assert u != "Infinity" by {
      assert "Infinity"[0] == 'I';
    }
    if neg {
      assert t[0] == '-' && t[1..] == u;
    } else {
      assert t == u;
    }
  }

  /** Text whose first and last characters are printable ASCII other than the space is left alone by `trim`. */
  lemma TrimOfVisible(t: string)
    requires t != [] && '!' <= t[0] <= '~' && '!' <= t[|t| - 1] <= '~'
    ensures Trim(t) == t
  {
    VisibleIsNotSpace(t[0]);
    VisibleIsNotSpace(t[|t| - 1]);
  }

  /** The digits of a decimal literal, with or without a point, hold no exponent mark. */
  lemma NoExponentMark(whole: string, fraction: string)
    requires AllDigits(whole) && AllDigits(fraction)
    ensures forall i :: 0 <= i < |whole| ==> !IsExponentMark(whole[i]) && !IsPoint(whole[i])
    ensures var mantissa := whole + "." + fraction;
      forall i :: 0 <= i < |mantissa| ==> !IsExponentMark(mantissa[i])
  {
    var mantissa := whole + "." + fraction;
    assert forall i :: 0 <= i < |mantissa| ==> IsDigit(mantissa[i]) || mantissa[i] == '.' by {
      assert forall i :: 0 <= i < |mantissa| ==>
        mantissa[i] == if i < |whole| then whole[i] else if i == |whole| then '.' else fraction[i - |whole| - 1];
    }
  }

  /** `whole.fraction` is split at its point. */
  lemma PointSplit(whole: string, fraction: string)
    requires AllDigits(whole)
    ensures var mantissa := whole + "." + fraction;
      && FirstWhere(mantissa, IsPoint) == |whole|
      && mantissa[..|whole|] == whole && mantissa[|whole| + 1..] == fraction
  {
    var mantissa := whole + "." + fraction;
    assert forall i :: 0 <= i < |whole| ==> mantissa[i] == whole[i] && !IsPoint(whole[i]);
    assert IsPoint(mantissa[|whole|]);
  }

  /** A mantissa without an exponent mark, then `e` and the exponent, is split at that `e`. */
  lemma ExponentSplit(mantissa: string, exponent: string)
    requires forall i :: 0 <= i < |mantissa| ==> !IsExponentMark(mantissa[i])
    ensures var u := mantissa + "e" + exponent;
      && FirstWhere(u, IsExponentMark) == |mantissa|
      && u[..|mantissa|] == mantissa && u[|mantissa| + 1..] == exponent
  {
    var u := mantissa + "e" + exponent;
    assert forall i :: 0 <= i < |mantissa| ==> u[i] == mantissa[i];
    assert IsExponentMark(u[|mantissa|]);
  }

  /** A mantissa, `e` and an exponent: the mantissa's digits scaled by that exponent. */
  lemma UnsignedDecimalWithExponent(mantissa: string, exponent: string)
    requires forall i :: 0 <= i < |mantissa| ==> !IsExponentMark(mantissa[i])
    requires SignedDigits(exponent).Some?
    ensures UnsignedDecimal(mantissa + "e" + exponent) == MantissaValue(mantissa, SignedDigits(exponent).value)
  {
    ExponentSplit(mantissa, exponent);
  }

  /** `whole.fraction` is the digits of both, scaled down by the length of the fraction. */
  lemma MantissaWithPoint(whole: string, fraction: string, e: int)
    requires AllDigits(whole) && AllDigits(fraction) && whole + fraction != []
    ensures MantissaValue(whole + "." + fraction, e) == Some(Scaled(DigitsValue(whole + fraction), e - |fraction|))
  {
    PointSplit(whole, fraction);
  }

  /** Digits without a point are their own value. */
  lemma MantissaWithoutPoint(whole: string, e: int)
    requires whole != [] && AllDigits(whole)
    ensures MantissaValue(whole, e) == Some(Scaled(DigitsValue(whole), e))
  {
    NoExponentMark(whole, "");
    assert FirstWhere(whole, IsPoint) == |whole|;
    var fraction: string := [];
    assert whole[..|whole|] == whole && whole + fraction == whole && AllDigits(fraction);
  }

  /** The exponent text of an integer reads back as that integer. */
  lemma SignedDigitsOfIntToString(i: int)
    ensures SignedDigits(IntToString(i)) == Some(i)
  {
    var n: nat := if i < 0 then -i else i;
    var d := NatToString(n);
    DigitsValueOfNatToString(n);
    if i < 0 {
      assert IntToString(i)[1..] == d;
    }
  }

  /**
   * `Number` of digits, a point, more digits and an exponent: the value
   * `m * 10^(e - |fraction|)`, an integer whenever it is a whole number.
   */
  lemma StringToNumberOfExponent(whole: string, fraction: string, e: int)
    requires AllDigits(whole) && AllDigits(fraction) && whole + fraction != []
    ensures var t := whole + "." + fraction + "e" + IntToString(e);
      StringToNumber(t) == ScaledNumber(1, Scaled(DigitsValue(whole + fraction), e - |fraction|), t)
  {
    var t := whole + "." + fraction + "e" + IntToString(e);
    SignedDigitsOfIntToString(e);
    NoExponentMark(whole, fraction);
    UnsignedDecimalWithExponent(whole + "." + fraction, IntToString(e));
    MantissaWithPoint(whole, fraction, e);
    StringToNumberOfUnsigned(t);
  }

  /** `Number` of a point, digits and an exponent, without digits before the point. */
  lemma StringToNumberOfFractionExponent(fraction: string, e: int)
    requires fraction != [] && AllDigits(fraction)
    ensures var t := "." + fraction + "e" + IntToString(e);
      StringToNumber(t) == ScaledNumber(1, Scaled(DigitsValue(fraction), e - |fraction|), t)
  {
    StringToNumberOfExponent("", fraction, e);
    EmptyWholePart(fraction, IntToString(e));
  }

  lemma EmptyWholePart(fraction: string, exponent: string)
    ensures "" + fraction == fraction
    ensures "" + "." + fraction + "e" + exponent == "." + fraction + "e" + exponent
  {
    assert "" + "." == ".";
  }

  /** `Number` of digits and an exponent, without a point: the value `m * 10^e`. */
  lemma StringToNumberOfWholeExponent(whole: string, e: int)
    requires whole != [] && AllDigits(whole)
    ensures var t := whole + "e" + IntToString(e);
      StringToNumber(t) == ScaledNumber(1, Scaled(DigitsValue(whole), e), t)
  {
    var t := whole + "e" + IntToString(e);
    SignedDigitsOfIntToString(e);
    NoExponentMark(whole, "");
    UnsignedDecimalWithExponent(whole, IntToString(e));
    MantissaWithoutPoint(whole, e);
    StringToNumberOfUnsigned(t);
  }

  /** An unsigned decimal literal that starts with a digit or a point and ends with a digit reads as its scaled value. */
  lemma StringToNumberOfUnsigned(t: string)
    requires UnsignedDecimal(t).Some?
    requires t != [] && (IsDigit(t[0]) || t[0] == '.') && IsDigit(t[|t| - 1])
    requires !(|t| >= 2 && t[0] == '0' && IsRadixMark(t[1]))
    ensures StringToNumber(t) == ScaledNumber(1, UnsignedDecimal(t).value, t)
  {
    TrimOfVisible(t);
    assert LiteralNumber(t) == SignedNumber(t);
    assert t != "Infinity" by {
      assert "Infinity"[0] == 'I';
    }
  }

  /** `Number` of `0x`, `0o` or `0b` and digits of that base is their value. */
  lemma StringToNumberOfRadix(mark: char, digits: string, base: nat)
    requires (base == 16 && (mark == 'x' || mark == 'X')) || (base == 8 && (mark == 'o' || mark == 'O'))
      || (base == 2 && (mark == 'b' || mark == 'B'))
    requires digits != [] && RadixValue(digits, base).Some? && '!' <= digits[|digits| - 1] <= '~'
    ensures StringToNumber(['0', mark] + digits) == Int(RadixValue(digits, base).value)
  {
    var t := ['0', mark] + digits;
    assert t[|t| - 1] == digits[|digits| - 1];
    TrimOfVisible(t);
    assert t[2..] == digits;
  }

  predicate IsRadixMark(c: char) {
    c == 'x' || c == 'X' || c == 'o' || c == 'O' || c == 'b' || c == 'B'
  }

  /** Digits followed by nothing or by `.0` are a decimal literal of those digits and that fraction. */
  lemma UnsignedDecimalOfDigits(d: string, tail: string)
    requires d != [] && AllDigits(d)
    requires tail == "" || tail == ".0"
    ensures UnsignedDecimal(d + tail) ==
      if tail == "" then Some(Scaled(DigitsValue(d), 0)) else Some(Scaled(DigitsValue(d + "0"), -1))
  {
    var u := d + tail;
    assert forall i :: 0 <= i < |u| ==> !IsExponentMark(u[i]) by {
      assert forall i :: 0 <= i < |u| ==> u[i] == if i < |d| then d[i] else tail[i - |d|];
    }
    assert FirstWhere(u, IsExponentMark) == |u|;
    assert u[..|u|] == u;
    var p := FirstWhere(u, IsPoint);
    assert p == |d| by {
      assert forall i :: 0 <= i < |d| ==> u[i] == d[i];
      if tail != "" {
        assert u[|d|] == '.';
      }
    }
    assert u[..p] == d;
    if tail != "" {
      assert u[p + 1..] == "0";
    } else {
      assert d + [] == d;
    }
  }

  /** `Number(v)`: a falsy value is NaN or 0, and blank text is 0. */
  function ToNumber(v: Value): (r: Num)
    ensures !Truthy(v) ==> r == NaN || r == Int(0)
    ensures v.Str? && Trim(v.s) == [] ==> r == Int(0)
    ensures v.Str? && r.NonInteger? ==> r.text != []
  {
    match v
    case Undefined => NaN
    case Null => Int(0)
    case Bool(b) => Int(if b then 1 else 0)
    case Number(n) => n
    case Str(s) =>
      assert s == [] ==> Trim(s) == [];
      StringToNumber(s)
    case Composite(_, n) => n
  }
}
