/**
 * The two display helpers of assets/app.js: `safeInt`, which reads a count
 * back from the text of the page, and `formatTime`, which writes a playback
 * position as a clock.
 */
module Display {
  import opened Options
  import opened Strings

  // ---------------------------------------------------------------- safeInt

  /** The sign `parseInt` accepts in front of the digits, and what follows it. */
  function SignAndRest(t: string): (r: (int, string))
    ensures r.0 == 1 || r.0 == -1
    ensures |r.1| <= |t|
  {
    if t != [] && t[0] == '-' then (-1, t[1..])
    else if t != [] && t[0] == '+' then (1, t[1..])
    else (1, t)
  }

  /**
   * `safeInt(s)`: `parseInt` of the trimmed text in base 10, that is an
   * optional sign and the digits that follow it, up to the first character
   * that is not one; 0 when there are no such digits.
   */
  function SafeInt(s: string): (n: int)
    ensures n < 0 ==> Trim(s) != [] && Trim(s)[0] == '-'
    ensures n != 0 ==> var t := Trim(s);
      t != [] && (IsDigit(t[0]) || (|t| > 1 && (t[0] == '-' || t[0] == '+') && IsDigit(t[1])))
  {
    var (sign, rest) := SignAndRest(Trim(s));
    sign * DigitsValue(LeadingDigits(rest))
  }

  /** Text with no digit after its optional sign reads as 0. */
  lemma SafeIntWithoutDigits(s: string)
    requires var rest := SignAndRest(Trim(s)).1; rest == [] || !IsDigit(rest[0])
    ensures SafeInt(s) == 0
  {
  }

  function Abs(n: int): nat {
    if n < 0 then -n else n
  }

  /** Decimal text followed by a tail that starts with no digit and ends with no space needs no trimming. */
  lemma DecimalThenTailIsTrimmed(n: int, tail: string)
    requires tail == [] || (!IsDigit(tail[0]) && !IsJsSpace(tail[|tail| - 1]))
    ensures Trim(IntToString(n) + tail) == IntToString(n) + tail
  {
    var t := IntToString(n);
    var digits := NatToString(Abs(n));
    var s := t + tail;
    assert t[|t| - 1] == digits[|digits| - 1];
    assert IsDigit(digits[|digits| - 1]) && IsDigit(digits[0]);
    assert s[0] == t[0] && (t[0] == '-' || t[0] == digits[0]);
    assert s[|s| - 1] == if tail == [] then t[|t| - 1] else tail[|tail| - 1];
    VisibleIsNotSpace(s[0]);
    assert !IsJsSpace(s[|s| - 1]) by {
      if tail == [] {
        VisibleIsNotSpace(s[|s| - 1]);
      }
    }
  }

  /** The sign `parseInt` reads in front of the decimal text of `n`, and the digits after it. */
  lemma SignOfIntToString(n: int, tail: string)
    ensures SignAndRest(IntToString(n) + tail) == (if n < 0 then -1 else 1, NatToString(Abs(n)) + tail)
  {
    var digits := NatToString(Abs(n));
    if n < 0 {
      assert IntToString(n) + tail == "-" + (digits + tail);
    } else {
      assert IsDigit(digits[0]);
    }
  }

  /**
   * What `String(n)` writes reads back as `n`, and so does that text followed
   * by anything that does not start with a digit (nor ends with white space).
   */
  lemma SafeIntOfIntToString(n: int, tail: string)
    requires tail == [] || (!IsDigit(tail[0]) && !IsJsSpace(tail[|tail| - 1]))
    ensures SafeInt(IntToString(n) + tail) == n
  {
    var s := IntToString(n) + tail;
    var digits := NatToString(Abs(n));
    assert Trim(s) == s by {
      DecimalThenTailIsTrimmed(n, tail);
    }
    assert SignAndRest(s) == (if n < 0 then -1 else 1, digits + tail) by {
      SignOfIntToString(n, tail);
    }
    assert LeadingDigits(digits + tail) == digits by {
      LeadingDigitsOfDigitsThen(digits, tail);
    }
    assert DigitsValue(digits) == Abs(n) by {
      DigitsValueOfNatToString(Abs(n));
    }
  }

  // ---------------------------------------------------------------- formatTime

  /**
   * A playback position in seconds as `formatTime` sees it: not a finite
   * number, or a finite one given by its floor. A finite number is negative
   * exactly when its floor is.
   */
  datatype Seconds = NonFinite | Finite(whole: int)

  const NoTime := "--:--"

  /** `String(n).padStart(2, '0')` */
  function Pad2(n: nat): (r: string)
    ensures n < 100 ==> |r| == 2
    ensures AllDigits(r) && DigitsValue(r) == n
  {
    DigitsValueOfNatToString(n);
    var d := NatToString(n);
    if |d| < 2 then
      assert d == [DigitChar(n)] by {
        assert n < 10;
      }
      assert ("0" + d)[..1] == "0";
      "0" + d
    else
      assert n < 100 ==> |NatToString(n / 10)| == 1;
      d
  }

  /** The clock text for whole hours, minutes and seconds: `H:MM:SS`, or `M:SS` when there is no hour. */
  function Clock(h: nat, m: nat, sec: nat): (r: string)
    ensures r != [] && IsDigit(r[0])
  {
    var first := if h > 0 then NatToString(h) else NatToString(m);
    var r := if h > 0 then first + ":" + Pad2(m) + ":" + Pad2(sec) else first + ":" + Pad2(sec);
    assert r[0] == first[0];
    r
  }

  /**
   * `formatTime(seconds)`: `--:--` for a position that is not finite or is
   * negative, otherwise the clock of its hours, minutes and seconds.
   */
  function FormatTime(t: Seconds): (r: string)
    ensures r == NoTime <==> t.NonFinite? || t.whole < 0
  {
    if t.NonFinite? || t.whole < 0 then NoTime
    else
      var s := t.whole;
      var r := Clock(s / 3600, (s % 3600) / 60, s % 60);
      assert !IsDigit(NoTime[0]);
      r
  }

  /**
   * Reads a clock written as `H:MM:SS` (with at least one hour) or as `M:SS`
   * (with fewer than sixty minutes), every field of two digits below 60
   * except the first: the number of seconds it shows.
   */
  function ParseClock(text: string): Option<nat> {
    match IndexOfChar(text, ':')
    case None => None
    case Some(i) => ParseClockFields(text[..i], text[i + 1..])
  }

  /** The clock fields after the first one, which is `first`. */
  function ParseClockFields(first: string, rest: string): Option<nat> {
    if first == [] || !AllDigits(first) then None
    else match IndexOfChar(rest, ':')
      case None => MinutesClock(first, rest)
      case Some(j) => HoursClock(first, rest[..j], rest[j + 1..])
  }

  /** `M:SS`: fewer than sixty minutes. */
  function MinutesClock(mm: string, ss: string): Option<nat>
    requires AllDigits(mm)
  {
    if IsClockField(ss) && DigitsValue(mm) < 60
    then Some(DigitsValue(mm) * 60 + DigitsValue(ss))
    else None
  }

  /** `H:MM:SS`: at least one hour. */
  function HoursClock(hh: string, mm: string, ss: string): Option<nat>
    requires AllDigits(hh)
  {
    if DigitsValue(hh) > 0 && IsClockField(mm) && IsClockField(ss)
    then Some(DigitsValue(hh) * 3600 + DigitsValue(mm) * 60 + DigitsValue(ss))
    else None
  }

  /** Two digits that make a number below 60. */
  predicate IsClockField(f: string) {
    |f| == 2 && AllDigits(f) && DigitsValue(f) < 60
  }

  lemma NoColonInDigits(d: string)
    requires AllDigits(d)
    ensures ':' !in d
  {
  }

  /** The first colon of `d + ":" + rest`, for digits `d`, is the one after them. */
  lemma ColonAfterDigits(d: string, rest: string)
    requires AllDigits(d)
    ensures IndexOfChar(d + ":" + rest, ':') == Some(|d|)
    ensures (d + ":" + rest)[..|d|] == d && (d + ":" + rest)[|d| + 1..] == rest
  {
    var s := d + ":" + rest;
    NoColonInDigits(d);
    assert s[..|d|] == d;
    IndexOfCharAt(s, ':', |d|);
  }

  /** The hours, minutes and seconds `formatTime` computes make up the position. */
  lemma ClockParts(n: nat)
    ensures var h, m, sec := n / 3600, (n % 3600) / 60, n % 60;
      m < 60 && sec < 60 && n == h * 3600 + m * 60 + sec
  {
    var h, r := n / 3600, n % 3600;
    var m, r2 := r / 60, r % 60;
    assert n == 3600 * h + r && r == 60 * m + r2;
    assert n == 60 * (60 * h + m) + r2;
    assert n % 60 == r2;
  }

  /** The first field of a clock is read up to the first colon. */
  lemma ParseClockOfFirstField(first: string, rest: string)
    requires AllDigits(first)
    ensures ParseClock(first + ":" + rest) == ParseClockFields(first, rest)
  {
    ColonAfterDigits(first, rest);
  }

  lemma ReadHoursClock(h: nat, m: nat, sec: nat)
    requires 0 < h && m < 60 && sec < 60
    ensures ParseClock(NatToString(h) + ":" + Pad2(m) + ":" + Pad2(sec)) == Some(h * 3600 + m * 60 + sec)
  {
    var hh, mm, ss := NatToString(h), Pad2(m), Pad2(sec);
    assert ParseClock(hh + ":" + mm + ":" + ss) == Some(h * 3600 + m * 60 + sec) by {
      assert DigitsValue(hh) == h by {
        DigitsValueOfNatToString(h);
      }
      assert IsClockField(mm) && DigitsValue(mm) == m;
      assert IsClockField(ss) && DigitsValue(ss) == sec;
      ReadHoursText(hh, mm, ss, h * 3600 + m * 60 + sec);
    }
  }

  lemma ReadHoursText(hh: string, mm: string, ss: string, n: nat)
    requires hh != [] && AllDigits(hh) && DigitsValue(hh) > 0 && IsClockField(mm) && IsClockField(ss)
    requires n == DigitsValue(hh) * 3600 + DigitsValue(mm) * 60 + DigitsValue(ss)
    ensures ParseClock(hh + ":" + mm + ":" + ss) == Some(n)
  {
    var rest := mm + ":" + ss;
    assert hh + ":" + mm + ":" + ss == hh + ":" + rest;
    ParseClockOfFirstField(hh, rest);
    ReadHoursFields(hh, mm, ss, n);
  }

  lemma ReadHoursFields(hh: string, mm: string, ss: string, n: nat)
    requires hh != [] && AllDigits(hh) && DigitsValue(hh) > 0 && IsClockField(mm) && IsClockField(ss)
    requires n == DigitsValue(hh) * 3600 + DigitsValue(mm) * 60 + DigitsValue(ss)
    ensures ParseClockFields(hh, mm + ":" + ss) == Some(n)
  {
    var rest := mm + ":" + ss;
    ColonAfterDigits(mm, ss);
    assert ParseClockFields(hh, rest) == HoursClock(hh, mm, ss);
  }

  lemma ReadMinutesClock(m: nat, sec: nat)
    requires m < 60 && sec < 60
    ensures ParseClock(NatToString(m) + ":" + Pad2(sec)) == Some(m * 60 + sec)
  {
    var mm, ss := NatToString(m), Pad2(sec);
    assert DigitsValue(mm) == m by {
      DigitsValueOfNatToString(m);
    }
    assert IsClockField(ss) && DigitsValue(ss) == sec;
    ParseClockOfFirstField(mm, ss);
    ReadMinutesFields(mm, ss, m * 60 + sec);
  }

  lemma ReadMinutesFields(mm: string, ss: string, n: nat)
    requires mm != [] && AllDigits(mm) && DigitsValue(mm) < 60 && IsClockField(ss)
    requires n == DigitsValue(mm) * 60 + DigitsValue(ss)
    ensures ParseClockFields(mm, ss) == Some(n)
  {
    assert IndexOfChar(ss, ':') == None by {
      NoColonInDigits(ss);
    }
  }

  /** A clock with minutes and seconds below 60 reads back as its number of seconds. */
  lemma ReadClock(h: nat, m: nat, sec: nat)
    requires m < 60 && sec < 60
    ensures ParseClock(Clock(h, m, sec)) == Some(h * 3600 + m * 60 + sec)
  {
    if h > 0 {
      ReadHoursClock(h, m, sec);
    } else {
      ReadMinutesClock(m, sec);
    }
  }

  /** The clock `formatTime` writes for a non-negative position reads back as that many seconds. */
  lemma FormatTimeRoundTrip(n: nat)
    ensures ParseClock(FormatTime(Finite(n))) == Some(n)
  {
    ReadClockOfPosition(n);
  }

  lemma ReadClockOfPosition(n: nat)
    ensures ParseClock(Clock(n / 3600, (n % 3600) / 60, n % 60)) == Some(n)
  {
    var h, m, sec := n / 3600, (n % 3600) / 60, n % 60;
    ClockParts(n);
    ReadClock(h, m, sec);
  }
}
