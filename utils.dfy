/** The shared request helpers of api/_lib/utils.js. */
module Utils {
  import opened Options
  import opened Strings
  import opened Js
  import opened Http

  const MaxSongIdLength: nat := 64

  /**
   * `parseJsonBody(req)`: an absent or empty body is `{}`, an object body is
   * itself, and text is what `JSON.parse` makes of it, `{}` when it throws.
   * `None` is the `null` that the text `null` parses to; an array or a
   * primitive has none of the fields read, so it reads as `{}`.
   */
  function ParseJsonBody(b: Body): (r: Option<Fields>)
    ensures r.None? <==> b.TextBody? && b.text != "" && b.parsed.JsonNull?
    ensures b.NoBody? || (b.TextBody? && b.text == "") ==> r == Some(map[])
    ensures b.ObjectBody? ==> r == Some(b.fields)
    ensures b.TextBody? && b.text != "" ==>
      && (b.parsed.JsonObject? ==> r == Some(b.parsed.fields))
      && (b.parsed.NotJson? || b.parsed.JsonOther? ==> r == Some(map[]))
  {
    match b
    case NoBody => Some(map[])
    case ObjectBody(fields) => Some(fields)
    case TextBody(text, parsed) =>
      if text == "" then Some(map[])
      else match parsed
        case NotJson => Some(map[])
        case JsonNull => None
        case JsonObject(fields) => Some(fields)
        case JsonOther => Some(map[])
  }

  /** The fields a POST branch reads from the parsed body; `null` has none, but reading it throws first. */
  function BodyFields(body: Option<Fields>): Fields {
    match body case None => map[] case Some(fields) => fields
  }

  /** What reading `body.song_id` throws in a POST branch: nothing, unless the body is `null`. */
  function BodyFailure(httpMethod: string, body: Option<Fields>): (f: Option<Failure>)
    ensures f.Some? <==> httpMethod == "POST" && body.None?
    ensures f.Some? ==> f.value == ReadOfNull("song_id") && FailureStatus(f.value) == 500
  {
    if httpMethod == "POST" && body.None? then Some(ReadOfNull("song_id")) else None
  }

  /** The class `[a-z0-9_-]` under `/i`. */
  predicate IsSongIdChar(c: char) {
    'a' <= c <= 'z' || 'A' <= c <= 'Z' || IsDigit(c) || c == '_' || c == '-'
  }

  /** What `validateSongId` accepts: non-empty, at most 64 characters, all of them in `[A-Za-z0-9_-]`. */
  predicate WellFormedSongId(id: string) {
    id != [] && |id| <= MaxSongIdLength && forall i :: 0 <= i < |id| ==> IsSongIdChar(id[i])
  }

  /**
   * `validateSongId(v)`: the trimmed text of `v` when it is a well-formed id,
   * `null` otherwise. Also the `getSongId` copies in ratings.js and
   * comments.js and the inline check of both POST branches.
   */
  function ValidateSongId(v: Value): (r: Option<string>)
    ensures r.Some? ==> r.value == Trim(StringOrEmpty(v)) && WellFormedSongId(r.value)
    ensures r.None? ==> !WellFormedSongId(Trim(StringOrEmpty(v)))
  {
    var id := Trim(StringOrEmpty(v));
    if id == [] then None
    else if |id| > MaxSongIdLength then None
    else if !(forall i :: 0 <= i < |id| ==> IsSongIdChar(id[i])) then None
    else Some(id)
  }

  lemma SongIdCharIsNotSpace(c: char)
    requires IsSongIdChar(c)
    ensures !IsJsSpace(c)
  {
    VisibleIsNotSpace(c);
  }

  /** A well-formed id, given as text, is accepted as itself. */
  lemma ValidateWellFormedSongId(id: string)
    requires WellFormedSongId(id)
    ensures ValidateSongId(Str(id)) == Some(id)
  {
    assert StringOrEmpty(Str(id)) == id;
    assert Trim(id) == id by {
      SongIdCharIsNotSpace(id[0]);
      SongIdCharIsNotSpace(id[|id| - 1]);
    }
  }

  /** Re-validating an accepted id gives the same id. */
  lemma ValidateSongIdIdempotent(v: Value)
    requires ValidateSongId(v).Some?
    ensures ValidateSongId(Str(ValidateSongId(v).value)) == ValidateSongId(v)
  {
    ValidateWellFormedSongId(ValidateSongId(v).value);
  }

  /** `getSongId(req)`: the validated `song_id` query parameter. */
  function GetSongId(req: Request): (r: Option<string>)
    ensures r == ValidateSongId(Get(req.query, "song_id"))
  {
    ValidateSongId(Get(req.query, "song_id"))
  }

  /** `clampText(text, maxLength)`: the first `maxLength` characters of the trimmed text. */
  function ClampText(v: Value, maxLength: nat): (r: string)
    ensures r <= Trim(StringOrEmpty(v))
    ensures |r| == if |Trim(StringOrEmpty(v))| < maxLength then |Trim(StringOrEmpty(v))| else maxLength
  {
    var t := Trim(StringOrEmpty(v));
    if |t| <= maxLength then t else t[..maxLength]
  }

  /**
   * Clamping is not idempotent: when the cut lands just after white space,
   * a second clamp trims that white space away.
   */
  lemma ClampTextNotIdempotent(v: Value, maxLength: nat)
    requires 0 < maxLength < |Trim(StringOrEmpty(v))|
    requires IsJsSpace(Trim(StringOrEmpty(v))[maxLength - 1])
    ensures ClampText(Str(ClampText(v, maxLength)), maxLength) != ClampText(v, maxLength)
  {
    var once := ClampText(v, maxLength);
    assert |once| == maxLength && IsJsSpace(once[maxLength - 1]);
    ClampChangesSpaceEnded(once, maxLength);
  }

  /** Clamping again text that fits but ends with white space changes it. */
  lemma ClampChangesSpaceEnded(t: string, maxLength: nat)
    requires t != [] && |t| <= maxLength && IsJsSpace(t[|t| - 1])
    ensures ClampText(Str(t), maxLength) != t
  {
    assert StringOrEmpty(Str(t)) == t;
    assert ClampText(Str(t), maxLength) == Trim(t) by {
      TrimIsNoLonger(t);
    }
    TrimRemovesTrailingSpace(t);
  }

  /** `clampDelta(delta)`: 1 and -1 (after `Number`) pass, everything else, NaN included, is 0. */
  function ClampDelta(v: Value): (d: int)
    ensures d == -1 || d == 0 || d == 1
    ensures d == 1 <==> ToNumber(v) == Int(1)
    ensures d == -1 <==> ToNumber(v) == Int(-1)
  {
    match ToNumber(v)
    case Int(n) => if n == 1 then 1 else if n == -1 then -1 else 0
    case _ => 0
  }

  /** A whole-number text other than plain digits still counts as a vote: fractions, exponents and radix literals. */
  lemma ClampDeltaOfNumericText(s: string)
    requires s == "1.0" || s == "1e0" || s == ".1e1" || s == "10e-1" || s == "0x1"
    ensures ClampDelta(Str(s)) == 1
  {
    if s == "1.0" {
      PointZeroText(s);
    } else if s == "1e0" {
      WholeExponentText(s, "1", 0, 1);
    } else if s == ".1e1" {
      assert IntToString(1) == "1" by {
        assert NatToString(1) == [DigitChar(1)];
      }
      FractionExponentText(s, "1", 1);
    } else if s == "10e-1" {
      WholeExponentText(s, "10", -1, 10);
    } else {
      HexText(s, "1");
    }
  }

  /** `clampDelta` of `"<i>.0"` is `clampDelta(i)`: `"1.0"` and `"-1.0"` count as votes. */
  lemma ClampDeltaOfPointZero(i: int)
    ensures ClampDelta(Str(IntToString(i) + ".0")) == ClampDelta(Number(Int(i)))
  {
    StringToNumberOfPointZero(i);
  }

  lemma PointZeroText(s: string)
    requires s == "1.0"
    ensures StringToNumber(s) == Int(1)
  {
    StringToNumberOfPointZero(1);
    assert IntToString(1) + ".0" == s;
  }

  lemma WholeExponentText(s: string, whole: string, e: int, m: nat)
    requires whole != [] && AllDigits(whole) && DigitsValue(whole) == m
    requires s == whole + "e" + IntToString(e)
    requires (e == 0 && m == 1) || (e == -1 && m == 10)
    ensures StringToNumber(s) == Int(1)
  {
    StringToNumberOfWholeExponent(whole, e);
    ScaledWhole(1, 1, s);
  }

  lemma FractionExponentText(s: string, fraction: string, e: int)
    requires |fraction| == 1 && AllDigits(fraction) && DigitsValue(fraction) == 1 && e == 1
    requires s == "." + fraction + "e" + IntToString(e)
    ensures StringToNumber(s) == Int(1)
  {
    StringToNumberOfFractionExponent(fraction, e);
    ScaledWhole(1, 1, s);
  }

  lemma HexText(s: string, digits: string)
    requires |digits| == 1 && digits[0] == '1'
    requires s == ['0', 'x'] + digits
    ensures StringToNumber(s) == Int(1)
  {
    assert RadixValue(digits, 16) == Some(1) by {
      assert digits[..0] == [];
    }
    StringToNumberOfRadix('x', digits, 16);
  }

  /** Clamping is the identity on -1, 0 and 1. */
  lemma ClampDeltaFixesUnits(d: int)
    requires d == -1 || d == 0 || d == 1
    ensures ClampDelta(Number(Int(d))) == d
  {
  }
}
