/**
 * Character and string helpers that follow the JavaScript built-ins the
 * source calls: `trim`, `\s`, `toLowerCase`, `includes`, case-insensitive
 * regular-expression matching and decimal number formatting.
 */
module Strings {
  import opened Options

  /** The JavaScript WhiteSpace and LineTerminator code points: what `trim()` removes and what `\s` matches. */
  predicate IsJsSpace(c: char) {
    || c == '\t' || c == '\n' || c == '\U{B}' || c == '\U{C}' || c == '\r' || c == ' '
    || c == '\U{A0}' || c == '\U{1680}' || ('\U{2000}' <= c <= '\U{200A}')
    || c == '\U{2028}' || c == '\U{2029}' || c == '\U{202F}' || c == '\U{205F}'
    || c == '\U{3000}' || c == '\U{FEFF}'
  }

  lemma SpaceIsJsSpace()
    ensures IsJsSpace(' ')
  {
  }

  /** Printable ASCII other than the space is never white space. */
  lemma VisibleIsNotSpace(c: char)
    requires '!' <= c <= '~'
    ensures !IsJsSpace(c)
  {
  }

  predicate IsDigit(c: char) { '0' <= c <= '9' }

  /** The class `[a-z0-9]`. */
  predicate IsLowerAlnum(c: char) { 'a' <= c <= 'z' || IsDigit(c) }

  predicate AllDigits(s: string) { forall i :: 0 <= i < |s| ==> IsDigit(s[i]) }

  predicate AllSpaces(s: string) { forall i :: 0 <= i < |s| ==> IsJsSpace(s[i]) }

  predicate NoSpaces(s: string) { forall i :: 0 <= i < |s| ==> !IsJsSpace(s[i]) }

  /** `s.trimStart()` */
  function TrimStart(s: string): (r: string)
    ensures |r| <= |s| && r == s[|s| - |r|..]
    ensures r == [] || !IsJsSpace(r[0])
    ensures forall i :: 0 <= i < |s| - |r| ==> IsJsSpace(s[i])
  {
    if s != [] && IsJsSpace(s[0]) then TrimStart(s[1..]) else s
  }

  /** `s.trimEnd()` */
  function TrimEnd(s: string): (r: string)
    ensures |r| <= |s| && r == s[..|r|]
    ensures r == [] || !IsJsSpace(r[|r| - 1])
    ensures forall i :: |r| <= i < |s| ==> IsJsSpace(s[i])
  {
    if s != [] && IsJsSpace(s[|s| - 1]) then TrimEnd(s[..|s| - 1]) else s
  }

  /** `s.trim()`: the result is a piece of `s` with no white space at either end, and trimmed text is left alone. */
  function Trim(s: string): (r: string)
    ensures r == [] || (!IsJsSpace(r[0]) && !IsJsSpace(r[|r| - 1]))
    ensures exists k :: 0 <= k <= |s| && r <= s[k..]
    ensures (s == [] || (!IsJsSpace(s[0]) && !IsJsSpace(s[|s| - 1]))) ==> r == s
    ensures (forall i :: 0 <= i < |s| ==> IsJsSpace(s[i])) ==> r == []
  {
    var t := TrimStart(s);
    var r := TrimEnd(t);
    assert r <= s[|s| - |t|..];
    r
  }

  lemma TrimIsNoLonger(s: string)
    ensures |Trim(s)| <= |s|
  {
    var k :| 0 <= k <= |s| && Trim(s) <= s[k..];
  }

  /** Text that ends with white space is changed by trimming. */
  lemma TrimRemovesTrailingSpace(s: string)
    requires s != [] && IsJsSpace(s[|s| - 1])
    ensures Trim(s) != s
  {
  }

  /** Trimmed text neither starts nor ends with a space. */
  lemma TrimmedEndsAreNotSpaces(s: string)
    ensures Trim(s) == [] || (Trim(s)[0] != ' ' && Trim(s)[|Trim(s)| - 1] != ' ')
  {
    SpaceIsJsSpace();
  }

  /** What `trimStart` removes is white space, and what it keeps is the rest of `s`. */
  lemma TrimStartBounds(s: string) returns (k: nat)
    ensures k <= |s| && TrimStart(s) == s[k..] && AllSpaces(s[..k])
  {
    k := |s| - |TrimStart(s)|;
    var front := s[..k];
    assert forall i :: 0 <= i < |front| ==> front[i] == s[i];
  }

  /** What `trimEnd` removes is white space, and what it keeps is the start of `t`. */
  lemma TrimEndBounds(t: string) returns (n: nat)
    ensures n <= |t| && TrimEnd(t) == t[..n] && AllSpaces(t[n..])
  {
    n := |TrimEnd(t)|;
    var back := t[n..];
    assert forall i :: 0 <= i < |back| ==> back[i] == t[n + i];
  }

  lemma SliceOfSuffix<T>(s: seq<T>, k: nat, n: nat)
    requires k + n <= |s|
    ensures s[k..][..n] == s[k..k + n] && s[k..][n..] == s[k + n..]
  {
  }

  /** `Trim(s)` is the slice `s[k..k + n]`, with only white space outside it. */
  lemma TrimBounds(s: string) returns (k: nat, n: nat)
    ensures k + n <= |s| && Trim(s) == s[k..k + n]
    ensures AllSpaces(s[..k]) && AllSpaces(s[k + n..])
  {
    var t := TrimStart(s);
    k := TrimStartBounds(s);
    n := TrimEndBounds(t);
    assert Trim(s) == TrimEnd(t);
    SliceOfSuffix(s, k, n);
  }

  lemma SplitThree(s: string, k: nat, n: nat)
    requires k + n <= |s|
    ensures s == s[..k] + s[k..k + n] + s[k + n..]
  {
  }

  /** Trimming adds no character. */
  lemma TrimKeepsAbsent(s: string, c: char)
    requires c !in s
    ensures c !in Trim(s)
  {
    var k, n := TrimBounds(s);
  }

  // ---------------------------------------------------------------- decimal

  function DigitChar(d: nat): (c: char)
    requires d < 10
    ensures IsDigit(c)
  {
    ('0' as int + d) as char
  }

  function DigitValue(c: char): (d: nat)
    requires IsDigit(c)
    ensures d < 10 && DigitChar(d) == c
  {
    c as int - '0' as int
  }

  /** The decimal text of a natural number, as `String(n)` writes it. */
  function NatToString(n: nat): (r: string)
    ensures r != [] && AllDigits(r)
    ensures r[0] == '0' ==> n == 0
  {
    if n < 10 then [DigitChar(n)] else NatToString(n / 10) + [DigitChar(n % 10)]
  }

  /** `String(i)` for an integer-valued JavaScript number. */
  function IntToString(i: int): (r: string)
    ensures r != []
  {
    if i < 0 then "-" + NatToString(-i) else NatToString(i)
  }

  /** The value of a string of decimal digits. */
  function DigitsValue(s: string): nat
    requires AllDigits(s)
  {
    if s == [] then 0 else DigitsValue(s[..|s| - 1]) * 10 + DigitValue(s[|s| - 1])
  }

  lemma {:induction false} DigitsValueOfNatToString(n: nat)
    ensures DigitsValue(NatToString(n)) == n
  {
    if n >= 10 {
      var s := NatToString(n);
      assert s[..|s| - 1] == NatToString(n / 10);
      DigitsValueOfNatToString(n / 10);
    }
  }

  /** The longest prefix of `s` made of decimal digits. */
  function LeadingDigits(s: string): (r: string)
    ensures r <= s && AllDigits(r)
    ensures |r| == |s| || !IsDigit(s[|r|])
  {
    if s != [] && IsDigit(s[0]) then [s[0]] + LeadingDigits(s[1..]) else []
  }

  lemma {:induction false} LeadingDigitsOfDigitsThen(d: string, rest: string)
    requires AllDigits(d)
    requires rest == [] || !IsDigit(rest[0])
    ensures LeadingDigits(d + rest) == d
  {
    if d != [] {
      assert (d + rest)[1..] == d[1..] + rest;
      LeadingDigitsOfDigitsThen(d[1..], rest);
    }
  }

  // ---------------------------------------------------------------- case

  /**
   * One character of `toLowerCase()`. Besides A-Z, only two code points have a
   * lower-case form that contains ASCII: KELVIN SIGN and LATIN CAPITAL LETTER I
   * WITH DOT ABOVE. Every other character is kept, which is exact for what the
   * callers do next (they only look at `[a-z0-9]`).
   */
  function LowerChar(c: char): string {
    if 'A' <= c <= 'Z' then [(c as int + 32) as char]
    else if c == '\U{212A}' then "k"
    else if c == '\U{130}' then "i\U{307}"
    else [c]
  }

  /**
   * `s.toLowerCase()` as far as `[a-z0-9]` is concerned: no ASCII capital is
   * left, nothing gets shorter, and text with none of the characters that
   * have a lower-case form here is left as it is.
   */
  function ToLower(s: string): (r: string)
    ensures forall i :: 0 <= i < |r| ==> !('A' <= r[i] <= 'Z')
    ensures |s| <= |r|
    ensures (forall i :: 0 <= i < |s| ==> !('A' <= s[i] <= 'Z') && s[i] != '\U{212A}' && s[i] != '\U{130}') ==> r == s
  {
    if s == [] then []
    else
      var head, rest := LowerChar(s[0]), ToLower(s[1..]);
      assert forall i :: 0 <= i < |head| ==> !('A' <= head[i] <= 'Z');
      assert forall i :: |head| <= i < |head + rest| ==> (head + rest)[i] == rest[i - |head|];
      head + rest
  }

  /** `s.indexOf(c)` for one character, as an option. */
  function IndexOfChar(s: string, c: char): (r: Option<nat>)
    ensures r.Some? ==> r.value < |s| && s[r.value] == c && c !in s[..r.value]
    ensures r.None? ==> c !in s
  {
    if s == [] then None
    else if s[0] == c then Some(0)
    else match IndexOfChar(s[1..], c)
      case None => None
      case Some(i) =>
        assert s[..i + 1] == [s[0]] + s[1..][..i];
        Some(i + 1)
  }

  /** A character at `k` with none before it is where `IndexOfChar` finds it. */
  lemma IndexOfCharAt(s: string, c: char, k: nat)
    requires k < |s| && s[k] == c && c !in s[..k]
    ensures IndexOfChar(s, c) == Some(k)
  {
  }

  /** The first position from `k` on where `pat` occurs, if any. */
  function SearchFrom(s: string, pat: string, k: nat): (r: Option<nat>)
    requires k <= |s| + 1
    ensures r.Some? ==> k <= r.value && r.value + |pat| <= |s| && pat <= s[r.value..]
    ensures r.Some? ==> forall j :: k <= j < r.value ==> !(pat <= s[j..])
    ensures r.None? ==> forall j :: k <= j <= |s| ==> !(pat <= s[j..])
    decreases |s| + 1 - k
  {
    if k > |s| then None
    else if pat <= s[k..] then Some(k)
    else SearchFrom(s, pat, k + 1)
  }

  /** `s.indexOf(pat)`: where `pat` occurs first, if anywhere. */
  function IndexOf(s: string, pat: string): (r: Option<nat>)
    ensures r.Some? ==> r.value + |pat| <= |s| && pat <= s[r.value..]
    ensures r.Some? ==> forall j :: 0 <= j < r.value ==> !(pat <= s[j..])
    ensures r.None? ==> forall j :: 0 <= j <= |s| ==> !(pat <= s[j..])
  {
    SearchFrom(s, pat, 0)
  }

  /** A pattern no shorter than the text, and different from it, does not occur in it. */
  lemma NoLongerOccurrence(s: string, pat: string)
    requires |s| <= |pat| && s != pat
    ensures IndexOf(s, pat) == None
  {
    assert s[0..] == s;
    assert forall j :: 0 <= j <= |s| ==> !(pat <= s[j..]);
  }

  /** `s.replace(pat, rep)` with a string pattern: only the first occurrence is replaced. */
  function ReplaceFirst(s: string, pat: string, rep: string): (r: string)
    ensures IndexOf(s, pat).None? ==> r == s
    ensures IndexOf(s, pat).Some? ==>
      var i := IndexOf(s, pat).value; r == s[..i] + rep + s[i + |pat|..]
  {
    match IndexOf(s, pat)
    case None => s
    case Some(i) => s[..i] + rep + s[i + |pat|..]
  }

  /** The canonical form a non-Unicode `/i` regular expression compares: only ASCII letters fold. */
  function AsciiUpper(c: char): char {
    if 'a' <= c <= 'z' then (c as int - 32) as char else c
  }

  /** `pat` matches `s` at position `j` under `/i`. */
  predicate MatchesAtIgnoringCase(s: string, pat: string, j: nat) {
    j + |pat| <= |s| && forall i :: 0 <= i < |pat| ==> AsciiUpper(s[j + i]) == AsciiUpper(pat[i])
  }

  /** The first position from `k` on where `pat` matches under `/i`, if any. */
  function SearchIgnoringCase(s: string, pat: string, k: nat): (r: Option<nat>)
    requires k <= |s| + 1
    ensures r.Some? ==> k <= r.value && MatchesAtIgnoringCase(s, pat, r.value)
    ensures r.Some? ==> forall j :: k <= j < r.value ==> !MatchesAtIgnoringCase(s, pat, j)
    ensures r.None? ==> forall j :: k <= j ==> !MatchesAtIgnoringCase(s, pat, j)
    decreases |s| + 1 - k
  {
    if k > |s| then None
    else if MatchesAtIgnoringCase(s, pat, k) then Some(k)
    else SearchIgnoringCase(s, pat, k + 1)
  }

  /** Where `s.search(/pat/i)` finds `pat` first, if anywhere. */
  function IndexOfIgnoringCase(s: string, pat: string): (r: Option<nat>)
    ensures r.Some? ==> MatchesAtIgnoringCase(s, pat, r.value)
    ensures r.Some? ==> forall j :: 0 <= j < r.value ==> !MatchesAtIgnoringCase(s, pat, j)
    ensures r.None? ==> forall j :: 0 <= j ==> !MatchesAtIgnoringCase(s, pat, j)
  {
    SearchIgnoringCase(s, pat, 0)
  }

  /** `s.replace(/pat/i, '')`: the first case-insensitive occurrence of `pat` is cut out. */
  function RemoveFirstIgnoringCase(s: string, pat: string): string {
    match IndexOfIgnoringCase(s, pat)
    case None => s
    case Some(i) => s[..i] + s[i + |pat|..]
  }

  /** A first character no character of `s` folds to leaves `s` without any match of `pat`. */
  lemma RemoveAbsentIgnoringCase(s: string, pat: string)
    requires pat != []
    requires forall i :: 0 <= i < |s| ==> AsciiUpper(s[i]) != AsciiUpper(pat[0])
    ensures RemoveFirstIgnoringCase(s, pat) == s
  {
  }

  // ---------------------------------------------------------------- rewriting

  /** `s.replace(/c/g, d)` for a single character `c`. */
  function ReplaceChar(s: string, c: char, d: char): (r: string)
    ensures |r| == |s|
    ensures forall i :: 0 <= i < |s| ==> r[i] == if s[i] == c then d else s[i]
  {
    seq(|s|, i requires 0 <= i < |s| => if s[i] == c then d else s[i])
  }

  /** `s` without its leading run of characters satisfying `inRun`. */
  function DropRun(s: string, inRun: char -> bool): (r: string)
    ensures |r| <= |s| && r == s[|s| - |r|..]
    ensures r == [] || !inRun(r[0])
    ensures s != [] && inRun(s[0]) ==> |r| < |s|
    ensures forall i :: 0 <= i < |s| - |r| ==> inRun(s[i])
  {
    if s != [] && inRun(s[0]) then
      var r := DropRun(s[1..], inRun);
      assert forall i :: 1 <= i < |s| - |r| ==> s[i] == s[1..][i - 1];
      r
    else s
  }

  /**
   * `s.replace(/[class]+/g, ' ')` where `inRun` is the class and contains the
   * space: every maximal run becomes one space, so the result holds only
   * characters outside the class and single spaces.
   */
  function CollapseRuns(s: string, inRun: char -> bool): (r: string)
    requires inRun(' ')
    ensures forall i :: 0 <= i < |r| ==> r[i] == ' ' || !inRun(r[i])
    ensures forall i :: 0 <= i < |r| - 1 ==> !(r[i] == ' ' && r[i + 1] == ' ')
    ensures r == [] <==> s == []
    ensures r != [] ==> (r[0] == ' ' <==> inRun(s[0]))
    decreases |s|
  {
    if s == [] then []
    else
      var head, rest :=
        if inRun(s[0]) then ' ' else s[0],
        CollapseRuns(if inRun(s[0]) then DropRun(s, inRun) else s[1..], inRun);
      var r := [head] + rest;
      assert forall i :: 1 <= i < |r| ==> r[i] == rest[i - 1];
      r
  }

  /** Collapsing runs adds no character but the space. */
  lemma {:induction false} CollapseKeepsAbsent(s: string, inRun: char -> bool, c: char)
    requires inRun(' ') && c != ' ' && c !in s
    ensures c !in CollapseRuns(s, inRun)
    decreases |s|
  {
    if s != [] {
      var next := if inRun(s[0]) then DropRun(s, inRun) else s[1..];
      assert c !in next by {
        assert forall x :: x in next ==> x in s;
      }
      CollapseKeepsAbsent(next, inRun, c);
    }
  }

  /** `s.replace(/[^a-z0-9]/g, '')`: the letters and digits of `s`, in order. */
  function AlnumOnly(s: string): (r: string)
    ensures forall i :: 0 <= i < |r| ==> IsLowerAlnum(r[i])
    ensures |r| <= |s|
  {
    if s == [] then [] else (if IsLowerAlnum(s[0]) then [s[0]] else []) + AlnumOnly(s[1..])
  }

  lemma {:induction false} AlnumOnlyAppend(a: string, b: string)
    ensures AlnumOnly(a + b) == AlnumOnly(a) + AlnumOnly(b)
  {
    if a != [] {
      assert (a + b)[1..] == a[1..] + b;
      AlnumOnlyAppend(a[1..], b);
    } else {
      assert a + b == b;
    }
  }

  lemma {:induction false} AlnumOnlyNone(s: string)
    requires forall i :: 0 <= i < |s| ==> !IsLowerAlnum(s[i])
    ensures AlnumOnly(s) == []
  {
    if s != [] {
      AlnumOnlyNone(s[1..]);
    }
  }

  /** `hay.includes(needle)`. */
  predicate Contains(hay: string, needle: string) {
    needle <= hay || (hay != [] && Contains(hay[1..], needle))
  }
}
