/**
 * The pieces of JavaScript's string and number built-ins that the planner
 * relies on: `String.prototype.trim`, decimal rendering of integers,
 * `parseInt(s, 10)`, `Number(s)` on integer text, and a global,
 * left-to-right, non-overlapping `replace`.
 */
module Text {
  import opened Wrappers

  /** WhiteSpace and LineTerminator code points of ECMAScript, the set `trim` removes. */
  predicate IsJsWhitespace(c: char) {
    // tab, line feed, vertical tab, form feed, carriage return, space
    c == '\t' || c == '\n' || c == '\U{000B}' || c == '\U{000C}' || c == '\r' || c == ' '
    // no-break space, ogham space mark, the spaces U+2000..U+200A
    || c == '\U{00A0}' || c == '\U{1680}' || ('\U{2000}' <= c <= '\U{200A}')
    // line and paragraph separators, narrow no-break, medium mathematical and ideographic spaces
    || c == '\U{2028}' || c == '\U{2029}' || c == '\U{202F}' || c == '\U{205F}' || c == '\U{3000}'
    // byte order mark
    || c == '\U{FEFF}'
  }

  predicate AllWhitespace(s: string) {
    forall i :: 0 <= i < |s| ==> IsJsWhitespace(s[i])
  }

  function TrimStart(s: string): (r: string)
    ensures |r| <= |s| && r == s[|s| - |r|..]
    ensures r == [] || !IsJsWhitespace(r[0])
    ensures AllWhitespace(s[..|s| - |r|])
  {
    if s != [] && IsJsWhitespace(s[0]) then TrimStart(s[1..]) else s
  }

  function TrimEnd(s: string): (r: string)
    ensures |r| <= |s| && r == s[..|r|]
    ensures r == [] || !IsJsWhitespace(r[|r| - 1])
    ensures AllWhitespace(s[|r|..])
  {
    if s != [] && IsJsWhitespace(s[|s| - 1]) then TrimEnd(s[..|s| - 1]) else s
  }

  /** `s.trim()`: the part of `s` between its leading and its trailing white space. */
  function Trim(s: string): (r: string)
    ensures |r| <= |s|
    ensures r == [] || (!IsJsWhitespace(r[0]) && !IsJsWhitespace(r[|r| - 1]))
  {
    TrimEnd(TrimStart(s))
  }

  /** A string trims to `''` exactly when every character in it is white space. */
  lemma TrimEmptyIffBlank(s: string)
    ensures Trim(s) == "" <==> AllWhitespace(s)
  {
    var t := TrimStart(s);
    if Trim(s) == "" {
      assert s == s[..|s| - |t|] + t;
      assert AllWhitespace(t) by { assert t[|Trim(s)|..] == t; }
    }
  }

  predicate IsDigit(c: char) {
    '0' <= c <= '9'
  }

  predicate AllDigits(s: string) {
    forall i :: 0 <= i < |s| ==> IsDigit(s[i])
  }

  function DigitChar(v: int): (c: char)
    requires 0 <= v < 10
    ensures IsDigit(c)
  {
    ('0' as int + v) as char
  }

  /** The value of a string of decimal digits, most significant first. */
  function DigitsValue(s: string): (v: nat)
    requires AllDigits(s)
  {
    if s == [] then 0
    else 10 * DigitsValue(s[..|s| - 1]) + (s[|s| - 1] as int - '0' as int)
  }

  function Pow10(w: nat): (p: nat)
    ensures p >= 1
  {
    if w == 0 then 1 else 10 * Pow10(w - 1)
  }

  /** `v` written with exactly `w` decimal digits, zero-padded on the left. */
  function PadDigits(v: nat, w: nat): (s: string)
    requires v < Pow10(w)
    ensures |s| == w && AllDigits(s)
  {
    if w == 0 then "" else PadDigits(v / 10, w - 1) + [DigitChar(v % 10)]
  }

  lemma {:induction false} PadDigitsRoundTrip(v: nat, w: nat)
    requires v < Pow10(w)
    ensures DigitsValue(PadDigits(v, w)) == v
  {
    if w > 0 {
      PadDigitsRoundTrip(v / 10, w - 1);
      var s := PadDigits(v, w);
      assert s[..|s| - 1] == PadDigits(v / 10, w - 1);
    }
  }

  /** `String(v)` for a non-negative integer: its shortest decimal form. */
  function NatToString(v: nat): (s: string)
    ensures 1 <= |s| && AllDigits(s)
    ensures |s| > 1 ==> s[0] != '0'
  {
    if v < 10 then [DigitChar(v)] else NatToString(v / 10) + [DigitChar(v % 10)]
  }

  lemma {:induction false} NatToStringRoundTrip(v: nat)
    ensures DigitsValue(NatToString(v)) == v
  {
    if v >= 10 {
      NatToStringRoundTrip(v / 10);
      var s := NatToString(v);
      assert s[..|s| - 1] == NatToString(v / 10);
    } else {
      assert NatToString(v)[..0] == "";
    }
  }

  /** The UTF-16 code units of a code point: two for one outside the Basic Multilingual Plane. */
  function Utf16Units(c: char): (n: nat)
    ensures n == 1 || n == 2
  {
    if c as int >= 0x1_0000 then 2 else 1
  }

  /**
   * `s.length`, which counts UTF-16 code units; a `string` here is a
   * sequence of code points, so a character outside the Basic Multilingual
   * Plane adds two.
   */
  function Utf16Length(s: string): (n: nat)
    ensures |s| <= n <= 2 * |s|
    ensures n == |s| <==> forall k :: 0 <= k < |s| ==> Utf16Units(s[k]) == 1
  {
    if s == [] then 0
    else
      var front := s[..|s| - 1];
      assert forall k :: 0 <= k < |front| ==> front[k] == s[k];
      Utf16Length(front) + Utf16Units(s[|s| - 1])
  }

  /** The code units of a prefix are at most those of the whole string. */
  lemma {:induction false} Utf16LengthPrefix(s: string, i: nat)
    requires i <= |s|
    ensures Utf16Length(s[..i]) <= Utf16Length(s)
    decreases |s|
  {
    if i < |s| {
      var front := s[..|s| - 1];
      assert s[..i] == front[..i];
      Utf16LengthPrefix(front, i);
    } else {
      assert s[..i] == s;
    }
  }

  /** Length of the longest prefix of `s` made of decimal digits. */
  function DigitPrefixLength(s: string): (n: nat)
    ensures n <= |s| && AllDigits(s[..n])
    ensures n < |s| ==> !IsDigit(s[n])
  {
    if s != [] && IsDigit(s[0]) then
      var n := 1 + DigitPrefixLength(s[1..]);
      assert s[..n] == [s[0]] + s[1..][..n - 1];
      n
    else 0
  }

  /**
   * `parseInt(s, 10)`: skip leading white space, take an optional sign and
   * the longest run of digits after it; no digits at all is `NaN` (`None`).
   */
  function ParseInt(s: string): (r: Option<int>)
    ensures var t := TrimStart(s);
            var body := if t != [] && (t[0] == '-' || t[0] == '+') then t[1..] else t;
            r.None? <==> body == [] || !IsDigit(body[0])
    ensures r.Some? && r.value < 0 ==> TrimStart(s)[0] == '-'
  {
    var t := TrimStart(s);
    var negative := t != [] && t[0] == '-';
    var body := if t != [] && (t[0] == '-' || t[0] == '+') then t[1..] else t;
    var n := DigitPrefixLength(body);
    if n == 0 then None
    else
      var v: int := DigitsValue(body[..n]);
      Some(if negative then -v else v)
  }

  /** `parseInt` reads back the decimal form of every index. */
  lemma ParseIntOfNatToString(v: nat)
    ensures ParseInt(NatToString(v)) == Some(v)
  {
    var s := NatToString(v);
    assert TrimStart(s) == s by {
      assert !IsJsWhitespace(s[0]) by { assert IsDigit(s[0]); }
    }
    assert DigitPrefixLength(s) == |s| by { AllDigitsPrefix(s); }
    assert s[..|s|] == s;
    NatToStringRoundTrip(v);
  }

  lemma {:induction false} AllDigitsPrefix(s: string)
    requires AllDigits(s)
    ensures DigitPrefixLength(s) == |s|
  {
    if s != [] {
      AllDigitsPrefix(s[1..]);
    }
  }

  /**
   * `Number(s)` for the texts this model interprets: white space around an
   * optionally signed run of decimal digits, or nothing at all (which is 0).
   * Every other text is treated as `NaN` (`None`).
   */
  function IntegerNumber(s: string): (r: Option<int>)
    ensures AllWhitespace(s) ==> r == Some(0)
  {
    TrimEmptyIffBlank(s);
    var t := Trim(s);
    if t == "" then Some(0)
    else
      var body := if t[0] == '-' || t[0] == '+' then t[1..] else t;
      if body != [] && AllDigits(body) then
        var v: int := DigitsValue(body);
        Some(if t[0] == '-' then -v else v)
      else None
  }

  /** A character that is not white space survives trimming. */
  lemma TrimKeeps(s: string, i: int)
    requires 0 <= i < |s| && !IsJsWhitespace(s[i])
    ensures s[i] in Trim(s)
  {
    var t := TrimStart(s);
    var k := |s| - |t|;
    assert i >= k;
    assert t[i - k] == s[i];
    var r := TrimEnd(t);
    assert i - k < |r|;
    assert r[i - k] == s[i];
  }

  /** A string that neither starts nor ends with white space is its own trim. */
  lemma TrimUntouched(s: string)
    requires s != [] && !IsJsWhitespace(s[0]) && !IsJsWhitespace(s[|s| - 1])
    ensures Trim(s) == s
  {
  }

  /** `Number` of a text holding any character other than digits, signs and white space is `NaN`. */
  lemma IntegerNumberRejects(s: string, i: int)
    requires 0 <= i < |s| && !IsDigit(s[i]) && !IsJsWhitespace(s[i]) && s[i] != '-' && s[i] != '+'
    ensures IntegerNumber(s) == None
  {
    TrimKeeps(s, i);
    var t := Trim(s);
    var j :| 0 <= j < |t| && t[j] == s[i];
    if t[0] == '-' || t[0] == '+' {
      assert j > 0;
      assert t[1..][j - 1] == s[i];
    }
  }

  /** `Number` reads a run of decimal digits as its value. */
  lemma IntegerNumberOfDigits(s: string)
    requires s != [] && AllDigits(s)
    ensures IntegerNumber(s) == Some(DigitsValue(s))
  {
    assert IsDigit(s[0]) && IsDigit(s[|s| - 1]);
    TrimUntouched(s);
  }

  /** `Number` reads a minus sign and a run of decimal digits as the negated value. */
  lemma IntegerNumberOfNegatedDigits(s: string)
    requires s != [] && AllDigits(s)
    ensures IntegerNumber("-" + s) == Some(-(DigitsValue(s) as int))
  {
    var m := "-" + s;
    assert IsDigit(s[|s| - 1]) && m[|m| - 1] == s[|s| - 1];
    TrimUntouched(m);
    assert m[1..] == s;
  }

  /**
   * `s.replace(/pat/g, rep)` for a literal pattern: scan left to right and
   * replace every non-overlapping occurrence of `pat` by `rep`.
   */
  function ReplaceAll(s: string, pat: string, rep: string): (r: string)
    requires pat != []
    ensures rep == pat ==> r == s
    ensures |rep| == |pat| ==> |r| == |s|
    decreases |s|
  {
    if |s| < |pat| then s
    else if s[..|pat|] == pat then rep + ReplaceAll(s[|pat|..], pat, rep)
    else [s[0]] + ReplaceAll(s[1..], pat, rep)
  }

  predicate OccursAt(s: string, pat: string, i: int) {
    0 <= i && i + |pat| <= |s| && s[i..i + |pat|] == pat
  }

  /** A string in which `pat` does not occur is left as it is. */
  lemma {:induction false} ReplaceAllAbsent(s: string, pat: string, rep: string)
    requires pat != []
    requires forall i :: !OccursAt(s, pat, i)
    ensures ReplaceAll(s, pat, rep) == s
  {
    if |s| >= |pat| {
      assert !OccursAt(s, pat, 0);
      forall i ensures !OccursAt(s[1..], pat, i) {
        if OccursAt(s[1..], pat, i) {
          assert s[1..][i..i + |pat|] == s[i + 1..i + 1 + |pat|];
          assert OccursAt(s, pat, i + 1);
        }
      }
      ReplaceAllAbsent(s[1..], pat, rep);
    }
  }

  /** An occurrence at the front is replaced and the scan resumes after it. */
  lemma ReplaceAllAtPattern(pat: string, b: string, rep: string)
    requires pat != []
    ensures ReplaceAll(pat + b, pat, rep) == rep + ReplaceAll(b, pat, rep)
  {
    assert (pat + b)[..|pat|] == pat;
    assert (pat + b)[|pat|..] == b;
  }

  lemma ReplaceAllShort(s: string, pat: string, rep: string)
    requires pat != [] && |s| < |pat|
    ensures ReplaceAll(s, pat, rep) == s
  {
  }

  /** Regrouping a concatenation of three strings, a step the string proofs take often. */
  lemma Assoc(a: string, b: string, c: string)
    ensures (a + b) + c == a + (b + c)
  {
  }

  /** A first character that does not start an occurrence is copied and the scan moves on. */
  lemma ReplaceAllCons(c: char, t: string, pat: string, rep: string)
    requires pat != [] && !(pat <= [c] + t)
    ensures ReplaceAll([c] + t, pat, rep) == [c] + ReplaceAll(t, pat, rep)
  {
    var s := [c] + t;
    if |s| < |pat| {
      ReplaceAllShort(t, pat, rep);
    } else {
      assert s[..|pat|] != pat;
      assert s[0] == c && s[1..] == t;
    }
  }

  /** Text that does not contain the pattern's first character passes through unchanged. */
  lemma {:induction false} ReplaceAllSkipsFree(a: string, b: string, pat: string, rep: string)
    requires pat != []
    requires pat[0] !in a
    ensures ReplaceAll(a + b, pat, rep) == a + ReplaceAll(b, pat, rep)
  {
    if a != [] {
      var first, rest, tail := [a[0]], a[1..], ReplaceAll(b, pat, rep);
      assert a == first + rest;
      Assoc(first, rest, b);
      assert (first + (rest + b))[0] == a[0];
      ReplaceAllCons(a[0], rest + b, pat, rep);
      ReplaceAllSkipsFree(rest, b, pat, rep);
      Assoc(first, rest, tail);
    } else {
      assert a + b == b;
    }
  }

  /**
   * A tag that starts with `<`, has no other `<`, and neither is a prefix of
   * `pat` nor has `pat` as a prefix, passes through unchanged.
   */
  lemma ReplaceAllSkipsTag(tag: string, b: string, pat: string, rep: string)
    requires pat != [] && pat[0] == '<'
    requires tag != [] && tag[0] == '<' && '<' !in tag[1..]
    requires !(tag <= pat) && !(pat <= tag)
    ensures ReplaceAll(tag + b, pat, rep) == tag + ReplaceAll(b, pat, rep)
  {
    var first, rest, tail := [tag[0]], tag[1..], ReplaceAll(b, pat, rep);
    assert tag == first + rest;
    Assoc(first, rest, b);
    NoMatchAtTag(tag, b, pat);
    ReplaceAllCons(tag[0], rest + b, pat, rep);
    ReplaceAllSkipsFree(rest, b, pat, rep);
    Assoc(first, rest, tail);
  }

  /** Neither of `tag` and `pat` being a prefix of the other, `pat` does not start `tag + b`. */
  lemma NoMatchAtTag(tag: string, b: string, pat: string)
    requires !(tag <= pat) && !(pat <= tag)
    ensures !(pat <= tag + b)
  {
    if |pat| <= |tag| {
      assert pat <= tag + b ==> pat <= tag;
    } else {
      assert pat <= tag + b ==> tag <= pat;
    }
  }
}
