/**
 * Base 64 as `btoa` and `atob` use it: the alphabet and `=` padding of
 * section 4 of RFC 4648 on the encoding side, and the forgiving decoder of
 * the HTML standard on the decoding side (ASCII white space is skipped,
 * padding may be left out, leftover bits of a final partial group are
 * discarded).
 */
module Base64 {
  import opened Wrappers

  type byte = b: int | 0 <= b < 256

  predicate IsAlphabetChar(c: char) {
    ('A' <= c <= 'Z') || ('a' <= c <= 'z') || ('0' <= c <= '9') || c == '+' || c == '/'
  }

  /** The character for the 6-bit value `v` in the RFC 4648 alphabet. */
  function CharOf(v: int): (c: char)
    requires 0 <= v < 64
    ensures IsAlphabetChar(c)
  {
    if v < 26 then ('A' as int + v) as char
    else if v < 52 then ('a' as int + (v - 26)) as char
    else if v < 62 then ('0' as int + (v - 52)) as char
    else if v == 62 then '+'
    else '/'
  }

  /** The 6-bit value of an alphabet character. */
  function ValueOf(c: char): (v: int)
    requires IsAlphabetChar(c)
    ensures 0 <= v < 64
  {
    if 'A' <= c <= 'Z' then c as int - 'A' as int
    else if 'a' <= c <= 'z' then c as int - 'a' as int + 26
    else if '0' <= c <= '9' then c as int - '0' as int + 52
    else if c == '+' then 62
    else 63
  }

  lemma ValueOfCharOf(v: int)
    requires 0 <= v < 64
    ensures ValueOf(CharOf(v)) == v
  {
  }

  /** The characters of a full group of three bytes, without padding. */
  function Group3(b0: byte, b1: byte, b2: byte): string {
    [CharOf(b0 / 4), CharOf((b0 % 4) * 16 + b1 / 16), CharOf((b1 % 16) * 4 + b2 / 64), CharOf(b2 % 64)]
  }

  /** The significant characters of a final group of one or two bytes. */
  function Tail(b: seq<byte>): string
    requires 1 <= |b| <= 2
  {
    if |b| == 1 then [CharOf(b[0] / 4), CharOf((b[0] % 4) * 16)]
    else [CharOf(b[0] / 4), CharOf((b[0] % 4) * 16 + b[1] / 16), CharOf((b[1] % 16) * 4)]
  }

  predicate AllAlphabet(s: string) {
    forall i :: 0 <= i < |s| ==> IsAlphabetChar(s[i])
  }

  /** The encoding without its `=` padding. */
  function Unpadded(b: seq<byte>): (s: string)
    ensures AllAlphabet(s)
    ensures b != [] ==> s != []
  {
    if |b| == 0 then ""
    else if |b| < 3 then Tail(b)
    else Group3(b[0], b[1], b[2]) + Unpadded(b[3..])
  }

  function Padding(n: nat): string {
    if n % 3 == 1 then "==" else if n % 3 == 2 then "=" else ""
  }

  /**
   * Base 64 encoding (`btoa` on the bytes of a Latin-1 string): the
   * significant characters followed by `=` up to a multiple of four.
   */
  function Encode(b: seq<byte>): (s: string)
    ensures forall i :: 0 <= i < |s| ==> IsAlphabetChar(s[i]) || s[i] == '='
    ensures forall i :: 0 <= i < |s| - 2 ==> IsAlphabetChar(s[i])
    ensures |s| >= 2 && s[|s| - 2] == '=' ==> s[|s| - 1] == '='
  {
    Unpadded(b) + Padding(|b|)
  }

  /** Length of the encoding of `n` bytes without padding. */
  function UnpaddedSize(n: nat): nat {
    if n % 3 == 0 then 4 * (n / 3) else 4 * (n / 3) + n % 3 + 1
  }

  lemma {:induction false} UnpaddedLength(b: seq<byte>)
    ensures |Unpadded(b)| == UnpaddedSize(|b|)
  {
    if |b| >= 3 {
      UnpaddedLength(b[3..]);
      assert |Unpadded(b)| == 4 + |Unpadded(b[3..])|;
      UnpaddedSizeStep(|b[3..]|);
    }
  }

  lemma UnpaddedSizeStep(n: nat)
    ensures UnpaddedSize(n + 3) == UnpaddedSize(n) + 4
  {
  }

  lemma {:induction false} UnpaddedRemainder(b: seq<byte>)
    ensures |Unpadded(b)| % 4 == if |b| % 3 == 0 then 0 else |b| % 3 + 1
  {
    UnpaddedLength(b);
    UnpaddedSizeRemainder(|b|);
  }

  lemma UnpaddedSizeRemainder(n: nat)
    ensures UnpaddedSize(n) % 4 == if n % 3 == 0 then 0 else n % 3 + 1
  {
  }

  /** Every started group of three bytes becomes four characters. */
  lemma EncodeLength(b: seq<byte>)
    ensures |Encode(b)| == 4 * ((|b| + 2) / 3)
  {
    UnpaddedLength(b);
    assert |Encode(b)| == |Unpadded(b)| + |Padding(|b|)|;
    PaddedSize(|b|);
  }

  lemma PaddedSize(n: nat)
    ensures UnpaddedSize(n) + |Padding(n)| == 4 * ((n + 2) / 3)
  {
  }

  /** ASCII white space, which the forgiving decoder skips. */
  predicate IsAsciiWhitespace(c: char) {
    c == '\t' || c == '\n' || c == '\U{000C}' || c == '\r' || c == ' '
  }

  function RemoveWhitespace(s: string): (r: string)
    ensures forall i :: 0 <= i < |r| ==> !IsAsciiWhitespace(r[i])
  {
    if s == [] then ""
    else if IsAsciiWhitespace(s[0]) then RemoveWhitespace(s[1..])
    else [s[0]] + RemoveWhitespace(s[1..])
  }

  lemma {:induction false} RemoveWhitespaceNone(s: string)
    requires forall i :: 0 <= i < |s| ==> !IsAsciiWhitespace(s[i])
    ensures RemoveWhitespace(s) == s
  {
    if s != [] {
      RemoveWhitespaceNone(s[1..]);
    }
  }

  /** A character that is not white space survives the removal of white space. */
  lemma {:induction false} RemoveWhitespaceKeeps(s: string, i: int)
    requires 0 <= i < |s| && !IsAsciiWhitespace(s[i])
    ensures s[i] in RemoveWhitespace(s)
  {
    if i > 0 {
      RemoveWhitespaceKeeps(s[1..], i - 1);
    }
  }

  /** When the length is a multiple of four, drop one or two trailing `=`. */
  function StripPadding(s: string): string {
    if |s| % 4 == 0 && |s| >= 2 && s[|s| - 1] == '=' && s[|s| - 2] == '=' then s[..|s| - 2]
    else if |s| % 4 == 0 && |s| >= 1 && s[|s| - 1] == '=' then s[..|s| - 1]
    else s
  }

  /** The three bytes of a full group of four characters. */
  function DecodeQuad(c0: char, c1: char, c2: char, c3: char): seq<byte>
    requires IsAlphabetChar(c0) && IsAlphabetChar(c1) && IsAlphabetChar(c2) && IsAlphabetChar(c3)
  {
    [ValueOf(c0) * 4 + ValueOf(c1) / 16, (ValueOf(c1) % 16) * 16 + ValueOf(c2) / 4, (ValueOf(c2) % 4) * 64 + ValueOf(c3)]
  }

  /** The bytes of a final group of two or three characters; the leftover bits are dropped. */
  function DecodeTail(s: string): seq<byte>
    requires AllAlphabet(s) && 2 <= |s| <= 3
  {
    if |s| == 2 then [ValueOf(s[0]) * 4 + ValueOf(s[1]) / 16]
    else [ValueOf(s[0]) * 4 + ValueOf(s[1]) / 16, (ValueOf(s[1]) % 16) * 16 + ValueOf(s[2]) / 4]
  }

  /** Bytes of unpadded base 64 text. */
  function DecodeChars(s: string): (b: seq<byte>)
    requires AllAlphabet(s) && |s| % 4 != 1
    ensures |b| == 3 * |s| / 4
  {
    if |s| == 0 then []
    else if |s| < 4 then DecodeTail(s)
    else DecodeQuad(s[0], s[1], s[2], s[3]) + DecodeChars(s[4..])
  }

  /** Forgiving base 64 decode (`atob` before its bytes become characters); `None` on failure. */
  function Decode(s: string): (r: Option<seq<byte>>)
    ensures r.Some? ==> |r.value| == 3 * |StripPadding(RemoveWhitespace(s))| / 4
  {
    var d := StripPadding(RemoveWhitespace(s));
    if |d| % 4 == 1 then None
    else if !AllAlphabet(d) then None
    else Some(DecodeChars(d))
  }

  lemma {:induction false} DecodeUnpadded(b: seq<byte>)
    ensures |Unpadded(b)| % 4 != 1 && DecodeChars(Unpadded(b)) == b
  {
    if |b| >= 3 {
      DecodeUnpadded(b[3..]);
      DecodeFirstGroup(b);
    } else {
      DecodeShort(b);
    }
  }

  /** The base case: no bytes, or a final group of one or two. */
  lemma DecodeShort(b: seq<byte>)
    requires |b| < 3
    ensures |Unpadded(b)| % 4 != 1 && DecodeChars(Unpadded(b)) == b
  {
    if |b| == 1 {
      assert Unpadded(b) == Tail([b[0]]);
      TailDecodes1(b[0]);
    } else if |b| == 2 {
      assert Unpadded(b) == Tail([b[0], b[1]]);
      TailDecodes2(b[0], b[1]);
    }
  }

  /** One round of the induction: the first three bytes come back from their four characters. */
  lemma DecodeFirstGroup(b: seq<byte>)
    requires |b| >= 3
    requires |Unpadded(b[3..])| % 4 != 1 && DecodeChars(Unpadded(b[3..])) == b[3..]
    ensures |Unpadded(b)| % 4 != 1 && DecodeChars(Unpadded(b)) == b
  {
    var g := Group3(b[0], b[1], b[2]);
    var rest := Unpadded(b[3..]);
    assert Unpadded(b) == g + rest;
    DecodeGroupStep(g, rest);
    Group3Decodes(b[0], b[1], b[2]);
    assert b == [b[0], b[1], b[2]] + b[3..];
  }

  lemma DecodeGroupStep(g: string, rest: string)
    requires |g| == 4 && AllAlphabet(g) && AllAlphabet(rest) && |rest| % 4 != 1
    ensures AllAlphabet(g + rest) && |g + rest| % 4 != 1
    ensures DecodeChars(g + rest) == DecodeQuad(g[0], g[1], g[2], g[3]) + DecodeChars(rest)
  {
    var s := g + rest;
    assert s[4..] == rest;
    assert s[0] == g[0] && s[1] == g[1] && s[2] == g[2] && s[3] == g[3];
  }

  lemma Group3Decodes(b0: byte, b1: byte, b2: byte)
    ensures var g := Group3(b0, b1, b2); DecodeQuad(g[0], g[1], g[2], g[3]) == [b0, b1, b2]
  {
    ValueOfCharOf(b0 / 4);
    ValueOfCharOf((b0 % 4) * 16 + b1 / 16);
    ValueOfCharOf((b1 % 16) * 4 + b2 / 64);
    ValueOfCharOf(b2 % 64);
    FirstByte(b0, b1 / 16);
    SecondByte(b0 % 4, b1, b2 / 64);
    ThirdByte(b1 % 16, b2);
  }

  lemma TailDecodes1(b0: byte)
    ensures DecodeTail(Tail([b0])) == [b0]
  {
    ValueOfCharOf(b0 / 4);
    ValueOfCharOf((b0 % 4) * 16);
    FirstByte(b0, 0);
  }

  lemma TailDecodes2(b0: byte, b1: byte)
    ensures DecodeTail(Tail([b0, b1])) == [b0, b1]
  {
    ValueOfCharOf(b0 / 4);
    ValueOfCharOf((b0 % 4) * 16 + b1 / 16);
    ValueOfCharOf((b1 % 16) * 4);
    FirstByte(b0, b1 / 16);
    SecondByte(b0 % 4, b1, 0);
  }

  // The bit fields of the three bytes, put back together from the four sextets.

  lemma FirstByte(b0: byte, hi: int)
    requires 0 <= hi < 16
    ensures (b0 / 4) * 4 + ((b0 % 4) * 16 + hi) / 16 == b0
  {
    assert ((b0 % 4) * 16 + hi) / 16 == b0 % 4;
  }

  lemma SecondByte(lo: int, b1: byte, hi: int)
    requires 0 <= lo < 4 && 0 <= hi < 4
    ensures ((lo * 16 + b1 / 16) % 16) * 16 + ((b1 % 16) * 4 + hi) / 4 == b1
  {
    assert (lo * 16 + b1 / 16) % 16 == b1 / 16;
    assert ((b1 % 16) * 4 + hi) / 4 == b1 % 16;
  }

  lemma ThirdByte(lo: int, b2: byte)
    requires 0 <= lo < 16
    ensures ((lo * 4 + b2 / 64) % 4) * 64 + b2 % 64 == b2
  {
    assert (lo * 4 + b2 / 64) % 4 == b2 / 64;
  }

  /** Stripping the padding of an encoding leaves its significant characters. */
  lemma StripEncoding(b: seq<byte>)
    ensures StripPadding(Unpadded(b) + Padding(|b|)) == Unpadded(b)
  {
    var u := Unpadded(b);
    UnpaddedRemainder(b);
    if |b| % 3 == 0 {
      assert u + Padding(|b|) == u;
      StripNone(u);
    } else if |b| % 3 == 1 {
      StripTwo(u);
    } else {
      StripOne(u);
    }
  }

  lemma StripNone(u: string)
    requires AllAlphabet(u) && |u| % 4 == 0
    ensures StripPadding(u) == u
  {
    assert u != [] ==> IsAlphabetChar(u[|u| - 1]);
  }

  lemma StripTwo(u: string)
    requires AllAlphabet(u) && |u| % 4 == 2
    ensures StripPadding(u + "==") == u
  {
    var s := u + "==";
    assert s[..|s| - 2] == u;
  }

  lemma StripOne(u: string)
    requires AllAlphabet(u) && |u| % 4 == 3
    ensures StripPadding(u + "=") == u
  {
    var s := u + "=";
    assert s[|s| - 2] == u[|u| - 1];
    assert s[..|s| - 1] == u;
  }

  /** Decoding an encoding gives back the bytes. */
  lemma DecodeEncode(b: seq<byte>)
    ensures Decode(Encode(b)) == Some(b)
  {
    RemoveWhitespaceNone(Encode(b));
    assert Encode(b) == Unpadded(b) + Padding(|b|);
    StripEncoding(b);
    DecodeUnpadded(b);
  }

  /** A character outside the alphabet, other than white space or trailing padding, makes decoding fail. */
  lemma DecodeRejectsForeignChar(s: string)
    requires exists i :: 0 <= i < |s| && !IsAlphabetChar(s[i]) && s[i] != '=' && !IsAsciiWhitespace(s[i])
    ensures Decode(s) == None
  {
    var i :| 0 <= i < |s| && !IsAlphabetChar(s[i]) && s[i] != '=' && !IsAsciiWhitespace(s[i]);
    var r := RemoveWhitespace(s);
    RemoveWhitespaceKeeps(s, i);
    var j :| 0 <= j < |r| && r[j] == s[i];
    var d := StripPadding(r);
    assert d == r[..|d|];
    assert j < |d|;
    assert d[j] == s[i];
  }

  /** After white space and padding are dropped, a length of `4k + 1` is never valid. */
  lemma DecodeRejectsLengthOneModFour(s: string)
    requires |StripPadding(RemoveWhitespace(s))| % 4 == 1
    ensures Decode(s) == None
  {
  }

  /** A string whose characters are all at most U+00FF, so that `btoa` accepts it. */
  predicate Latin1(s: string) {
    forall i :: 0 <= i < |s| ==> s[i] as int < 256
  }

  function BytesOf(s: string): (b: seq<byte>)
    requires Latin1(s)
    ensures |b| == |s| && forall i :: 0 <= i < |s| ==> b[i] == s[i] as int
  {
    if s == [] then [] else [s[0] as int as byte] + BytesOf(s[1..])
  }

  function CharsOf(b: seq<byte>): (s: string)
    ensures |s| == |b| && forall i :: 0 <= i < |b| ==> s[i] as int == b[i]
    ensures Latin1(s)
  {
    if b == [] then [] else [b[0] as char] + CharsOf(b[1..])
  }

  /** `btoa(s)`; it throws on a character above U+00FF, which the precondition rules out. */
  function Btoa(s: string): (r: string)
    requires Latin1(s)
    ensures |r| == 4 * ((|s| + 2) / 3)
  {
    EncodeLength(BytesOf(s));
    Encode(BytesOf(s))
  }

  /** `atob(s)`: `None` where `atob` throws. */
  function Atob(s: string): (r: Option<string>)
    ensures r.Some? ==> Latin1(r.value)
  {
    match Decode(s)
    case None => None
    case Some(b) => Some(CharsOf(b))
  }

  lemma AtobBtoa(s: string)
    requires Latin1(s)
    ensures Atob(Btoa(s)) == Some(s)
  {
    DecodeEncode(BytesOf(s));
    assert CharsOf(BytesOf(s)) == s;
  }
}
