/** Base64 as the browser's `btoa` and `atob` implement it: encoding with the
    alphabet and padding of section 4 of RFC 4648, and decoding with the
    "forgiving-base64 decode" of the WHATWG Infra standard (ASCII whitespace is
    dropped, padding is optional, leftover bits of a final partial group are
    discarded). */
module Base64 {
  import opened Wrappers
  import opened Bytes

  /** Characters of the base64 alphabet (Table 1 of RFC 4648). */
  predicate IsBase64Char(c: char) {
    ('A' <= c <= 'Z') || ('a' <= c <= 'z') || ('0' <= c <= '9') || c == '+' || c == '/'
  }

  predicate AllBase64Chars(s: string) {
    forall i :: 0 <= i < |s| ==> IsBase64Char(s[i])
  }

  /** The character that encodes a 6-bit value. */
  function EncodeSextet(v: int): (c: char)
    requires 0 <= v < 64
    ensures IsBase64Char(c)
  {
    if v < 26 then ('A' as int + v) as char
    else if v < 52 then ('a' as int + (v - 26)) as char
    else if v < 62 then ('0' as int + (v - 52)) as char
    else if v == 62 then '+'
    else '/'
  }

  /** The 6-bit value an alphabet character stands for. */
  function DecodeSextet(c: char): (v: int)
    requires IsBase64Char(c)
    ensures 0 <= v < 64
    ensures EncodeSextet(v) == c
  {
    if 'A' <= c <= 'Z' then c as int - 'A' as int
    else if 'a' <= c <= 'z' then c as int - 'a' as int + 26
    else if '0' <= c <= '9' then c as int - '0' as int + 52
    else if c == '+' then 62
    else 63
  }

  lemma SextetRoundTrip(v: int)
    requires 0 <= v < 64
    ensures DecodeSextet(EncodeSextet(v)) == v
  {
  }

  /** The four sextets of the 24 bits of a group of one to three bytes,
      missing bytes taken as zero. */
  function GroupSextets(g: seq<uint8>): (v: seq<int>)
    requires 1 <= |g| <= 3
    ensures |v| == 4 && forall i :: 0 <= i < 4 ==> 0 <= v[i] < 64
  {
    var b0 := g[0] as int;
    var b1 := if |g| > 1 then g[1] as int else 0;
    var b2 := if |g| > 2 then g[2] as int else 0;
    [b0 / 4, (b0 % 4) * 16 + b1 / 16, (b1 % 16) * 4 + b2 / 64, b2 % 64]
  }

  /** The characters for one group of one to three bytes: the first
      `|g| + 1` of its sextets, each as an alphabet character. */
  function EncodeGroup(g: seq<uint8>): (q: string)
    requires 1 <= |g| <= 3
    ensures |q| == |g| + 1 && AllBase64Chars(q)
  {
    var v := GroupSextets(g);
    [EncodeSextet(v[0]), EncodeSextet(v[1]), EncodeSextet(v[2]), EncodeSextet(v[3])][..|g| + 1]
  }

  /** The alphabet characters for `b`, three bytes to four characters, a final
      group of one or two bytes giving two or three characters; no padding. */
  function EncodeUnpadded(b: seq<uint8>): (s: string)
    ensures 4 * |b| <= 3 * |s| <= 4 * |b| + 2
    ensures AllBase64Chars(s)
    decreases |b|
  {
    if |b| == 0 then ""
    else if |b| <= 3 then EncodeGroup(b)
    else EncodeGroup(b[..3]) + EncodeUnpadded(b[3..])
  }

  /** The `=` characters that complete the last group to four characters. */
  function Padding(n: nat): (p: string)
    ensures (4 * n + 2) / 3 + |p| == 4 * ((n + 2) / 3)
    ensures forall i :: 0 <= i < |p| ==> p[i] == '='
  {
    if n % 3 == 1 then "==" else if n % 3 == 2 then "=" else ""
  }

  /** Section 4 of RFC 4648: the padded base64 encoding of `b`. */
  function Encode(b: seq<uint8>): (s: string)
    ensures |s| == 4 * ((|b| + 2) / 3) && |s| % 4 == 0
    ensures forall i :: 0 <= i < |s| ==> IsBase64Char(s[i]) || s[i] == '='
  {
    var u, p := EncodeUnpadded(b), Padding(|b|);
    EncodedLength(|b|, |u|, |p|);
    u + p
  }

  /** Alphabet characters and padding add up to whole groups of four. */
  lemma EncodedLength(n: nat, m: nat, k: nat)
    requires 4 * n <= 3 * m <= 4 * n + 2
    requires (4 * n + 2) / 3 + k == 4 * ((n + 2) / 3)
    ensures m + k == 4 * ((n + 2) / 3) && (m + k) % 4 == 0
  {
    assert m == (4 * n + 2) / 3;
  }

  /** The bytes of one group of two to four characters: the sextets put
      back together, eight bits at a time; the bits left over after the last
      whole byte are dropped. */
  function DecodeGroup(q: string): (g: seq<uint8>)
    requires 2 <= |q| <= 4 && AllBase64Chars(q)
    ensures |g| == |q| - 1
  {
    var v0, v1 := DecodeSextet(q[0]), DecodeSextet(q[1]);
    var v2 := if |q| > 2 then DecodeSextet(q[2]) else 0;
    var v3 := if |q| > 3 then DecodeSextet(q[3]) else 0;
    var g := [(v0 * 4 + v1 / 16) as uint8, ((v1 % 16) * 16 + v2 / 4) as uint8,
              ((v2 % 4) * 64 + v3) as uint8];
    g[..|q| - 1]
  }

  /** The bytes of a string of alphabet characters with no padding, four
      characters to three bytes; a final group of two or three characters gives
      one or two bytes. */
  function DecodeUnpadded(s: string): (b: seq<uint8>)
    requires |s| % 4 != 1 && AllBase64Chars(s)
    ensures 4 * |b| <= 3 * |s| < 4 * |b| + 4
    decreases |s|
  {
    if |s| == 0 then []
    else if |s| <= 4 then DecodeGroup(s)
    else DecodeGroup(s[..4]) + DecodeUnpadded(s[4..])
  }

  /** ASCII whitespace in the sense of the WHATWG Infra standard. */
  predicate IsAsciiWhitespace(c: char) {
    c == '\t' || c == '\n' || c == '\U{000C}' || c == '\r' || c == ' '
  }

  /** `s` with every ASCII whitespace character removed: every other
      character is kept, as often as it occurs. */
  function StripWhitespace(s: string): (t: string)
    ensures |t| <= |s|
    ensures forall i :: 0 <= i < |t| ==> !IsAsciiWhitespace(t[i])
    ensures forall c {:trigger multiset(t)[c]} :: !IsAsciiWhitespace(c) ==> multiset(t)[c] == multiset(s)[c]
  {
    if s == [] then []
    else
      assert s == [s[0]] + s[1..];
      if IsAsciiWhitespace(s[0]) then StripWhitespace(s[1..])
      else [s[0]] + StripWhitespace(s[1..])
  }

  /** Removing whitespace keeps the order of what is left: it works piece by
      piece. */
  lemma {:induction false} StripWhitespaceAppend(a: string, b: string)
    ensures StripWhitespace(a + b) == StripWhitespace(a) + StripWhitespace(b)
  {
    if a == [] {
      assert a + b == b;
    } else {
      assert (a + b)[0] == a[0];
      assert (a + b)[1..] == a[1..] + b;
      StripWhitespaceAppend(a[1..], b);
      var rest := StripWhitespace(a[1..]) + StripWhitespace(b);
      if !IsAsciiWhitespace(a[0]) {
        assert [a[0]] + rest == ([a[0]] + StripWhitespace(a[1..])) + StripWhitespace(b);
      }
    }
  }

  /** `s` without the one or two `=` it ends with: only '=' is removed, and
      only when it is there. */
  function StripPadding(s: string): (t: string)
    ensures |s| - 2 <= |t| <= |s| && t == s[..|t|]
    ensures forall i :: |t| <= i < |s| ==> s[i] == '='
    ensures |t| == |s| ==> |s| == 0 || s[|s| - 1] != '='
    ensures |t| == |s| - 1 ==> |s| == 1 || s[|s| - 2] != '='
  {
    if |s| >= 2 && s[|s| - 1] == '=' && s[|s| - 2] == '=' then s[..|s| - 2]
    else if |s| >= 1 && s[|s| - 1] == '=' then s[..|s| - 1]
    else s
  }

  /** The forgiving-base64 decode of the WHATWG Infra standard, which `atob`
      applies; `None` is the failure `atob` reports as an InvalidCharacterError.
      Once whitespace is gone, a length of one more than a multiple of four is
      refused, and three bytes come from every four characters at most. */
  function ForgivingDecode(s: string): (r: Option<seq<uint8>>)
    ensures |StripWhitespace(s)| % 4 == 1 ==> r.None?
    ensures r.Some? ==> 4 * |r.value| <= 3 * |StripWhitespace(s)|
  {
    var t := StripWhitespace(s);
    var u := if |t| % 4 == 0 then StripPadding(t) else t;
    if |u| % 4 == 1 || !AllBase64Chars(u) then None
    else Some(DecodeUnpadded(u))
  }

  /** A character outside the alphabet, other than whitespace and '=', makes
      the forgiving decode fail wherever it stands. */
  lemma ForgivingDecodeRejects(s: string, i: int)
    requires 0 <= i < |s| && !IsAsciiWhitespace(s[i]) && !IsBase64Char(s[i]) && s[i] != '='
    ensures ForgivingDecode(s).None?
  {
    var c := s[i];
    var t := StripWhitespace(s);
    var u := if |t| % 4 == 0 then StripPadding(t) else t;
    assert c in multiset(s);
    assert c in multiset(t);
    var j :| 0 <= j < |t| && t[j] == c;
    assert j < |u| && u[j] == c;
  }

  /** `btoa`: fails (InvalidCharacterError) on a character above U+00FF,
      otherwise encodes the string's character codes. */
  function BtoA(s: string): (r: Option<string>)
    ensures r.Some? <==> IsBinaryString(s)
    ensures r.Some? ==> r.value == Encode(CharCodes(s))
  {
    if IsBinaryString(s) then Some(Encode(CharCodes(s))) else None
  }

  /** `atob`: the decoded bytes as a binary string. */
  function AtoB(s: string): (r: Option<string>)
    ensures r.Some? <==> ForgivingDecode(s).Some?
    ensures r.Some? ==> IsBinaryString(r.value) && CharCodes(r.value) == ForgivingDecode(s).value
  {
    match ForgivingDecode(s)
    case None => None
    case Some(b) => CharCodesOfBinaryString(b); Some(BinaryString(b))
  }

  // ---------------------------------------------------------------------------
  // Round trip: decoding what was encoded gives the bytes back.

  /** The first byte of a group from its first two sextets. */
  lemma FirstByteArithmetic(b0: int, b1: int)
    requires 0 <= b0 < 256 && 0 <= b1 < 256
    ensures (b0 / 4) * 4 + ((b0 % 4) * 16 + b1 / 16) / 16 == b0
  {
    assert ((b0 % 4) * 16 + b1 / 16) / 16 == b0 % 4;
  }

  /** The second byte of a group from its second and third sextets. */
  lemma SecondByteArithmetic(b0: int, b1: int, b2: int)
    requires 0 <= b0 < 256 && 0 <= b1 < 256 && 0 <= b2 < 256
    ensures (((b0 % 4) * 16 + b1 / 16) % 16) * 16 + ((b1 % 16) * 4 + b2 / 64) / 4 == b1
  {
    assert ((b0 % 4) * 16 + b1 / 16) % 16 == b1 / 16;
    assert ((b1 % 16) * 4 + b2 / 64) / 4 == b1 % 16;
  }

  /** The third byte of a group from its last two sextets. */
  lemma ThirdByteArithmetic(b1: int, b2: int)
    requires 0 <= b1 < 256 && 0 <= b2 < 256
    ensures (((b1 % 16) * 4 + b2 / 64) % 4) * 64 + b2 % 64 == b2
  {
    assert ((b1 % 16) * 4 + b2 / 64) % 4 == b2 / 64;
  }

  /** Each character of an encoded group decodes to its sextet. */
  lemma GroupCharacters(g: seq<uint8>, i: int)
    requires 1 <= |g| <= 3 && 0 <= i <= |g|
    ensures DecodeSextet(EncodeGroup(g)[i]) == GroupSextets(g)[i]
  {
    SextetRoundTrip(GroupSextets(g)[i]);
  }

  /** The first byte of a group survives encoding and decoding. */
  lemma FirstByteRoundTrip(g: seq<uint8>)
    requires 1 <= |g| <= 3
    ensures DecodeGroup(EncodeGroup(g))[0] == g[0]
  {
    GroupCharacters(g, 0);
    GroupCharacters(g, 1);
    FirstByteArithmetic(g[0] as int, if |g| > 1 then g[1] as int else 0);
  }

  /** The second byte of a group survives encoding and decoding. */
  lemma SecondByteRoundTrip(g: seq<uint8>)
    requires 2 <= |g| <= 3
    ensures DecodeGroup(EncodeGroup(g))[1] == g[1]
  {
    GroupCharacters(g, 1);
    GroupCharacters(g, 2);
    SecondByteArithmetic(g[0] as int, g[1] as int, if |g| > 2 then g[2] as int else 0);
  }

  /** The third byte of a group survives encoding and decoding. */
  lemma ThirdByteRoundTrip(g: seq<uint8>)
    requires |g| == 3
    ensures DecodeGroup(EncodeGroup(g))[2] == g[2]
  {
    GroupCharacters(g, 2);
    GroupCharacters(g, 3);
    ThirdByteArithmetic(g[1] as int, g[2] as int);
  }

  /** A group of one to three bytes survives encoding and decoding. */
  lemma GroupRoundTrip(g: seq<uint8>)
    requires 1 <= |g| <= 3
    ensures DecodeGroup(EncodeGroup(g)) == g
  {
    FirstByteRoundTrip(g);
    if |g| > 1 {
      SecondByteRoundTrip(g);
    }
    if |g| > 2 {
      ThirdByteRoundTrip(g);
    }
    SameBytes(DecodeGroup(EncodeGroup(g)), g);
  }

  /** Two groups of bytes of the same length that agree at each position are equal. */
  lemma SameBytes(d: seq<uint8>, g: seq<uint8>)
    requires 1 <= |g| <= 3 && |d| == |g| && d[0] == g[0]
    requires |g| > 1 ==> d[1] == g[1]
    requires |g| > 2 ==> d[2] == g[2]
    ensures d == g
  {
    assert forall k :: 0 <= k < |g| ==> d[k] == g[k];
  }

  /** An unpadded encoding never leaves a single character in its last group. */
  lemma UnpaddedLength(n: nat, m: nat)
    requires 4 * n <= 3 * m <= 4 * n + 2
    ensures m % 4 != 1
  {
    assert m == 4 * (m / 4) + m % 4;
  }

  /** Decoding an encoding with more than one group: the first group, then the rest. */
  lemma DecodeAfterFirstGroup(b: seq<uint8>)
    requires |b| > 3
    requires |EncodeUnpadded(b[3..])| % 4 != 1
    ensures |EncodeUnpadded(b)| % 4 != 1
    ensures |EncodeUnpadded(b)| > 4
    ensures DecodeUnpadded(EncodeUnpadded(b))
         == DecodeGroup(EncodeGroup(b[..3])) + DecodeUnpadded(EncodeUnpadded(b[3..]))
  {
    UnpaddedLength(|b|, |EncodeUnpadded(b)|);
    var s := EncodeUnpadded(b);
    var head, tail := EncodeGroup(b[..3]), EncodeUnpadded(b[3..]);
    assert s == head + tail;
    assert |head| == 4;
    assert s[..4] == head;
    assert s[4..] == tail;
    DecodeFirstGroup(s);
  }

  /** Decoding more than one group: the first group, then the rest. */
  lemma DecodeFirstGroup(s: string)
    requires |s| > 4 && |s| % 4 != 1 && AllBase64Chars(s)
    ensures DecodeUnpadded(s) == DecodeGroup(s[..4]) + DecodeUnpadded(s[4..])
  {
  }

  lemma {:induction false} UnpaddedRoundTrip(b: seq<uint8>)
    ensures |EncodeUnpadded(b)| % 4 != 1
    ensures DecodeUnpadded(EncodeUnpadded(b)) == b
    decreases |b|
  {
    UnpaddedLength(|b|, |EncodeUnpadded(b)|);
    if 1 <= |b| <= 3 {
      GroupRoundTrip(b);
    } else if |b| > 3 {
      UnpaddedRoundTrip(b[3..]);
      DecodeAfterFirstGroup(b);
      GroupRoundTrip(b[..3]);
      assert b == b[..3] + b[3..];
    }
  }

  lemma {:induction false} StripWhitespaceNoop(s: string)
    requires forall i :: 0 <= i < |s| ==> !IsAsciiWhitespace(s[i])
    ensures StripWhitespace(s) == s
  {
    if s != [] {
      StripWhitespaceNoop(s[1..]);
    }
  }

  /** Whitespace removal leaves an encoding as it is. */
  lemma EncodeHasNoWhitespace(b: seq<uint8>)
    ensures StripWhitespace(Encode(b)) == Encode(b)
  {
    var s := Encode(b);
    assert forall i :: 0 <= i < |s| ==> !IsAsciiWhitespace(s[i]);
    StripWhitespaceNoop(s);
  }

  /** Alphabet characters followed by at most two '=' lose exactly the '='. */
  lemma StripPaddingOfPadded(u: string, p: string)
    requires AllBase64Chars(u)
    requires p == "" || p == "==" || (p == "=" && |u| > 0)
    ensures StripPadding(u + p) == u
  {
    var s := u + p;
    if p == "" {
      assert s == u;
      assert |u| > 0 ==> IsBase64Char(u[|u| - 1]);
    } else if p == "==" {
      assert s[..|s| - 2] == u;
    } else {
      assert s[|s| - 2] == u[|u| - 1];
      assert s[..|s| - 1] == u;
    }
  }

  /** Removing the padding of an encoding leaves exactly its alphabet characters. */
  lemma StripPaddingOfEncode(b: seq<uint8>)
    ensures StripPadding(Encode(b)) == EncodeUnpadded(b)
  {
    var u, p := EncodeUnpadded(b), Padding(|b|);
    assert Encode(b) == u + p;
    assert p == "=" ==> |b| > 0 && |u| > 0;
    StripPaddingOfPadded(u, p);
  }

  /** Section 4 of RFC 4648 and the forgiving decode agree: `atob`'s decode
      undoes `btoa`'s encode for every byte sequence. */
  lemma DecodeEncode(b: seq<uint8>)
    ensures ForgivingDecode(Encode(b)) == Some(b)
  {
    EncodeHasNoWhitespace(b);
    StripPaddingOfEncode(b);
    UnpaddedRoundTrip(b);
  }

  /** Padding is optional for the forgiving decode: the encoding without its
      '=' characters decodes to the same bytes. */
  lemma ForgivingDecodeUnpadded(b: seq<uint8>)
    ensures ForgivingDecode(EncodeUnpadded(b)) == Some(b)
  {
    var u := EncodeUnpadded(b);
    assert forall i :: 0 <= i < |u| ==> !IsAsciiWhitespace(u[i]);
    StripWhitespaceNoop(u);
    StripPaddingOfPadded(u, "");
    assert u + "" == u;
    UnpaddedRoundTrip(b);
  }

  /** `atob(btoa(x)) == x` for every binary string `x`. */
  lemma AtoBBtoA(s: string)
    requires IsBinaryString(s)
    ensures BtoA(s).Some? && AtoB(BtoA(s).value) == Some(s)
  {
    DecodeEncode(CharCodes(s));
    CharCodesOfBinaryString(CharCodes(s));
    BinaryStringOfCharCodes(s);
  }
}
