// UTF-8, and the Base64 form of section 6.8 of RFC 2045.
module Encodings {
  import opened Wrappers

  type Byte = b: int | 0 <= b < 256

  // ---------------------------------------------------------------------------
  // UTF-8
  // ---------------------------------------------------------------------------

  function Utf8Char(c: char): (r: seq<Byte>)
    ensures 1 <= |r| <= 4
  {
    var x := c as int;
    if x < 0x80 then [x]
    else if x < 0x800 then [0xC0 + x / 64, 0x80 + x % 64]
    else if x < 0x10000 then [0xE0 + x / 4096, 0x80 + x / 64 % 64, 0x80 + x % 64]
    else [0xF0 + x / 262144, 0x80 + x / 4096 % 64, 0x80 + x / 64 % 64, 0x80 + x % 64]
  }

  function Utf8(s: string): seq<Byte> {
    if s == "" then [] else Utf8Char(s[0]) + Utf8(s[1..])
  }

  /** Characters of each width, from section 7 of RFC 3629. */
  lemma ExamplesOfUtf8()
    ensures Utf8Char('A') == [0x41] && Utf8Char('\U{0391}') == [0xCE, 0x91]
    ensures Utf8Char('\U{2262}') == [0xE2, 0x89, 0xA2] && Utf8Char('\U{233B4}') == [0xF0, 0xA3, 0x8E, 0xB4]
  {
  }

  predicate IsScalar(x: int) {
    0 <= x < 0xD800 || 0xE000 <= x < 0x110000
  }

  function Scalar(x: int, least: int): Option<char> {
    if least <= x && IsScalar(x) then Some(x as char) else None
  }

  /** How many bytes the first character takes; 0 if its first byte starts none. */
  function Width(b: Byte): nat {
    if b < 0x80 then 1 else if b < 0xC0 then 0 else if b < 0xE0 then 2 else if b < 0xF0 then 3 else if b < 0xF8 then 4 else 0
  }

  predicate Continues(b: Byte) {
    0x80 <= b < 0xC0
  }

  /** The number that a character of `w` bytes carries. */
  function Code(bs: seq<Byte>, w: nat): int
    requires 1 <= w <= 4 && w <= |bs|
  {
    if w == 1 then bs[0] as int
    else if w == 2 then bs[0] as int % 32 * 64 + bs[1] as int % 64
    else if w == 3 then bs[0] as int % 16 * 4096 + bs[1] as int % 64 * 64 + bs[2] as int % 64
    else bs[0] as int % 8 * 262144 + bs[1] as int % 64 * 4096 + bs[2] as int % 64 * 64 + bs[3] as int % 64
  }

  function Least(w: nat): int {
    if w == 1 then 0 else if w == 2 then 0x80 else if w == 3 then 0x800 else 0x10000
  }

  /** The first character of well-formed UTF-8. */
  function FirstChar(bs: seq<Byte>): Option<char>
    requires bs != []
  {
    var w := Width(bs[0]);
    if w == 0 || |bs| < w || !(forall i :: 1 <= i < w ==> Continues(bs[i])) then None
    else Scalar(Code(bs, w), Least(w))
  }

  function DecodeUtf8(bs: seq<Byte>): (r: Option<string>)
    ensures r.Some? ==> |r.value| <= |bs|
    decreases |bs|
  {
    if bs == [] then Some("")
    else if FirstChar(bs).None? then None
    else
      var rest := DecodeUtf8(bs[Width(bs[0])..]);
      if rest.Some? then Some([FirstChar(bs).value] + rest.value) else None
  }

  lemma ScalarRoundTrip(c: char, least: int)
    requires least <= c as int
    ensures Scalar(c as int, least) == Some(c)
  {
  }

  lemma CodeRoundTrip(c: char, rest: seq<Byte>)
    ensures var bs, w := Utf8Char(c) + rest, |Utf8Char(c)|;
      Width(bs[0]) == w && (forall i :: 1 <= i < w ==> Continues(bs[i])) && Code(bs, w) == c as int >= Least(w)
  {
    var u, x := Utf8Char(c), c as int;
    assert forall i :: 0 <= i < |u| ==> (u + rest)[i] == u[i];
    Digits(x);
    Tail(x % 64);
    Tail(x / 64 % 64);
    Tail(x / 4096 % 64);
    Heads(x);
  }

  lemma Tail(k: int)
    requires 0 <= k < 64
    ensures (0x80 + k) % 64 == k
  {
  }

  lemma Heads(x: int)
    ensures 0 <= x < 0x800 ==> (0xC0 + x / 64) % 32 == x / 64
    ensures 0 <= x < 0x10000 ==> (0xE0 + x / 4096) % 16 == x / 4096
    ensures 0 <= x < 0x200000 ==> (0xF0 + x / 262144) % 8 == x / 262144
  {
  }

  lemma FirstCharRoundTrip(c: char, rest: seq<Byte>)
    ensures FirstChar(Utf8Char(c) + rest) == Some(c) && Width((Utf8Char(c) + rest)[0]) == |Utf8Char(c)|
  {
    hide Utf8Char, Code, Scalar, Width, Continues;
    CodeRoundTrip(c, rest);
    ScalarRoundTrip(c, Least(|Utf8Char(c)|));
  }

  lemma Digits(x: int)
    requires x >= 0
    ensures x == x / 64 * 64 + x % 64
    ensures x == x / 4096 * 4096 + x / 64 % 64 * 64 + x % 64
    ensures x == x / 262144 * 262144 + x / 4096 % 64 * 4096 + x / 64 % 64 * 64 + x % 64
  {
    assert x / 4096 == x / 64 / 64;
    assert x / 262144 == x / 4096 / 64;
  }

  lemma {:induction false} Utf8RoundTrip(s: string)
    ensures DecodeUtf8(Utf8(s)) == Some(s)
    decreases |s|
  {
    if s != "" {
      var rest := Utf8(s[1..]);
      FirstCharRoundTrip(s[0], rest);
      assert (Utf8Char(s[0]) + rest)[|Utf8Char(s[0])|..] == rest;
      Utf8RoundTrip(s[1..]);
      assert s == [s[0]] + s[1..];
    }
  }

  // ---------------------------------------------------------------------------
  // Base64
  // ---------------------------------------------------------------------------

  function Base64Char(d: int): char
    requires 0 <= d < 64
  {
    if d < 26 then 'A' + d as char
    else if d < 52 then 'a' + (d - 26) as char
    else if d < 62 then '0' + (d - 52) as char
    else if d == 62 then '+' else '/'
  }

  function Base64Digit(c: char): (r: Option<int>)
    ensures r.Some? ==> 0 <= r.value < 64
  {
    if 'A' <= c <= 'Z' then Some(c as int - 'A' as int)
    else if 'a' <= c <= 'z' then Some(c as int - 'a' as int + 26)
    else if '0' <= c <= '9' then Some(c as int - '0' as int + 52)
    else if c == '+' then Some(62) else if c == '/' then Some(63) else None
  }

  lemma DigitRoundTrip(d: int)
    requires 0 <= d < 64
    ensures Base64Digit(Base64Char(d)) == Some(d) && Base64Char(d) !in "=-\r\n\""
  {
  }

  function Base64(bs: seq<Byte>): string {
    if bs == [] then ""
    else if |bs| == 1 then [Base64Char(bs[0] / 4), Base64Char(bs[0] % 4 * 16), '=', '=']
    else if |bs| == 2 then
      [Base64Char(bs[0] / 4), Base64Char(bs[0] % 4 * 16 + bs[1] / 16), Base64Char(bs[1] % 16 * 4), '=']
    else
      [Base64Char(bs[0] / 4), Base64Char(bs[0] % 4 * 16 + bs[1] / 16), Base64Char(bs[1] % 16 * 4 + bs[2] / 64), Base64Char(bs[2] % 64)]
      + Base64(bs[3..])
  }

  /** The alphabet of table 1 in section 6.8 of RFC 2045. */
  lemma AlphabetIsStandard(d: int)
    requires 0 <= d < 64
    ensures Base64Char(d) ==
      ("ABCDEFGHIJKLM" + "NOPQRSTUVWXYZ" + "abcdefghijklm" + "nopqrstuvwxyz" + "0123456789+/")[d]
  {
    if d < 26 { LettersFollow(d); } else if d < 52 { SmallLettersFollow(d - 26); } else { DigitsFollow(d - 52); }
  }

  lemma LettersFollow(d: int)
    requires 0 <= d < 26
    ensures ("ABCDEFGHIJKLM" + "NOPQRSTUVWXYZ")[d] == 'A' + d as char
  {
  }

  lemma SmallLettersFollow(d: int)
    requires 0 <= d < 26
    ensures ("abcdefghijklm" + "nopqrstuvwxyz")[d] == 'a' + d as char
  {
  }

  lemma DigitsFollow(d: int)
    requires 0 <= d < 12
    ensures "0123456789+/"[d] == if d < 10 then '0' + d as char else if d == 10 then '+' else '/'
  {
  }

  /** Groups of three bytes, and the two kinds of padding, as section 10 of RFC 4648 shows them. */
  lemma ExamplesOfBase64()
    ensures Base64([0x66, 0x6F, 0x6F]) == "Zm9v" && Base64([0x66, 0x6F]) == "Zm8=" && Base64([0x66]) == "Zg=="
    ensures Base64([0x66, 0x6F, 0x6F, 0x62, 0x61, 0x72]) == "Zm9vYmFy"
  {
    assert [0x66, 0x6F, 0x6F][3..] == [];
    assert Base64([0x66, 0x6F, 0x6F]) == "Zm9v";
    var six := [0x66, 0x6F, 0x6F, 0x62, 0x61, 0x72];
    assert six[3..] == [0x62, 0x61, 0x72] && [0x62, 0x61, 0x72][3..] == [];
    assert Base64([0x62, 0x61, 0x72]) == "YmFy";
    assert Base64(six) == ['Z', 'm', '9', 'v'] + Base64(six[3..]);
  }

  function Two(a: int, b: int): Byte
    requires 0 <= a < 64 && 0 <= b < 64
  {
    a * 4 + b / 16
  }

  function Next(b: int, c: int): Byte
    requires 0 <= b < 64 && 0 <= c < 64
  {
    b % 16 * 16 + c / 4
  }

  function Last(c: int, d: int): Byte
    requires 0 <= c < 64 && 0 <= d < 64
  {
    c % 4 * 64 + d
  }

  function DecodeBase64(s: string): (r: Option<seq<Byte>>)
    ensures r.Some? ==> |r.value| <= |s|
    decreases |s|
  {
    if s == "" then Some([])
    else if |s| < 4 then None
    else
      var a, b, c, d := Base64Digit(s[0]), Base64Digit(s[1]), Base64Digit(s[2]), Base64Digit(s[3]);
      if a.None? || b.None? then None
      else if |s| == 4 && s[2] == '=' && s[3] == '=' then Some([Two(a.value, b.value)])
      else if c.None? then None
      else if |s| == 4 && s[3] == '=' then Some([Two(a.value, b.value), Next(b.value, c.value)])
      else if d.None? then None
      else
        var rest := DecodeBase64(s[4..]);
        if rest.Some? then Some([Two(a.value, b.value), Next(b.value, c.value), Last(c.value, d.value)] + rest.value) else None
  }

  ghost predicate IsBase64Text(s: string) {
    forall c :: c in s ==> c !in "-\r\n\""
  }

  lemma GroupRoundTrip(x: Byte, y: Byte, z: Byte)
    ensures Two(x / 4, x % 4 * 16 + y / 16) == x && Two(x / 4, x % 4 * 16) == x
    ensures Next(x % 4 * 16 + y / 16, y % 16 * 4 + z / 64) == y && Next(x % 4 * 16 + y / 16, y % 16 * 4) == y
    ensures Last(y % 16 * 4 + z / 64, z % 64) == z
  {
  }

  /** Reading one group of four digits. */
  lemma GroupReads(a: int, b: int, c: int, d: int, rest: string)
    requires 0 <= a < 64 && 0 <= b < 64 && 0 <= c < 64 && 0 <= d < 64
    ensures var s := [Base64Char(a), Base64Char(b), Base64Char(c), Base64Char(d)] + rest;
      var r := DecodeBase64(rest);
      DecodeBase64(s) == if r.Some? then Some([Two(a, b), Next(b, c), Last(c, d)] + r.value) else None
    ensures DecodeBase64([Base64Char(a), Base64Char(b), Base64Char(c), '=']) == Some([Two(a, b), Next(b, c)])
    ensures DecodeBase64([Base64Char(a), Base64Char(b), '=', '=']) == Some([Two(a, b)])
  {
    hide Base64Char, Base64Digit, Two, Next, Last;
    DigitRoundTrip(a);
    DigitRoundTrip(b);
    DigitRoundTrip(c);
    DigitRoundTrip(d);
    var s := [Base64Char(a), Base64Char(b), Base64Char(c), Base64Char(d)] + rest;
    assert s[4..] == rest;
    assert Base64Digit('=').None? by { EqualsIsNoDigit(); }
  }

  lemma EqualsIsNoDigit()
    ensures Base64Digit('=').None?
  {
  }

  lemma {:induction false} Base64RoundTrip(bs: seq<Byte>)
    ensures DecodeBase64(Base64(bs)) == Some(bs)
    decreases |bs|
  {
    hide Base64Char, DecodeBase64, Two, Next, Last;
    if bs == [] {
      assert DecodeBase64("") == Some([]) by { NothingReads(); }
    } else {
      var x, y, z := bs[0], if |bs| > 1 then bs[1] else 0, if |bs| > 2 then bs[2] else 0;
      GroupRoundTrip(x, y, z);
      GroupReads(x / 4, x % 4 * 16 + y / 16, y % 16 * 4 + z / 64, z % 64, if |bs| > 2 then Base64(bs[3..]) else "");
      assert |bs| == 1 ==> bs == [x] && x % 4 * 16 + y / 16 == x % 4 * 16;
      assert |bs| == 2 ==> bs == [x, y] && y % 16 * 4 + z / 64 == y % 16 * 4;
      if |bs| > 2 {
        Base64RoundTrip(bs[3..]);
        assert bs == [x, y, z] + bs[3..];
      }
    }
  }

  lemma NothingReads()
    ensures DecodeBase64("") == Some([])
  {
  }

  lemma {:induction false} Base64IsText(bs: seq<Byte>)
    ensures IsBase64Text(Base64(bs))
    decreases |bs|
  {
    hide Base64Char, DecodeBase64;
    if bs != [] {
      var x, y, z := bs[0], if |bs| > 1 then bs[1] else 0, if |bs| > 2 then bs[2] else 0;
      DigitRoundTrip(x / 4);
      DigitRoundTrip(x % 4 * 16 + y / 16);
      DigitRoundTrip(y % 16 * 4 + z / 64);
      DigitRoundTrip(z % 64);
      if |bs| > 2 { Base64IsText(bs[3..]); }
    }
  }

  /** The text of a Base64 body. */
  function DecodeText(s: string): (r: Option<string>)
    ensures r.Some? ==> |r.value| <= |s|
  {
    var bytes := DecodeBase64(s);
    if bytes.Some? then DecodeUtf8(bytes.value) else None
  }

  function EncodeText(s: string): string {
    Base64(Utf8(s))
  }

  lemma TextRoundTrip(s: string)
    ensures DecodeText(EncodeText(s)) == Some(s) && IsBase64Text(EncodeText(s))
  {
    hide Base64, DecodeBase64, Utf8, DecodeUtf8, IsBase64Text;
    Base64RoundTrip(Utf8(s));
    Base64IsText(Utf8(s));
    Utf8RoundTrip(s);
  }

  // ---------------------------------------------------------------------------
  // Header values
  // ---------------------------------------------------------------------------

  predicate Stripped(c: char) {
    c == '\r' || c == '\n' || c as int <= 0x08 || c as int == 0x0B || c as int == 0x0C || 0x0E <= c as int <= 0x1F
  }

  function Sanitize(value: string): (r: string)
    ensures forall c :: c in r <==> c in value && !Stripped(c)
  {
    if value == "" then "" else (if Stripped(value[0]) then "" else [value[0]]) + Sanitize(value[1..])
  }

  lemma {:induction false} SanitizeJoins(a: string, b: string)
    ensures Sanitize(a + b) == Sanitize(a) + Sanitize(b)
    decreases |a|
  {
    if a == "" {
      assert a + b == b;
    } else {
      assert (a + b)[1..] == a[1..] + b;
      SanitizeJoins(a[1..], b);
    }
  }

  /** Each character is kept in its place, or dropped if it is a control character other than the tab. */
  lemma SanitizeFilters(a: string, c: char, b: string)
    ensures var dropped := c as int < 0x20 && c != '\t';
      Sanitize(a + [c] + b) == Sanitize(a) + (if dropped then "" else [c]) + Sanitize(b)
  {
    hide Sanitize;
    SanitizeJoins(a + [c], b);
    SanitizeJoins(a, [c]);
    SanitizeOne(c);
  }

  lemma SanitizeOne(c: char)
    ensures Sanitize([c]) == if Stripped(c) then "" else [c]
  {
    hide Stripped;
    assert [c][1..] == "" && Sanitize("") == "";
  }

  predicate IsAscii(s: string) {
    forall c :: c in s ==> c as int < 0x80
  }

  function EncodeHeader(value: string): string {
    var sanitized := Sanitize(value);
    if IsAscii(sanitized) then sanitized else "=?UTF-8?B?" + EncodeText(sanitized) + "?="
  }

  /** The text that an encoded word of section 2 of RFC 2047 stands for, in the one form the source prints. */
  function EncodedWord(s: string): (r: Option<string>)
    ensures r.Some? ==> |r.value| < |s|
  {
    if |s| >= 12 && "=?UTF-8?B?" <= s && s[|s| - 2..] == "?=" then DecodeText(s[10..|s| - 2]) else None
  }

  function ReadHeader(s: string): string {
    var word := EncodedWord(s);
    if word.Some? then word.value else s
  }

  /** A value is printed as it is exactly if, sanitized, it is ASCII. */
  lemma PlainExactlyIfAscii(value: string)
    ensures EncodeHeader(value) == Sanitize(value) <==> forall c :: c in Sanitize(value) ==> c as int < 0x80
  {
    hide EncodeText, EncodedWord, Sanitize;
    EncodedWordReads(Sanitize(value));
  }

  lemma EncodedWordReads(text: string)
    ensures EncodedWord("=?UTF-8?B?" + EncodeText(text) + "?=") == Some(text)
  {
    hide EncodeText, DecodeText;
    var s := "=?UTF-8?B?" + EncodeText(text) + "?=";
    TextRoundTrip(text);
    assert s[10..|s| - 2] == EncodeText(text);
  }

  lemma HeaderIsOneLine(value: string)
    ensures '\r' !in EncodeHeader(value) && '\n' !in EncodeHeader(value)
  {
    hide EncodeText, IsAscii;
    var sanitized := Sanitize(value);
    TextRoundTrip(sanitized);
    assert forall c :: c in sanitized ==> !Stripped(c);
    var encoded, open, close := EncodeText(sanitized), "=?UTF-8?B?", "?=";
    assert '\r' !in open && '\n' !in open && '\r' !in close && '\n' !in close;
    assert '\r' !in encoded && '\n' !in encoded;
  }

  /** A printed header value is one line, and reads back unless it is plain text in the form of an encoded word. */
  lemma HeaderReadsBack(value: string)
    ensures ReadHeader(EncodeHeader(value)) == Sanitize(value)
      <==> !(IsAscii(Sanitize(value)) && EncodedWord(Sanitize(value)).Some?)
  {
    hide EncodeText, EncodedWord, IsAscii, Sanitize;
    EncodedWordReads(Sanitize(value));
  }
}
