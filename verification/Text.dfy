// UTF-8, percent-escaping and decimal numerals, each with the decoder that undoes it.

module Text {
  import opened Basics

  // ---------------------------------------------------------------- UTF-8

  function EncodeChar(c: char): Bytes {
    var n := c as int;
    if n < 0x80 then [n]
    else if n < 0x800 then [0xC0 + n / 64, 0x80 + n % 64]
    else if n < 0x10000 then [0xE0 + n / 4096, 0x80 + n / 64 % 64, 0x80 + n % 64]
    else [0xF0 + n / 262144, 0x80 + n / 4096 % 64, 0x80 + n / 64 % 64, 0x80 + n % 64]
  }

  function Utf8(s: string): Bytes {
    if s == [] then [] else EncodeChar(s[0]) + Utf8(s[1..])
  }

  lemma {:induction false} Utf8Short(s: string)
    ensures |Utf8(s)| <= 4 * |s|
  {
    if s != [] {
      Utf8Short(s[1..]);
    }
  }

  predicate IsScalar(n: int) {
    0 <= n < 0xD800 || 0xE000 <= n < 0x110000
  }

  function CharOf(n: int): Option<char> {
    if IsScalar(n) then Some(n as char) else None
  }

  // The width of the code that starts with byte b.
  function CodeWidth(b: Byte): nat {
    if b < 0x80 then 1 else if b < 0xE0 then 2 else if b < 0xF0 then 3 else 4
  }

  function CodePoint(code: Bytes): int
    requires code != [] && |code| == CodeWidth(code[0])
  {
    var lead: int, n: int := code[0], |code|;
    if n == 1 then lead
    else if n == 2 then lead * 64 + code[1] - 0x3080
    else if n == 3 then (lead * 64 + code[1]) * 64 + code[2] - 0xE2080
    else ((lead * 64 + code[1]) * 64 + code[2]) * 64 + code[3] - 0x3C82080
  }

  function FromUtf8(bytes: Bytes): Option<string> {
    if bytes == [] then Some([])
    else
      var w := CodeWidth(bytes[0]);
      if |bytes| < w then None
      else
        match (CharOf(CodePoint(bytes[..w])), FromUtf8(bytes[w..]))
        case (Some(c), Some(rest)) => Some([c] + rest)
        case _ => None
  }

  lemma CodePointOfChar(c: char)
    ensures EncodeChar(c) != []
    ensures |EncodeChar(c)| == CodeWidth(EncodeChar(c)[0])
    ensures CharOf(CodePoint(EncodeChar(c))) == Some(c)
  {
    var n := c as int;
    assert 0 <= n < 0x110000;
    assert n / 4096 == n / 64 / 64;
    assert n / 262144 == n / 4096 / 64;
  }

  // Decoding undoes UTF-8 encoding, so distinct strings have distinct byte sequences.
  lemma {:induction false} Utf8RoundTrip(s: string)
    ensures FromUtf8(Utf8(s)) == Some(s)
  {
    if s != [] {
      var code, rest := EncodeChar(s[0]), Utf8(s[1..]);
      CodePointOfChar(s[0]);
      assert (code + rest)[..|code|] == code && (code + rest)[|code|..] == rest;
      Utf8RoundTrip(s[1..]);
      assert [s[0]] + s[1..] == s;
    }
  }

  // ---------------------------------------------------------------- percent-escaping

  predicate Unreserved(c: char) {
    'A' <= c <= 'Z' || 'a' <= c <= 'z' || '0' <= c <= '9' || c == '_' || c == '.' || c == '-' || c == '~'
  }

  function HexDigit(n: int): char
    requires 0 <= n < 16
  {
    if n < 10 then (n + 48) as char else (n + 55) as char
  }

  function HexValue(c: char): Option<int> {
    if '0' <= c <= '9' then Some(c as int - 48)
    else if 'A' <= c <= 'F' then Some(c as int - 55)
    else None
  }

  function EscapeByte(b: Byte): string {
    if b < 128 && Unreserved(b as char) then [b as char]
    else ['%', HexDigit(b / 16), HexDigit(b % 16)]
  }

  function EscapeBytes(bytes: Bytes): string {
    if bytes == [] then [] else EscapeByte(bytes[0]) + EscapeBytes(bytes[1..])
  }

  // urllib's quote(value, safe="")
  function Escaped(value: string): string {
    EscapeBytes(Utf8(value))
  }

  function UnescapeBytes(s: string): Option<Bytes> {
    if s == [] then Some([])
    else if s[0] == '%' then
      if |s| < 3 then None
      else
        match (HexValue(s[1]), HexValue(s[2]), UnescapeBytes(s[3..]))
        case (Some(hi), Some(lo), Some(rest)) =>
          if 0 <= hi < 16 && 0 <= lo < 16 then Some([hi * 16 + lo] + rest) else None
        case _ => None
    else if Unreserved(s[0]) then
      match UnescapeBytes(s[1..])
      case Some(rest) => Some([s[0] as int] + rest)
      case None => None
    else None
  }

  function Unescaped(s: string): Option<string> {
    match UnescapeBytes(s)
    case Some(bytes) => FromUtf8(bytes)
    case None => None
  }

  lemma {:induction false} UnescapeEscapedBytes(bytes: Bytes)
    ensures UnescapeBytes(EscapeBytes(bytes)) == Some(bytes)
  {
    if bytes != [] {
      UnescapeEscapedBytes(bytes[1..]);
      var first, rest := EscapeByte(bytes[0]), EscapeBytes(bytes[1..]);
      assert (first + rest)[|first|..] == rest;
      assert [bytes[0]] + bytes[1..] == bytes;
      if |first| == 3 {
        assert HexValue(HexDigit(bytes[0] / 16)) == Some(bytes[0] / 16);
        assert HexValue(HexDigit(bytes[0] % 16)) == Some(bytes[0] % 16);
      }
    }
  }

  lemma EscapedRoundTrip(value: string)
    ensures Unescaped(Escaped(value)) == Some(value)
  {
    UnescapeEscapedBytes(Utf8(value));
    Utf8RoundTrip(value);
  }

  predicate Plain(s: string) {
    forall i :: 0 <= i < |s| ==> Unreserved(s[i]) || s[i] == '%'
  }

  lemma {:induction false} EscapedBytesPlain(bytes: Bytes)
    ensures Plain(EscapeBytes(bytes))
  {
    if bytes != [] {
      EscapedBytesPlain(bytes[1..]);
    }
  }

  // Escaping leaves the unreserved characters of section 2.3 of RFC 3986 as they are, and writes each
  // delimiter of a key as its percent-encoding in upper-case hexadecimal.
  lemma {:induction false} UnreservedStay(s: string)
    requires forall i | 0 <= i < |s| ::
               'A' <= s[i] <= 'Z' || 'a' <= s[i] <= 'z' || '0' <= s[i] <= '9' || s[i] == '-' || s[i] == '.' || s[i] == '_' || s[i] == '~'
    ensures Escaped(s) == s
  {
    hide EscapeByte, EncodeChar;
    if s != [] {
      UnreservedStay(s[1..]);
      UnreservedByte(s[0]);
      assert (EncodeChar(s[0]) + Utf8(s[1..]))[0] == s[0] as int;
      assert (EncodeChar(s[0]) + Utf8(s[1..]))[1..] == Utf8(s[1..]);
      assert s == [s[0]] + s[1..];
    }
  }

  lemma UnreservedByte(c: char)
    requires 'A' <= c <= 'Z' || 'a' <= c <= 'z' || '0' <= c <= '9' || c == '-' || c == '.' || c == '_' || c == '~'
    ensures EncodeChar(c) == [c as int] && EscapeByte(c as int) == [c]
  {
  }

  lemma DelimitersAreEncoded()
    ensures EscapeByte(':' as int) == "%3A" && EscapeByte('/' as int) == "%2F" && EscapeByte('@' as int) == "%40"
    ensures EscapeByte('#' as int) == "%23" && EscapeByte('|' as int) == "%7C" && EscapeByte('%' as int) == "%25"
  {
  }

  // An escaped component consists of unreserved characters and '%', so it contains no delimiter.
  lemma EscapedHasNoDelimiter(value: string, delimiter: char)
    requires delimiter in ":/@#|"
    ensures delimiter !in Escaped(value)
  {
    EscapedBytesPlain(Utf8(value));
  }

  // ---------------------------------------------------------------- splitting

  // str.split(sep, 1): cut at the first separator.
  function SplitFirst(s: string, sep: char): Option<(string, string)> {
    if s == [] then None
    else if s[0] == sep then Some(([], s[1..]))
    else
      match SplitFirst(s[1..], sep)
      case Some((a, b)) => Some(([s[0]] + a, b))
      case None => None
  }

  lemma {:induction false} SplitFirstAt(a: string, sep: char, b: string)
    requires sep !in a
    ensures SplitFirst(a + [sep] + b, sep) == Some((a, b))
  {
    var s := a + [sep] + b;
    if a == [] {
      assert s[1..] == b;
    } else {
      SplitFirstAt(a[1..], sep, b);
      assert s[1..] == a[1..] + [sep] + b;
      assert [a[0]] + a[1..] == a;
    }
  }

  // str.rsplit(sep, 1): cut at the last separator.
  function SplitLast(s: string, sep: char): Option<(string, string)> {
    if s == [] then None
    else
      var last := |s| - 1;
      if s[last] == sep then Some((s[..last], []))
      else
        match SplitLast(s[..last], sep)
        case Some((a, b)) => Some((a, b + [s[last]]))
        case None => None
  }

  lemma {:induction false} SplitLastAt(a: string, sep: char, b: string)
    requires sep !in b
    ensures SplitLast(a + [sep] + b, sep) == Some((a, b))
  {
    var s := a + [sep] + b;
    if b == [] {
      assert s[..|s| - 1] == a;
    } else {
      var n := |b| - 1;
      SplitLastAt(a, sep, b[..n]);
      assert s[..|s| - 1] == a + [sep] + b[..n];
      assert b[..n] + [b[n]] == b;
    }
  }

  // Every string with a separator splits at one.
  lemma {:induction false} SplitLastParts(s: string, sep: char)
    requires sep in s
    ensures SplitLast(s, sep).Some?
    ensures var (a, b) := SplitLast(s, sep).value; s == a + [sep] + b && sep !in b
  {
    var last := |s| - 1;
    if s[last] == sep {
      assert s == s[..last] + [sep] + [];
    } else {
      assert sep in s[..last];
      SplitLastParts(s[..last], sep);
      var (a, b) := SplitLast(s[..last], sep).value;
      assert s == a + [sep] + (b + [s[last]]);
    }
  }

  // ---------------------------------------------------------------- decimal numerals

  function Decimal(n: nat): string {
    if n < 10 then [HexDigit(n)] else Decimal(n / 10) + [HexDigit(n % 10)]
  }

  function FromDecimal(s: string): Option<nat> {
    if s == [] then Some(0)
    else
      var last := |s| - 1;
      match (FromDecimal(s[..last]), HexValue(s[last]))
      case (Some(high), Some(digit)) => if 0 <= digit < 10 then Some(high * 10 + digit) else None
      case _ => None
  }

  lemma {:induction false} DecimalRoundTrip(n: nat)
    ensures FromDecimal(Decimal(n)) == Some(n)
  {
    if n >= 10 {
      DecimalRoundTrip(n / 10);
      var s := Decimal(n);
      assert s[..|s| - 1] == Decimal(n / 10);
    } else {
      var s := Decimal(n);
      assert s[..0] == [];
      assert FromDecimal(s[..0]) == Some(0);
    }
  }
}
