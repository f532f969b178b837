/**
 The JSON a cast row is made of: the string escaper and unescaper of section 7 of RFC 8259 as
 encoding/json performs them, and the number syntax of section 6. Seconds are exact rationals:
 a number is its digits and a power of ten, never a rounded float.
 */
module Json {

  /** A value and the text after it. */
  datatype Parsed<T> = Parsed(value: T, rest: string) | Bad

  // ---- Strings: printing -----------------------------------------------------------

  function HexDigit(n: nat): char
    requires n < 16
  {
    if n < 10 then '0' + n as char else 'a' + (n - 10) as char
  }

  function Unicode(n: nat): string
    requires n < 0x10000
  {
    ['\\', 'u', HexDigit(n / 4096), HexDigit(n / 256 % 16), HexDigit(n / 16 % 16), HexDigit(n % 16)]
  }

  /** json.Marshal escapes the mandatory characters and, HTML escaping being on, `<`, `>`, `&`
      and the two line separators U+2028 and U+2029. */
  function EscapeChar(c: char): string {
    if c == '"' then "\\\""
    else if c == '\\' then "\\\\"
    else if c == '\U{0008}' then "\\b"
    else if c == '\U{000C}' then "\\f"
    else if c == '\n' then "\\n"
    else if c == '\r' then "\\r"
    else if c == '\t' then "\\t"
    else if c < ' ' || c == '<' || c == '>' || c == '&' || c == '\U{2028}' || c == '\U{2029}' then Unicode(c as nat)
    else [c]
  }

  function Escape(s: string): string {
    if s == "" then "" else EscapeChar(s[0]) + Escape(s[1..])
  }

  function Quote(s: string): string {
    "\"" + Escape(s) + "\""
  }

  // ---- Strings: parsing ------------------------------------------------------------

  /** Value of a hex digit, or 16. */
  function HexValue(c: char): (v: nat)
    ensures v <= 16
  {
    if '0' <= c <= '9' then (c - '0') as nat
    else if 'a' <= c <= 'f' then (c - 'a') as nat + 10
    else if 'A' <= c <= 'F' then (c - 'A') as nat + 10
    else 16
  }

  /** The code unit of `\uXXXX` at the head of `t`, or -1. */
  function CodeUnit(t: string): (u: int)
    ensures -1 <= u < 0x10000 && (u >= 0 ==> |t| >= 6)
  {
    if |t| < 6 || t[0] != '\\' || t[1] != 'u' then -1
    else
      var a, b, c, d := HexValue(t[2]), HexValue(t[3]), HexValue(t[4]), HexValue(t[5]);
      if a == 16 || b == 16 || c == 16 || d == 16 then -1 else ((a * 16 + b) * 16 + c) * 16 + d
  }

  const REPLACEMENT := '\U{FFFD}'

  /** Reads a `\uXXXX` escape; a surrogate pair is one character, a lone surrogate becomes U+FFFD. */
  function ReadUnicode(t: string): (p: Parsed<char>)
    ensures p.Parsed? ==> |p.rest| < |t|
  {
    var u := CodeUnit(t);
    if u < 0 then Bad
    else if u < 0xD800 || u >= 0xE000 then Parsed(u as char, t[6..])
    else
      var v := CodeUnit(t[6..]);
      if u < 0xDC00 && 0xDC00 <= v < 0xE000 then
        Parsed((0x10000 + (u - 0xD800) * 0x400 + (v - 0xDC00)) as char, t[12..])
      else Parsed(REPLACEMENT, t[6..])
  }

  /** Reads one character of a string body, escaped or not. */
  function ReadChar(t: string): (p: Parsed<char>)
    ensures p.Parsed? ==> |p.rest| < |t|
  {
    if t == "" || t[0] < ' ' || t[0] == '"' then Bad
    else if t[0] != '\\' then Parsed(t[0], t[1..])
    else if |t| < 2 then Bad
    else match t[1]
      case '"' => Parsed('"', t[2..])
      case '\\' => Parsed('\\', t[2..])
      case '/' => Parsed('/', t[2..])
      case 'b' => Parsed('\U{0008}', t[2..])
      case 'f' => Parsed('\U{000C}', t[2..])
      case 'n' => Parsed('\n', t[2..])
      case 'r' => Parsed('\r', t[2..])
      case 't' => Parsed('\t', t[2..])
      case 'u' => ReadUnicode(t)
      case _ => Bad
  }

  /** Reads a string body up to and past its closing quote. */
  function ReadBody(t: string): (p: Parsed<string>)
    ensures p.Parsed? ==> |p.rest| < |t|
    decreases |t|
  {
    if t != "" && t[0] == '"' then Parsed("", t[1..])
    else match ReadChar(t)
      case Bad => Bad
      case Parsed(c, rest) =>
        match ReadBody(rest)
        case Bad => Bad
        case Parsed(s, rest') => Parsed([c] + s, rest')
  }

  function ReadString(t: string): (p: Parsed<string>)
    ensures p.Parsed? ==> |p.rest| < |t|
  {
    if t == "" || t[0] != '"' then Bad else ReadBody(t[1..])
  }

  // ---- Strings: round trip ---------------------------------------------------------

  lemma HexRoundTrip(n: nat)
    requires n < 16
    ensures HexValue(HexDigit(n)) == n && HexDigit(n) >= '0'
  {
  }

  lemma UnicodeRoundTrip(n: nat, t: string)
    requires n < 0xD800
    ensures ReadUnicode(Unicode(n) + t) == Parsed(n as char, t)
  {
    HexRoundTrip(n / 4096);
    HexRoundTrip(n / 256 % 16);
    HexRoundTrip(n / 16 % 16);
    HexRoundTrip(n % 16);
    HexSum(n);
    var w := Unicode(n) + t;
    assert w[6..] == t;
    assert CodeUnit(w) == n;
  }

  lemma HexSum(n: nat)
    ensures ((n / 4096 * 16 + n / 256 % 16) * 16 + n / 16 % 16) * 16 + n % 16 == n
  {
    var a := n / 16;
    var b := a / 16;
    assert n / 256 == b && n / 4096 == b / 16;
  }

  lemma CharRoundTrip(c: char, t: string)
    ensures ReadChar(EscapeChar(c) + t) == Parsed(c, t)
    ensures (EscapeChar(c) + t)[0] != '"'
  {
    var e := EscapeChar(c);
    assert |e| == 1 ==> (e + t)[1..] == t;
    assert |e| == 2 ==> (e + t)[2..] == t;
    if |e| == 6 {
      UnicodeRoundTrip(c as nat, t);
    }
  }

  lemma {:induction false} BodyRoundTrip(s: string, t: string)
    ensures ReadBody(Escape(s) + "\"" + t) == Parsed(s, t)
  {
    if s == "" {
      assert Escape(s) + "\"" + t == "\"" + t;
      assert ("\"" + t)[1..] == t;
    } else {
      var e, tail := EscapeChar(s[0]), Escape(s[1..]) + "\"" + t;
      BodyRoundTrip(s[1..], t);
      CharRoundTrip(s[0], tail);
      BodyStep(e + tail, s[0], tail, s[1..], t);
      assert Escape(s) + "\"" + t == e + tail;
      assert s == [s[0]] + s[1..];
    }
  }

  lemma BodyStep(w: string, c: char, tail: string, s: string, t: string)
    requires w != "" && w[0] != '"' && ReadChar(w) == Parsed(c, tail) && ReadBody(tail) == Parsed(s, t)
    ensures ReadBody(w) == Parsed([c] + s, t)
  {
  }

  /** Every string survives escaping and unescaping, whatever follows it. */
  lemma StringRoundTrip(s: string, t: string)
    ensures ReadString(Quote(s) + t) == Parsed(s, t)
  {
    var w := Quote(s) + t;
    assert w[1..] == Escape(s) + "\"" + t;
    BodyRoundTrip(s, t);
  }

  /** No control character, hence no raw line break. */
  ghost predicate Printable(s: string) {
    forall i :: 0 <= i < |s| ==> s[i] >= ' '
  }

  /** An escaped string is printable. */
  lemma {:induction false} EscapeHasNoControls(s: string)
    ensures Printable(Escape(s))
  {
    if s != "" {
      EscapeHasNoControls(s[1..]);
      var e := EscapeChar(s[0]);
      if |e| == 6 {
        var n := s[0] as nat;
        HexRoundTrip(n / 4096);
        HexRoundTrip(n / 256 % 16);
        HexRoundTrip(n / 16 % 16);
        HexRoundTrip(n % 16);
      }
      assert Printable(e);
    }
  }

  /** Safe inside HTML and JavaScript, as the original's encoder guarantees. */
  ghost predicate FreeOfMarkup(s: string) {
    forall i :: 0 <= i < |s| ==> s[i] !in "<>&" && s[i] != '\U{2028}' && s[i] != '\U{2029}'
  }

  lemma {:induction false} EscapeHasNoMarkup(s: string)
    ensures FreeOfMarkup(Escape(s))
  {
    if s != "" {
      EscapeHasNoMarkup(s[1..]);
      assert FreeOfMarkup(EscapeChar(s[0]));
    }
  }

  // ---- Other ways to write the same string -----------------------------------------

  /** A character beyond the basic plane, written as a surrogate pair. */
  lemma SurrogatePair(n: nat, t: string)
    requires 0x10000 <= n < 0x110000
    ensures var u := n - 0x10000;
            ReadChar(Unicode(0xD800 + u / 0x400) + (Unicode(0xDC00 + u % 0x400) + t)) == Parsed(n as char, t)
  {
    var u := n - 0x10000;
    var hi, lo := 0xD800 + u / 0x400, 0xDC00 + u % 0x400;
    var v := Unicode(lo) + t;
    CodeUnitRoundTrip(hi, v);
    CodeUnitRoundTrip(lo, t);
    PairReads(Unicode(hi) + v, hi, lo, n, t);
  }

  lemma PairReads(w: string, hi: nat, lo: nat, n: nat, t: string)
    requires |w| >= 12 && w[0] == '\\' && w[1] == 'u' && CodeUnit(w) == hi && CodeUnit(w[6..]) == lo && w[6..][6..] == t
    requires 0xD800 <= hi < 0xDC00 <= lo < 0xE000 && n == 0x10000 + (hi - 0xD800) * 0x400 + (lo - 0xDC00) < 0x110000
    ensures ReadChar(w) == Parsed(n as char, t)
  {
    hide CodeUnit;
    assert w[12..] == w[6..][6..];
  }

  lemma CodeUnitRoundTrip(n: nat, t: string)
    requires n < 0x10000
    ensures CodeUnit(Unicode(n) + t) == n && (Unicode(n) + t)[6..] == t
  {
    HexRoundTrip(n / 4096);
    HexRoundTrip(n / 256 % 16);
    HexRoundTrip(n / 16 % 16);
    HexRoundTrip(n % 16);
    HexSum(n);
  }

  /** A surrogate on its own reads as the replacement character. */
  lemma LoneSurrogate(n: nat, t: string)
    requires 0xD800 <= n < 0xE000 && (t == "" || t[0] != '\\')
    ensures ReadChar(Unicode(n) + t) == Parsed(REPLACEMENT, t)
  {
    CodeUnitRoundTrip(n, t);
  }

  /** Escapes json.Marshal does not write, and raw text no string may hold. */
  lemma OtherEscapes(t: string)
    ensures ReadChar("\\/" + t) == Parsed('/', t)
    ensures forall c :: c < ' ' ==> ReadChar([c] + t) == Bad
    ensures HexValue('A') == 10 && HexValue('F') == 15 && HexValue('G') == 16 && HexValue('a') == 10
  {
    assert ("\\/" + t)[2..] == t;
  }

  /** The seven characters with an escape of their own get it; the other characters that must
      not stand raw get six characters, and every other one stands for itself. */
  lemma EscapeLengths(c: char)
    ensures |EscapeChar(c)| == (if c in "\"\\\U{0008}\U{000C}\n\r\t" then 2
                                else if c < ' ' || c in "<>&" || c == '\U{2028}' || c == '\U{2029}' then 6
                                else 1)
    ensures |EscapeChar(c)| == 1 ==> EscapeChar(c) == [c]
  {
  }
}
