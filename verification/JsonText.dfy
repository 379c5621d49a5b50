/** jsonEscape of tools/v5l_inspect.cpp and a scanner for JSON strings (section 7 of RFC 8259). One
    char stands for one byte of a std::string. */
module JsonText {
  datatype Scan<+T> = Nothing | Found(value: T, rest: string)

  const QUOTE: char := '\"'
  const BACKSLASH: char := '\\'

  // ---- Escaping ----

  function HexDigit(n: nat): (c: char)
    requires n < 16
    ensures c != BACKSLASH && c != QUOTE && c as int >= 0x20
  {
    "0123456789abcdef"[n]
  }

  datatype Form = Letter(letter: char) | Code | Plain

  /** How a character is escaped: by a letter, by its code, or not at all. */
  function FormOf(c: char): Form {
    match c
    case '\"' => Letter('\"')
    case '\\' => Letter('\\')
    case '\U{08}' => Letter('b')
    case '\U{0C}' => Letter('f')
    case '\n' => Letter('n')
    case '\r' => Letter('r')
    case '\t' => Letter('t')
    case _ => if c as int < 0x20 then Code else Plain
  }

  function EscapeChar(c: char): (s: string)
    ensures s != "" && s[0] != QUOTE
  {
    match FormOf(c)
    case Letter(letter) => [BACKSLASH, letter]
    case Code => "\\u00" + [HexDigit(c as int / 16 % 16), HexDigit(c as int % 16)]
    case Plain => [c]
  }

  function Escape(value: string): string {
    if value == "" then "" else EscapeChar(value[0]) + Escape(value[1..])
  }

  lemma {:induction false} EscapeConcat(a: string, b: string)
    ensures Escape(a + b) == Escape(a) + Escape(b)
  {
    hide EscapeChar;
    if a == "" {
      assert a + b == b;
    } else {
      EscapeConcat(a[1..], b);
      assert (a + b)[1..] == a[1..] + b;
    }
  }

  lemma EscapeSnoc(a: string, c: char)
    ensures Escape(a + [c]) == Escape(a) + EscapeChar(c)
  {
    hide EscapeChar;
    EscapeConcat(a, [c]);
    assert [c][1..] == "";
    assert Escape([c]) == EscapeChar(c) + "";
  }

  method JsonEscape(value: string) returns (result: string)
    ensures result == Escape(value)
  {
    hide Escape;
    result := "";
    EscapeNothing();
    for i := 0 to |value|
      invariant result == Escape(value[..i])
    {
      EscapeSnoc(value[..i], value[i]);
      assert value[..i + 1] == value[..i] + [value[i]];
      var c := value[i];
      match c {
        case '\"' => result := result + "\\\"";
        case '\\' => result := result + "\\\\";
        case '\U{08}' => result := result + "\\b";
        case '\U{0C}' => result := result + "\\f";
        case '\n' => result := result + "\\n";
        case '\r' => result := result + "\\r";
        case '\t' => result := result + "\\t";
        case _ =>
          if c as int < 0x20 {
            result := result + ("\\u00" + [HexDigit(c as int / 16 % 16), HexDigit(c as int % 16)]);
          } else {
            result := result + [c];
          }
      }
    }
    assert value[..|value|] == value;
  }

  lemma EscapeNothing()
    ensures Escape("") == ""
  {
  }

  // ---- Scanning ----

  function HexValue(c: char): (value: int)
    ensures -1 <= value < 16
  {
    if '0' <= c <= '9' then c as int - '0' as int
    else if 'a' <= c <= 'f' then c as int - 'a' as int + 10
    else if 'A' <= c <= 'F' then c as int - 'A' as int + 10
    else -1
  }

  /** The character of a four-digit escape, or -1. */
  function FourDigits(s: string): (code: int)
    ensures -1 <= code < 0x1_0000
  {
    hide HexValue;
    if |s| < 4 || (exists i :: 0 <= i < 4 && HexValue(s[i]) < 0) then -1
    else ((HexValue(s[0]) * 16 + HexValue(s[1])) * 16 + HexValue(s[2])) * 16 + HexValue(s[3])
  }

  /** One character or escape of a string's body. */
  function ScanChar(s: string): (r: Scan<char>)
    ensures r.Found? ==> |r.rest| < |s|
  {
    if s == "" || s[0] == QUOTE || s[0] as int < 0x20 then Nothing
    else if s[0] != BACKSLASH then Found(s[0], s[1..])
    else if |s| < 2 then Nothing
    else
      match s[1]
      case '\"' => Found('\"', s[2..])
      case '\\' => Found('\\', s[2..])
      case '/' => Found('/', s[2..])
      case 'b' => Found('\U{08}', s[2..])
      case 'f' => Found('\U{0C}', s[2..])
      case 'n' => Found('\n', s[2..])
      case 'r' => Found('\r', s[2..])
      case 't' => Found('\t', s[2..])
      case 'u' =>
        var code := FourDigits(s[2..]);
        if code < 0 || 0xD800 <= code < 0xE000 then Nothing else Found(code as char, s[6..])
      case _ => Nothing
  }

  function ScanBody(s: string): (r: Scan<string>)
    ensures r.Found? ==> |r.rest| < |s|
  {
    if s != "" && s[0] == QUOTE then Found("", s[1..])
    else match ScanChar(s)
      case Nothing => Nothing
      case Found(c, rest) =>
        match ScanBody(rest)
        case Nothing => Nothing
        case Found(value, after) => Found([c] + value, after)
  }

  function ScanString(s: string): (r: Scan<string>)
    ensures r.Found? ==> |r.rest| < |s|
  {
    if s == "" || s[0] != QUOTE then Nothing else ScanBody(s[1..])
  }

  function Quoted(value: string): string {
    "\"" + Escape(value) + "\""
  }

  lemma HexRoundTrip(n: nat)
    requires n < 16
    ensures HexValue(HexDigit(n)) == n
  {
  }

  lemma FourDigitsOf(high: nat, low: nat, rest: string)
    requires high < 16 && low < 16
    ensures FourDigits(['0', '0', HexDigit(high), HexDigit(low)] + rest) == high * 16 + low
  {
    hide HexDigit;
    HexRoundTrip(high);
    HexRoundTrip(low);
    assert HexValue('0') == 0;
  }

  lemma ScanCode(high: nat, low: nat, rest: string)
    requires high < 16 && low < 16
    ensures ScanChar([BACKSLASH, 'u', '0', '0', HexDigit(high), HexDigit(low)] + rest)
         == Found((high * 16 + low) as char, rest)
  {
    hide HexDigit, FourDigits;
    var digits := ['0', '0', HexDigit(high), HexDigit(low)];
    var s := [BACKSLASH, 'u', '0', '0', HexDigit(high), HexDigit(low)] + rest;
    FourDigitsOf(high, low, rest);
    assert s[2..] == digits + rest;
    assert s[6..] == rest;
  }

  lemma ScanEscapedChar(c: char, rest: string)
    ensures ScanChar(EscapeChar(c) + rest) == Found(c, rest)
  {
    hide FourDigits, HexDigit;
    var s := EscapeChar(c) + rest;
    match FormOf(c)
    case Letter(letter) =>
      assert s[0] == BACKSLASH && s[1] == letter && s[2..] == rest;
    case Code =>
      var high, low := c as int / 16 % 16, c as int % 16;
      ScanCode(high, low, rest);
      assert s == [BACKSLASH, 'u', '0', '0', HexDigit(high), HexDigit(low)] + rest;
    case Plain =>
      assert s[0] == c && s[1..] == rest;
  }

  lemma {:induction false} ScanEscapedBody(value: string, rest: string)
    ensures ScanBody(Escape(value) + "\"" + rest) == Found(value, rest)
  {
    hide EscapeChar, ScanChar;
    if value == "" {
      assert Escape(value) + "\"" + rest == "\"" + rest;
    } else {
      var tail := Escape(value[1..]) + "\"" + rest;
      var s := Escape(value) + "\"" + rest;
      assert s == EscapeChar(value[0]) + tail;
      ScanEscapedChar(value[0], tail);
      ScanEscapedBody(value[1..], rest);
      assert [value[0]] + value[1..] == value;
    }
  }

  /** A JSON scanner reads back exactly the text that was escaped, and stops exactly after it. */
  lemma EscapeRoundTrip(value: string, rest: string)
    ensures ScanString(Quoted(value) + rest) == Found(value, rest)
  {
    hide Escape, ScanBody;
    ScanEscapedBody(value, rest);
    assert (Quoted(value) + rest)[1..] == Escape(value) + "\"" + rest;
  }

  lemma EscapeInjective(a: string, b: string)
    requires Escape(a) == Escape(b)
    ensures a == b
  {
    hide Escape, ScanString;
    EscapeRoundTrip(a, "");
    EscapeRoundTrip(b, "");
  }

  /** No raw control byte, and every quote or backslash is part of an escape. */
  predicate Clean(s: string)
    decreases |s|
  {
    s == ""
    || (s[0] == BACKSLASH && |s| >= 2 && s[1] as int >= 0x20 && Clean(s[2..]))
    || (s[0] != BACKSLASH && s[0] != QUOTE && s[0] as int >= 0x20 && Clean(s[1..]))
  }

  lemma CleanOne(c: char, s: string)
    requires c != BACKSLASH && c != QUOTE && c as int >= 0x20 && Clean(s)
    ensures Clean([c] + s)
  {
    assert ([c] + s)[1..] == s;
  }

  lemma CleanPair(c: char, s: string)
    requires c as int >= 0x20 && Clean(s)
    ensures Clean([BACKSLASH, c] + s)
  {
    assert ([BACKSLASH, c] + s)[2..] == s;
  }

  lemma CleanCode(high: nat, low: nat, tail: string)
    requires high < 16 && low < 16 && Clean(tail)
    ensures Clean([BACKSLASH, 'u', '0', '0', HexDigit(high), HexDigit(low)] + tail)
  {
    hide Clean, HexDigit;
    var one := [HexDigit(low)] + tail;
    var two := [HexDigit(high)] + one;
    CleanOne(HexDigit(low), tail);
    CleanOne(HexDigit(high), one);
    CleanOne('0', two);
    CleanOne('0', ['0'] + two);
    CleanPair('u', ['0'] + (['0'] + two));
    assert [BACKSLASH, 'u', '0', '0', HexDigit(high), HexDigit(low)] + tail
         == [BACKSLASH, 'u'] + (['0'] + (['0'] + two));
  }

  lemma CleanChar(c: char, tail: string)
    requires Clean(tail)
    ensures Clean(EscapeChar(c) + tail)
  {
    hide Clean, HexDigit;
    match FormOf(c)
    case Letter(letter) => CleanPair(letter, tail);
    case Plain => CleanOne(c, tail);
    case Code =>
      var high, low := c as int / 16 % 16, c as int % 16;
      CleanCode(high, low, tail);
      assert EscapeChar(c) == [BACKSLASH, 'u', '0', '0', HexDigit(high), HexDigit(low)];
  }

  lemma {:induction false} CleanHasNoControls(s: string)
    requires Clean(s)
    ensures forall i :: 0 <= i < |s| ==> s[i] as int >= 0x20
    decreases |s|
  {
    if s != "" {
      var skip := if s[0] == BACKSLASH then 2 else 1;
      CleanHasNoControls(s[skip..]);
      forall i | 0 <= i < |s| ensures s[i] as int >= 0x20 {
        if i >= skip {
          assert s[i] == s[skip..][i - skip];
        }
      }
    }
  }

  /** Escaped text has no raw control byte and no quote that ends it. */
  lemma {:induction false} EscapeClean(value: string)
    ensures Clean(Escape(value))
    ensures forall i :: 0 <= i < |Escape(value)| ==> Escape(value)[i] as int >= 0x20
  {
    hide Clean, EscapeChar;
    if value == "" {
      CleanEmpty();
    } else {
      EscapeClean(value[1..]);
      CleanChar(value[0], Escape(value[1..]));
    }
    CleanHasNoControls(Escape(value));
  }

  lemma CleanEmpty()
    ensures Clean("")
  {
  }
}
