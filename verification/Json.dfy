/** JSON values as the inspector prints them, and a parser after RFC 8259 for the values it uses:
    objects, arrays, strings, unsigned integers and booleans, with white space between tokens. */
module Json {
  import opened JsonText
  import Decimal

  datatype Json =
    | Text(text: string)
    | Number(number: nat)
    | Boolean(value: bool)
    | Array(elements: seq<Json>)
    | Object(members: seq<Member>)

  datatype Member = Member(name: string, value: Json)

  // ---- Printing ----

  function Print(j: Json): (s: string)
    ensures s != "" && !IsSpace(s[0]) && s[0] != ']' && s[0] != '}'
    decreases j
  {
    match j
    case Text(text) => Quoted(text)
    case Number(n) => Decimal.Print(n)
    case Boolean(b) => if b then "true" else "false"
    case Array(elements) => "[" + PrintElements(elements) + "]"
    case Object(members) => "{" + PrintMembers(members) + "}"
  }

  function PrintElements(elements: seq<Json>): string
    decreases elements
  {
    if elements == [] then ""
    else Print(elements[0]) + (if |elements| == 1 then "" else "," + PrintElements(elements[1..]))
  }

  function PrintMembers(members: seq<Member>): string
    decreases members
  {
    if members == [] then ""
    else PrintMember(members[0]) + (if |members| == 1 then "" else "," + PrintMembers(members[1..]))
  }

  function PrintMember(member: Member): (s: string)
    ensures s != "" && !IsSpace(s[0]) && s[0] != '}'
    decreases member
  {
    Quoted(member.name) + ":" + Print(member.value)
  }

  // ---- Parsing ----

  predicate IsSpace(c: char) {
    c == ' ' || c == '\t' || c == '\n' || c == '\r'
  }

  function SkipSpace(s: string): (r: string)
    ensures |r| <= |s|
  {
    if s != "" && IsSpace(s[0]) then SkipSpace(s[1..]) else s
  }

  /** The text after an expected character, or nothing. */
  function After(c: char, s: string): (r: Scan<()>)
    ensures r.Found? ==> |r.rest| < |s|
  {
    var t := SkipSpace(s);
    if t == "" || t[0] != c then Nothing else Found((), t[1..])
  }

  function ParseNumber(s: string): (r: Scan<Json>)
    ensures r.Found? ==> |r.rest| < |s|
  {
    var n := Decimal.DigitCount(s);
    if n == 0 || (n > 1 && s[0] == '0') then Nothing else Found(Number(Decimal.Value(s[..n])), s[n..])
  }

  function ParseWord(word: string, value: bool, s: string): (r: Scan<Json>)
    requires word != ""
    ensures r.Found? ==> |r.rest| < |s|
  {
    if |s| < |word| || s[..|word|] != word then Nothing else Found(Boolean(value), s[|word|..])
  }

  function Parse(s: string): (r: Scan<Json>)
    ensures r.Found? ==> |r.rest| < |s|
    decreases |s|, 1
  {
    var t := SkipSpace(s);
    if t == "" then Nothing
    else if t[0] == QUOTE then
      (match ScanString(t)
       case Nothing => Nothing
       case Found(text, rest) => Found(Text(text), rest))
    else if t[0] == 't' then ParseWord("true", true, t)
    else if t[0] == 'f' then ParseWord("false", false, t)
    else if t[0] == '[' then
      (match After(']', t[1..])
       case Found(_, rest) => Found(Array([]), rest)
       case Nothing =>
         match ParseElements(t[1..])
         case Nothing => Nothing
         case Found(elements, rest) => Found(Array(elements), rest))
    else if t[0] == '{' then
      (match After('}', t[1..])
       case Found(_, rest) => Found(Object([]), rest)
       case Nothing =>
         match ParseMembers(t[1..])
         case Nothing => Nothing
         case Found(members, rest) => Found(Object(members), rest))
    else ParseNumber(t)
  }

  /** One element or more, up to and including the closing bracket. */
  function ParseElements(s: string): (r: Scan<seq<Json>>)
    ensures r.Found? ==> |r.rest| < |s|
    decreases |s|, 2
  {
    match Parse(s)
    case Nothing => Nothing
    case Found(first, rest) =>
      match After(']', rest)
      case Found(_, after) => Found([first], after)
      case Nothing =>
        match After(',', rest)
        case Nothing => Nothing
        case Found(_, more) =>
          match ParseElements(more)
          case Nothing => Nothing
          case Found(others, after) => Found([first] + others, after)
  }

  function ParseMember(s: string): (r: Scan<Member>)
    ensures r.Found? ==> |r.rest| < |s|
    decreases |s|, 2
  {
    match ScanString(SkipSpace(s))
    case Nothing => Nothing
    case Found(name, rest) =>
      match After(':', rest)
      case Nothing => Nothing
      case Found(_, more) =>
        match Parse(more)
        case Nothing => Nothing
        case Found(value, after) => Found(Member(name, value), after)
  }

  function ParseMembers(s: string): (r: Scan<seq<Member>>)
    ensures r.Found? ==> |r.rest| < |s|
    decreases |s|, 3
  {
    match ParseMember(s)
    case Nothing => Nothing
    case Found(first, rest) =>
      match After('}', rest)
      case Found(_, after) => Found([first], after)
      case Nothing =>
        match After(',', rest)
        case Nothing => Nothing
        case Found(_, more) =>
          match ParseMembers(more)
          case Nothing => Nothing
          case Found(others, after) => Found([first] + others, after)
  }

  datatype Document = Malformed | Holds(value: Json)

  /** A whole text: one value, white space around it, and nothing else. */
  function ParseDocument(s: string): Document {
    match Parse(s)
    case Nothing => Malformed
    case Found(value, rest) => if SkipSpace(rest) == "" then Holds(value) else Malformed
  }

  // ---- The parser inverts the printer ----

  /** What may follow a value: anything but a digit, which would continue a number. */
  predicate Stops(rest: string) {
    rest != "" ==> !Decimal.IsDigit(rest[0])
  }

  lemma ParseNumberOf(n: nat, rest: string)
    requires Stops(rest)
    ensures ParseNumber(Decimal.Print(n) + rest) == Found(Number(n), rest)
  {
    var digits := Decimal.Print(n);
    Decimal.DigitCountOf(digits, rest);
    Decimal.ValueOfPrint(n);
    assert (digits + rest)[..|digits|] == digits && (digits + rest)[|digits|..] == rest;
  }

  lemma AfterHere(c: char, rest: string)
    requires !IsSpace(c)
    ensures After(c, [c] + rest) == Found((), rest)
  {
    assert ([c] + rest)[1..] == rest;
  }

  lemma AfterOther(c: char, s: string)
    requires s != "" && !IsSpace(s[0]) && s[0] != c
    ensures After(c, s) == Nothing
  {
  }

  lemma {:induction false} ParseOfPrint(j: Json, rest: string)
    requires Stops(rest)
    ensures Parse(Print(j) + rest) == Found(j, rest)
    decreases j
  {
    hide ParseElements, ParseMembers, ScanString, Quoted, ParseNumber, Decimal.Print, After, Decimal.IsDigit;
    var s := Print(j) + rest;
    assert SkipSpace(s) == s;
    match j
    case Text(text) =>
      QuotedStart(text);
      EscapeRoundTrip(text, rest);
    case Number(n) =>
      NumberStart(n);
      ParseNumberOf(n, rest);
    case Boolean(b) =>
      assert s[|Print(j)|..] == rest && s[..|Print(j)|] == Print(j);
    case Array(elements) =>
      var tail := PrintElements(elements) + ("]" + rest);
      assert s[1..] == tail;
      if elements == [] {
        assert tail == "]" + rest;
        AfterHere(']', rest);
      } else {
        AfterOther(']', tail);
        ParseOfElements(elements, rest);
      }
    case Object(members) =>
      var tail := PrintMembers(members) + ("}" + rest);
      assert s[1..] == tail;
      if members == [] {
        assert tail == "}" + rest;
        AfterHere('}', rest);
      } else {
        AfterOther('}', tail);
        ParseOfMembers(members, rest);
      }
  }

  lemma QuotedStart(text: string)
    ensures Quoted(text) != "" && Quoted(text)[0] == QUOTE
  {
  }

  lemma NumberStart(n: nat)
    ensures Decimal.Print(n) != "" && Decimal.IsDigit(Decimal.Print(n)[0])
  {
  }

  lemma {:induction false} ParseOfElements(elements: seq<Json>, rest: string)
    requires elements != []
    ensures ParseElements(PrintElements(elements) + ("]" + rest)) == Found(elements, rest)
    decreases elements
  {
    hide Parse, Print, After;
    var first, others := elements[0], elements[1..];
    if others == [] {
      var tail := "]" + rest;
      assert PrintElements(elements) + tail == Print(first) + tail;
      ParseOfPrint(first, tail);
      AfterHere(']', rest);
      assert [first] == elements;
    } else {
      var tail := PrintElements(others) + ("]" + rest);
      assert PrintElements(elements) + ("]" + rest) == Print(first) + ("," + tail);
      ParseOfPrint(first, "," + tail);
      AfterOther(']', "," + tail);
      AfterHere(',', tail);
      ParseOfElements(others, rest);
      assert [first] + others == elements;
    }
  }

  lemma {:induction false} ParseOfMember(member: Member, rest: string)
    requires Stops(rest)
    ensures ParseMember(PrintMember(member) + rest) == Found(member, rest)
    decreases member
  {
    hide Parse, Print, After, ScanString, Quoted;
    var tail := Print(member.value) + rest;
    var s := PrintMember(member) + rest;
    assert s == Quoted(member.name) + (":" + tail);
    QuotedStart(member.name);
    assert SkipSpace(s) == s;
    EscapeRoundTrip(member.name, ":" + tail);
    AfterHere(':', tail);
    ParseOfPrint(member.value, rest);
  }

  lemma {:induction false} ParseOfMembers(members: seq<Member>, rest: string)
    requires members != []
    ensures ParseMembers(PrintMembers(members) + ("}" + rest)) == Found(members, rest)
    decreases members
  {
    hide ParseMember, PrintMember, After;
    var first, others := members[0], members[1..];
    if others == [] {
      var tail := "}" + rest;
      assert PrintMembers(members) + tail == PrintMember(first) + tail;
      ParseOfMember(first, tail);
      AfterHere('}', rest);
      assert [first] == members;
    } else {
      var tail := PrintMembers(others) + ("}" + rest);
      assert PrintMembers(members) + ("}" + rest) == PrintMember(first) + ("," + tail);
      ParseOfMember(first, "," + tail);
      AfterOther('}', "," + tail);
      AfterHere(',', tail);
      ParseOfMembers(others, rest);
      assert [first] + others == members;
    }
  }

  /** A printed value, with a line end after it, is a well-formed document that holds exactly that value. */
  lemma DocumentRoundTrip(j: Json)
    ensures ParseDocument(Print(j) + "\n") == Holds(j)
  {
    ParseOfPrint(j, "\n");
    assert "\n"[1..] == "";
    assert SkipSpace("\n") == "";
  }

  lemma PrintInjective(a: Json, b: Json)
    requires Print(a) == Print(b)
    ensures a == b
  {
    DocumentRoundTrip(a);
    DocumentRoundTrip(b);
  }

  // ---- Lists printed from the left ----

  lemma Regroup(first: string, rest: string, comma: string, last: string)
    ensures first + ("," + (rest + comma + last)) == first + ("," + rest) + comma + last
  {
  }

  lemma {:induction false} ElementsSnoc(elements: seq<Json>, last: Json)
    ensures PrintElements(elements + [last])
         == PrintElements(elements) + (if elements == [] then "" else ",") + Print(last)
    decreases |elements|
  {
    hide Print;
    var all := elements + [last];
    if elements == [] {
      assert all == [last];
      assert PrintElements(elements) == "";
    } else {
      var rest := elements[1..];
      assert all[0] == elements[0] && all[1..] == rest + [last];
      ElementsSnoc(rest, last);
      if rest == [] {
        assert PrintElements(rest) == "";
      } else {
        Regroup(Print(elements[0]), PrintElements(rest), ",", Print(last));
      }
    }
  }

  lemma {:induction false} MembersSnoc(members: seq<Member>, last: Member)
    ensures PrintMembers(members + [last])
         == PrintMembers(members) + (if members == [] then "" else ",") + PrintMember(last)
    decreases |members|
  {
    hide PrintMember;
    var all := members + [last];
    if members == [] {
      assert all == [last];
      assert PrintMembers(members) == "";
    } else {
      var rest := members[1..];
      assert all[0] == members[0] && all[1..] == rest + [last];
      MembersSnoc(rest, last);
      if rest == [] {
        assert PrintMembers(rest) == "";
      } else {
        Regroup(PrintMember(members[0]), PrintMembers(rest), ",", PrintMember(last));
      }
    }
  }
}
