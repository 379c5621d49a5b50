/** The fault lists of tools/v5l_inspect.cpp: printFaultsHuman, printFaultsJson and their table. */
module FaultLists {
  import opened JsonText
  import opened Json
  import opened RecordingVerifier

  datatype Fault = Fault(bit: bv32, name: string)

  const FAULT_COUNT: nat := 12

  function Table(): (t: seq<Fault>)
    ensures |t| == FAULT_COUNT
  {
    [Fault(TRUNCATED, "TRUNCATED"), Fault(BAD_HEADER, "BAD_HEADER"), Fault(UNSUPPORTED_FORMAT, "UNSUPPORTED_FORMAT"),
     Fault(BAD_BLOCK_HEADER, "BAD_BLOCK_HEADER"), Fault(BAD_PAYLOAD, "BAD_PAYLOAD"),
             Fault(SEQUENCE_GAP, "SEQUENCE_GAP"),
     Fault(TIME_REGRESSION, "TIME_REGRESSION"), Fault(RUN_MISMATCH, "RUN_MISMATCH"), Fault(BAD_FOOTER, "BAD_FOOTER"),
     Fault(FOOTER_MISMATCH, "FOOTER_MISMATCH"), Fault(TRAILING_DATA, "TRAILING_DATA"), Fault(NO_FRAMES, "NO_FRAMES")]
  }

  const KNOWN_FAULTS: bv32 := 0xFFF

  function Both(a: bv32, b: bv32): bv32 {
    a & b
  }

  function Either(a: bv32, b: bv32): bv32 {
    a | b
  }

  /** The names of the set bits among the first `n` faults. */
  function NamesUpTo(bits: bv32, n: nat): seq<string>
    requires n <= FAULT_COUNT
  {
    if n == 0 then []
    else NamesUpTo(bits, n - 1) + if Both(bits, Table()[n - 1].bit) == 0 then [] else [Table()[n - 1].name]
  }

  function FaultNames(bits: bv32): seq<string> {
    NamesUpTo(bits, FAULT_COUNT)
  }

  // ---- Back from names to bits ----

  /** The bit of a name, looked up from the end of the table. */
  function BitOf(name: string, n: nat): bv32
    requires n <= FAULT_COUNT
  {
    if n == 0 then 0 else if Table()[n - 1].name == name then Table()[n - 1].bit else BitOf(name, n - 1)
  }

  function BitsOf(names: seq<string>): bv32 {
    if names == [] then 0 else Either(BitsOf(names[..|names| - 1]), BitOf(names[|names| - 1], FAULT_COUNT))
  }

  lemma NamesDistinct(i: nat, j: nat)
    requires i < j < FAULT_COUNT
    ensures Table()[i].name != Table()[j].name
  {
    var a, b := Table()[i].name, Table()[j].name;
    assert |a| != |b| || a[0] != b[0] || a[4] != b[4];
  }

  lemma {:induction false} BitOfOwnName(i: nat, n: nat)
    requires i < n <= FAULT_COUNT
    ensures BitOf(Table()[i].name, n) == Table()[i].bit
    decreases n
  {
    if i < n - 1 {
      NamesDistinct(i, n - 1);
      BitOfOwnName(i, n - 1);
    }
  }

  /** The first `n` bits of the table, together. */
  function Mask(n: nat): bv32
    requires n <= FAULT_COUNT
  {
    if n == 0 then 0 else Either(Mask(n - 1), Table()[n - 1].bit)
  }

  lemma NamesStep(bits: bv32, n: nat)
    requires 0 < n <= FAULT_COUNT
    ensures var before, fault := NamesUpTo(bits, n - 1), Table()[n - 1];
            && NamesUpTo(bits, n) == (if Both(bits, fault.bit) == 0 then before else before + [fault.name])
            && BitsOf(before + [fault.name]) == Either(BitsOf(before), fault.bit)
  {
    hide BitOf, Table, Both, Either;
    var before, fault := NamesUpTo(bits, n - 1), Table()[n - 1];
    BitOfOwnName(n - 1, FAULT_COUNT);
    assert (before + [fault.name])[..|before|] == before;
  }

  lemma TableBit(bits: bv32, i: nat)
    requires i < FAULT_COUNT
    ensures var bit := Table()[i].bit;
            && (Both(bits, bit) == 0 || Both(bits, bit) == bit)
            && (bits & KNOWN_FAULTS == 0 ==> Both(bits, bit) == 0)
  {
  }

  lemma MasksUnite(bits: bv32, a: bv32, b: bv32)
    ensures Both(bits, Either(a, b)) == Either(Both(bits, a), Both(bits, b))
    ensures Either(a, 0) == a && Both(a, 0) == 0
  {
  }

  lemma {:induction false} BitsOfNames(bits: bv32, n: nat)
    requires n <= FAULT_COUNT
    ensures BitsOf(NamesUpTo(bits, n)) == Both(bits, Mask(n))
  {
    hide BitOf, Table, Both, Either;
    MasksUnite(bits, bits, 0);
    if n > 0 {
      BitsOfNames(bits, n - 1);
      BitsOfOneMore(bits, n);
    }
  }

  lemma BitsOfOneMore(bits: bv32, n: nat)
    requires 0 < n <= FAULT_COUNT && BitsOf(NamesUpTo(bits, n - 1)) == Both(bits, Mask(n - 1))
    ensures BitsOf(NamesUpTo(bits, n)) == Both(bits, Mask(n))
  {
    hide BitOf, Table, BitsOf, NamesUpTo, Both, Either;
    NamesStep(bits, n);
    TableBit(bits, n - 1);
    MasksUnite(bits, Mask(n - 1), Table()[n - 1].bit);
    MasksUnite(bits, Both(bits, Mask(n - 1)), 0);
  }

  lemma WholeMask()
    ensures Mask(FAULT_COUNT) == KNOWN_FAULTS
  {
    assert Mask(4) == 0xF;
    assert Mask(8) == 0xFF;
  }

  /** The printed names are those of exactly the known bits. */
  lemma FaultNamesRoundTrip(bits: bv32)
    ensures BitsOf(FaultNames(bits)) == bits & KNOWN_FAULTS
  {
    BitsOfNames(bits, FAULT_COUNT);
    WholeMask();
  }

  lemma {:induction false} NamesAmong(bits: bv32, i: nat, n: nat)
    requires i < FAULT_COUNT && n <= FAULT_COUNT
    ensures Table()[i].name in NamesUpTo(bits, n) <==> i < n && Both(bits, Table()[i].bit) != 0
  {
    hide Table, Both;
    if n > 0 {
      NamesAmong(bits, i, n - 1);
      if i < n - 1 {
        NamesDistinct(i, n - 1);
      } else if n - 1 < i {
        NamesDistinct(n - 1, i);
      }
    }
  }

  /** Which name each bit has. */
  lemma NamesOfBits(bits: bv32)
    ensures var names := FaultNames(bits);
            && ("TRUNCATED" in names <==> Both(bits, 0x001) != 0)
            && ("BAD_HEADER" in names <==> Both(bits, 0x002) != 0)
            && ("UNSUPPORTED_FORMAT" in names <==> Both(bits, 0x004) != 0)
            && ("BAD_BLOCK_HEADER" in names <==> Both(bits, 0x008) != 0)
            && ("BAD_PAYLOAD" in names <==> Both(bits, 0x010) != 0)
            && ("SEQUENCE_GAP" in names <==> Both(bits, 0x020) != 0)
            && ("TIME_REGRESSION" in names <==> Both(bits, 0x040) != 0)
            && ("RUN_MISMATCH" in names <==> Both(bits, 0x080) != 0)
            && ("BAD_FOOTER" in names <==> Both(bits, 0x100) != 0)
            && ("FOOTER_MISMATCH" in names <==> Both(bits, 0x200) != 0)
            && ("TRAILING_DATA" in names <==> Both(bits, 0x400) != 0)
            && ("NO_FRAMES" in names <==> Both(bits, 0x800) != 0)
  {
    hide NamesUpTo, Both;
    forall i | 0 <= i < FAULT_COUNT
      ensures Table()[i].name in FaultNames(bits) <==> Both(bits, Table()[i].bit) != 0
    {
      NamesAmong(bits, i, FAULT_COUNT);
    }
    assert Table()[0].name in FaultNames(bits) <==> Both(bits, Table()[0].bit) != 0;
    assert Table()[1].name in FaultNames(bits) <==> Both(bits, Table()[1].bit) != 0;
    assert Table()[2].name in FaultNames(bits) <==> Both(bits, Table()[2].bit) != 0;
    assert Table()[3].name in FaultNames(bits) <==> Both(bits, Table()[3].bit) != 0;
    assert Table()[4].name in FaultNames(bits) <==> Both(bits, Table()[4].bit) != 0;
    assert Table()[5].name in FaultNames(bits) <==> Both(bits, Table()[5].bit) != 0;
    assert Table()[6].name in FaultNames(bits) <==> Both(bits, Table()[6].bit) != 0;
    assert Table()[7].name in FaultNames(bits) <==> Both(bits, Table()[7].bit) != 0;
    assert Table()[8].name in FaultNames(bits) <==> Both(bits, Table()[8].bit) != 0;
    assert Table()[9].name in FaultNames(bits) <==> Both(bits, Table()[9].bit) != 0;
    assert Table()[10].name in FaultNames(bits) <==> Both(bits, Table()[10].bit) != 0;
    assert Table()[11].name in FaultNames(bits) <==> Both(bits, Table()[11].bit) != 0;
  }

  // ---- The JSON list ----

  function Texts(names: seq<string>): (texts: seq<Json>)
    ensures |texts| == |names| && forall i :: 0 <= i < |names| ==> texts[i] == Text(names[i])
  {
    seq(|names|, i requires 0 <= i < |names| => Text(names[i]))
  }

  function FaultsJson(bits: bv32): Json {
    Array(Texts(FaultNames(bits)))
  }

  predicate IsNameChar(c: char) {
    'A' <= c <= 'Z' || c == '_'
  }

  lemma PlainName(i: nat)
    requires i < FAULT_COUNT
    ensures var name := Table()[i].name; |name| > 4 && forall k :: 0 <= k < |name| ==> IsNameChar(name[k])
  {
    if i >= 6 {
      LaterName(i);
      return;
    }
    match i
    case 0 => assert Table()[0].name == "TRUNCATED";
    case 1 => assert Table()[1].name == "BAD_HEADER";
    case 2 => assert Table()[2].name == "UNSUPPORTED_FORMAT";
    case 3 => assert Table()[3].name == "BAD_BLOCK_HEADER";
    case 4 => assert Table()[4].name == "BAD_PAYLOAD";
    case 5 => assert Table()[5].name == "SEQUENCE_GAP";
    case _ =>
  }

  lemma LaterName(i: nat)
    requires 6 <= i < FAULT_COUNT
    ensures var name := Table()[i].name; |name| > 4 && forall k :: 0 <= k < |name| ==> IsNameChar(name[k])
  {
    match i
    case 6 => assert Table()[6].name == "TIME_REGRESSION";
    case 7 => assert Table()[7].name == "RUN_MISMATCH";
    case 8 => assert Table()[8].name == "BAD_FOOTER";
    case 9 => assert Table()[9].name == "FOOTER_MISMATCH";
    case 10 => assert Table()[10].name == "TRAILING_DATA";
    case _ => assert Table()[11].name == "NO_FRAMES";
  }

  /** Text without quotes, backslashes and control characters is printed as it is. */
  lemma {:induction false} PlainText(text: string)
    requires forall k :: 0 <= k < |text| ==> FormOf(text[k]) == Plain
    ensures Escape(text) == text
  {
    if text != "" {
      PlainText(text[1..]);
      assert [text[0]] + text[1..] == text;
    }
  }

  lemma NoNames(bits: bv32)
    ensures NamesUpTo(bits, 0) == []
  {
  }

  lemma Regrouped(a: string, b: string, c: string, d: string)
    ensures a + (b + c + d) == a + b + c + d
  {
  }

  method PrintFaultsJson(bits: bv32) returns (out: string)
    ensures out == Print(FaultsJson(bits))
  {
    hide Escape, Print, Table, PrintElements, Texts, NamesUpTo, BitsOf, Both, Either;
    out := "[";
    NoElements();
    NoNames(bits);
    var first := true;
    for i := 0 to FAULT_COUNT
      invariant out == "[" + PrintElements(Texts(NamesUpTo(bits, i)))
      invariant first == (NamesUpTo(bits, i) == [])
    {
      NamesStep(bits, i + 1);
      if Both(bits, Table()[i].bit) != 0 {
        var separator, quoted := if first then "" else ",", "\"" + Table()[i].name + "\"";
        OneMoreName(NamesUpTo(bits, i), i);
        Regrouped("[", PrintElements(Texts(NamesUpTo(bits, i))), separator, quoted);
        out := out + separator + quoted;
        first := false;
      }
    }
    out := out + "]";
    PrintsArray(Texts(FaultNames(bits)));
  }

  lemma NoElements()
    ensures PrintElements(Texts([])) == ""
  {
  }

  lemma PrintsArray(elements: seq<Json>)
    ensures Print(Array(elements)) == "[" + PrintElements(elements) + "]"
  {
  }

  lemma OneMoreName(names: seq<string>, i: nat)
    requires i < FAULT_COUNT
    ensures PrintElements(Texts(names + [Table()[i].name]))
         == PrintElements(Texts(names)) + (if names == [] then "" else ",") + ("\"" + Table()[i].name + "\"")
  {
    hide Escape, Table, PrintElements;
    var name := Table()[i].name;
    PlainName(i);
    PlainText(name);
    assert Texts(names + [name]) == Texts(names) + [Text(name)];
    ElementsSnoc(Texts(names), Text(name));
  }

  // ---- The human list ----

  function Joined(names: seq<string>): string {
    if names == [] then ""
    else if |names| == 1 then names[0]
    else Joined(names[..|names| - 1]) + "," + names[|names| - 1]
  }

  function FaultsHuman(bits: bv32): string {
    if bits == 0 then "NONE" else Joined(FaultNames(bits))
  }

  lemma NothingJoined()
    ensures Joined([]) == ""
  {
  }

  lemma OneMoreJoined(names: seq<string>, name: string)
    ensures Joined(names + [name]) == Joined(names) + (if names == [] then "" else ",") + name
  {
    assert (names + [name])[..|names|] == names;
  }

  method PrintFaultsHuman(bits: bv32) returns (out: string)
    ensures out == FaultsHuman(bits)
  {
    hide Table, NamesUpTo, BitsOf, Both, Either, Joined;
    if bits == 0 {
      return "NONE";
    }
    NothingJoined();
    NoNames(bits);
    out := "";
    var first := true;
    for i := 0 to FAULT_COUNT
      invariant out == Joined(NamesUpTo(bits, i))
      invariant first == (NamesUpTo(bits, i) == [])
    {
      NamesStep(bits, i + 1);
      if Both(bits, Table()[i].bit) != 0 {
        OneMoreJoined(NamesUpTo(bits, i), Table()[i].name);
        if !first {
          out := out + ",";
        }
        out := out + Table()[i].name;
        first := false;
      }
    }
  }

  /** The pieces between commas. */
  function Split(s: string): (pieces: seq<string>)
    ensures pieces != []
  {
    if s == "" then [""]
    else if s[0] == ',' then [""] + Split(s[1..])
    else
      var rest := Split(s[1..]);
      [[s[0]] + rest[0]] + rest[1..]
  }

  ghost predicate CommaFree(name: string) {
    forall k :: 0 <= k < |name| ==> name[k] != ','
  }

  lemma {:induction false} SplitOne(name: string)
    requires CommaFree(name)
    ensures Split(name) == [name]
  {
    if name != "" {
      SplitOne(name[1..]);
      assert [name[0]] + name[1..] == name;
    }
  }

  lemma {:induction false} SplitSnoc(s: string, name: string)
    requires CommaFree(name)
    ensures Split(s + "," + name) == Split(s) + [name]
  {
    var all := s + "," + name;
    if s == "" {
      assert all[1..] == name;
      SplitOne(name);
    } else {
      SplitSnoc(s[1..], name);
      assert all[1..] == s[1..] + "," + name;
    }
  }

  lemma {:induction false} SplitJoined(names: seq<string>)
    requires names != [] && forall name :: name in names ==> CommaFree(name)
    ensures Split(Joined(names)) == names
    decreases |names|
  {
    if |names| == 1 {
      SplitOne(names[0]);
    } else {
      SplitJoined(names[..|names| - 1]);
      SplitSnoc(Joined(names[..|names| - 1]), names[|names| - 1]);
    }
  }

  lemma {:induction false} NamesInTable(bits: bv32, n: nat)
    requires n <= FAULT_COUNT
    ensures forall name :: name in NamesUpTo(bits, n) ==> CommaFree(name) && name != "NONE"
  {
    hide Table;
    if n > 0 {
      NamesInTable(bits, n - 1);
      PlainName(n - 1);
    }
  }

  /** The human list says NONE for no faults and for nothing else, and otherwise carries the same names
      in the same order as the JSON list. */
  lemma HumanListFaithful(bits: bv32)
    ensures FaultsHuman(bits) == "NONE" <==> bits == 0
    ensures bits & KNOWN_FAULTS != 0 ==> Split(FaultsHuman(bits)) == FaultNames(bits)
    ensures bits & KNOWN_FAULTS == 0 && bits != 0 ==> FaultsHuman(bits) == ""
  {
    hide NamesUpTo, BitOf, Split, Joined;
    NothingJoined();
    FaultNamesRoundTrip(bits);
    NamesInTable(bits, FAULT_COUNT);
    var names := FaultNames(bits);
    if names != [] {
      SplitJoined(names);
      NoneSplits(names);
    }
    if bits & KNOWN_FAULTS == 0 {
      NoKnownBit(bits, FAULT_COUNT);
    }
  }

  lemma NoneSplits(names: seq<string>)
    requires names != [] && (forall name :: name in names ==> CommaFree(name) && name != "NONE")
    ensures Joined(names) != "NONE"
  {
    SplitJoined(names);
    SplitOne("NONE");
    assert names[0] in names;
  }

  lemma {:induction false} NoKnownBit(bits: bv32, n: nat)
    requires n <= FAULT_COUNT && bits & KNOWN_FAULTS == 0
    ensures NamesUpTo(bits, n) == []
  {
    hide Table;
    if n > 0 {
      NoKnownBit(bits, n - 1);
      TableBit(bits, n - 1);
    }
  }
}
