/** What the CRC-32 detects of longer changes: a change confined to four consecutive bytes always, and
    over data with its stored checksum as well as over data alone. */
module CrcBursts {
  import opened Bytes
  import opened Crc

  function Up8(v: bv32): bv32 {
    v << 8
  }

  function Up(v: bv32): bv32 {
    v << 1
  }

  predicate TopClear(v: bv32) {
    v & 0x8000_0000 == 0
  }

  lemma DownThrough(c: bv32, v: bv32)
    requires TopClear(v)
    ensures Down(Xor(c, Up(v))) == Xor(Down(c), v)
  {
  }

  lemma LowestBit(c: bv32, v: bv32)
    ensures Xor(c, Up(v)) & 1 == c & 1
  {
  }

  lemma FeedbackThrough(c: bv32, v: bv32)
    ensures Feedback(Xor(c, Up(v))) == Feedback(c)
  {
    hide Xor, Up;
    LowestBit(c, v);
  }

  lemma XorSwap(a: bv32, b: bv32, c: bv32)
    ensures Xor(Xor(a, b), c) == Xor(Xor(a, c), b)
  {
    hide Xor;
    XorAssociates(a, b, c);
    XorAssociates(a, c, b);
    XorCommutes(b, c);
  }

  lemma XorCommutes(a: bv32, b: bv32)
    ensures Xor(a, b) == Xor(b, a)
  {
  }

  /** A shift lets everything above the lowest bit through unchanged. */
  lemma ShiftThrough(c: bv32, v: bv32)
    requires TopClear(v)
    ensures Shift(Xor(c, Up(v))) == Xor(Shift(c), v)
  {
    hide Xor, Up, Down, Feedback, TopClear;
    DownThrough(c, v);
    FeedbackThrough(c, v);
    XorSwap(Down(c), v, Feedback(c));
  }

  function Ups(v: bv32, n: nat): bv32 {
    if n == 0 then v else Up(Ups(v, n - 1))
  }

  predicate Fits(v: bv32, n: nat) {
    n == 0 || (Fits(v, n - 1) && TopClear(Ups(v, n - 1)))
  }

  lemma {:induction false} ShiftsThrough(c: bv32, v: bv32, n: nat)
    requires Fits(v, n)
    ensures Shifts(Xor(c, Ups(v, n)), n) == Xor(Shifts(c, n), v)
    decreases n
  {
    hide Shift, Xor, Up, TopClear;
    if n > 0 {
      ShiftThrough(c, Ups(v, n - 1));
      ShiftsThrough(Shift(c), v, n - 1);
    }
  }

  predicate ThreeBytes(v: bv32) {
    v & 0xFF00_0000 == 0
  }

  lemma EightUp(v: bv32)
    requires ThreeBytes(v)
    ensures TopClear(v) && TopClear(v << 1) && TopClear(v << 2) && TopClear(v << 3)
    ensures TopClear(v << 4) && TopClear(v << 5) && TopClear(v << 6) && TopClear(v << 7)
    ensures Up(v) == v << 1 && Up(v << 1) == v << 2 && Up(v << 2) == v << 3 && Up(v << 3) == v << 4
    ensures Up(v << 4) == v << 5 && Up(v << 5) == v << 6 && Up(v << 6) == v << 7 && Up(v << 7) == Up8(v)
  {
  }

  lemma UpsOfEight(v: bv32)
    requires ThreeBytes(v)
    ensures Fits(v, 8) && Ups(v, 8) == Up8(v)
  {
    hide Up, Up8, TopClear, ThreeBytes;
    EightUp(v);
    assert Ups(v, 0) == v && Fits(v, 0);
    assert Ups(v, 1) == v << 1 && Fits(v, 1);
    assert Ups(v, 2) == v << 2 && Fits(v, 2);
    assert Ups(v, 3) == v << 3 && Fits(v, 3);
    assert Ups(v, 4) == v << 4 && Fits(v, 4);
    assert Ups(v, 5) == v << 5 && Fits(v, 5);
    assert Ups(v, 6) == v << 6 && Fits(v, 6);
    assert Ups(v, 7) == v << 7 && Fits(v, 7);
  }

  /** Absorbing a byte after eight shifts is absorbing it eight bits higher before them. */
  lemma EightThrough(c: bv32, v: bv32)
    requires ThreeBytes(v)
    ensures Xor(Shifts(c, 8), v) == Shifts(Xor(c, Up8(v)), 8)
  {
    hide Xor, Up8, Shift, ThreeBytes;
    UpsOfEight(v);
    ShiftsThrough(c, v, 8);
  }

  /** The thirty-two shifts made for four bytes. */
  function Churn(x: bv32): bv32 {
    Shifts(Shifts(Shifts(Shifts(x, 8), 8), 8), 8)
  }

  lemma ChurnInjective(x: bv32, y: bv32)
    requires Churn(x) == Churn(y)
    ensures x == y
  {
    hide Shifts;
    ShiftsInjective(Shifts(Shifts(Shifts(x, 8), 8), 8), Shifts(Shifts(Shifts(y, 8), 8), 8), 8);
    ShiftsInjective(Shifts(Shifts(x, 8), 8), Shifts(Shifts(y, 8), 8), 8);
    ShiftsInjective(Shifts(x, 8), Shifts(y, 8), 8);
    ShiftsInjective(x, y, 8);
  }

  lemma BytesFit(p: bv8)
    ensures var v := p as bv32; ThreeBytes(v) && ThreeBytes(Up8(v)) && ThreeBytes(Up8(Up8(v)))
  {
  }

  lemma MixIsXor(c: bv32, p: bv8)
    ensures Mix(c, p) == Xor(c, p as bv32)
  {
  }

  lemma WordParts(p0: bv8, p1: bv8, p2: bv8, p3: bv8)
    ensures var v0, v1, v2, v3 := p0 as bv32, p1 as bv32, p2 as bv32, p3 as bv32;
            Word(p0, p1, p2, p3) == Xor(Xor(Xor(v0, Up8(v1)), Up8(Up8(v2))), Up8(Up8(Up8(v3))))
  {
    hide Up8;
    ManyUp(p1 as bv32);
    ManyUp(p2 as bv32);
    ManyUp(p3 as bv32);
  }

  lemma ManyUp(v: bv32)
    ensures Up8(v) == v << 8 && Up8(Up8(v)) == v << 16 && Up8(Up8(Up8(v))) == v << 24
  {
  }

  lemma XorAssociates(a: bv32, b: bv32, c: bv32)
    ensures Xor(Xor(a, b), c) == Xor(a, Xor(b, c))
  {
  }

  lemma WordXors(c: bv32, p0: bv8, p1: bv8, p2: bv8, p3: bv8)
    ensures var v1, v2, v3 := p1 as bv32, p2 as bv32, p3 as bv32;
            Xor(Xor(Xor(Xor(c, p0 as bv32), Up8(v1)), Up8(Up8(v2))), Up8(Up8(Up8(v3)))) == Xor(c, Word(p0, p1, p2, p3))
  {
    hide Xor, Up8, Word;
    var v0, v1, v2, v3 := p0 as bv32, p1 as bv32, p2 as bv32, p3 as bv32;
    WordParts(p0, p1, p2, p3);
    XorAssociates(c, v0, Up8(v1));
    XorAssociates(c, Xor(v0, Up8(v1)), Up8(Up8(v2)));
    XorAssociates(c, Xor(Xor(v0, Up8(v1)), Up8(Up8(v2))), Up8(Up8(Up8(v3))));
  }

  lemma FourMixed(c: bv32, p0: bv8, p1: bv8, p2: bv8, p3: bv8)
    ensures Shifts(Mix(Shifts(Mix(Shifts(Mix(Shifts(Mix(c, p0), 8), p1), 8), p2), 8), p3), 8)
         == Churn(Xor(c, Word(p0, p1, p2, p3)))
  {
    hide Mix, Xor, Up8, Word, Shifts, ThreeBytes;
    var v0, v1, v2, v3 := p0 as bv32, p1 as bv32, p2 as bv32, p3 as bv32;
    MixIsXor(c, p0);
    BytesFit(p1);
    BytesFit(p2);
    BytesFit(p3);
    var x0 := Xor(c, v0);
    MixIsXor(Shifts(x0, 8), p1);
    EightThrough(x0, v1);
    var x1 := Xor(x0, Up8(v1));
    MixIsXor(Shifts(Shifts(x1, 8), 8), p2);
    EightThrough(Shifts(x1, 8), v2);
    EightThrough(x1, Up8(v2));
    var x2 := Xor(x1, Up8(Up8(v2)));
    MixIsXor(Shifts(Shifts(Shifts(x2, 8), 8), 8), p3);
    EightThrough(Shifts(Shifts(x2, 8), 8), v3);
    EightThrough(Shifts(x2, 8), Up8(v3));
    EightThrough(x2, Up8(Up8(v3)));
    WordXors(c, p0, p1, p2, p3);
  }

  /** Four bytes change the state as their word would, taken at once. */
  lemma FourAtOnce(c: bv32, bytes: seq<Byte>)
    requires |bytes| == 4
    ensures Update(c, bytes) == Churn(Xor(c, WordOf(bytes)))
  {
    hide Mix, Xor, Word, Shifts, Bits, Churn;
    FourFolded(c, bytes);
    FourMixed(c, Bits(bytes[0]), Bits(bytes[1]), Bits(bytes[2]), Bits(bytes[3]));
  }

  lemma FourFolded(c: bv32, bytes: seq<Byte>)
    requires |bytes| == 4
    ensures Update(c, bytes) == Absorb(Absorb(Absorb(Absorb(c, bytes[0]), bytes[1]), bytes[2]), bytes[3])
  {
    hide Absorb;
    var c1 := Absorb(c, bytes[0]);
    var c2 := Absorb(c1, bytes[1]);
    var c3 := Absorb(c2, bytes[2]);
    assert bytes[1..][1..] == bytes[2..] && bytes[2..][1..] == bytes[3..] && bytes[3..][1..] == [];
    assert Fold(Absorb, c3, bytes[3..]) == Fold(Absorb, Absorb(c3, bytes[3]), []);
    assert Fold(Absorb, c2, bytes[2..]) == Fold(Absorb, c3, bytes[3..]);
    assert Fold(Absorb, c1, bytes[1..]) == Fold(Absorb, c2, bytes[2..]);
  }

  lemma XorInjective(c: bv32, x: bv32, y: bv32)
    requires Xor(c, x) == Xor(c, y)
    ensures x == y
  {
  }

  /** From one state, different bytes, four or fewer, lead to different states. */
  lemma ShortBurst(c: bv32, x: seq<Byte>, y: seq<Byte>)
    requires |x| == |y| <= 4 && x != y
    ensures Update(c, x) != Update(c, y)
  {
    hide Update, WordOf, Churn, Xor;
    var zeros := seq(4 - |x|, _ => 0);
    UpdateConcat(c, x, zeros);
    UpdateConcat(c, y, zeros);
    FourAtOnce(c, x + zeros);
    FourAtOnce(c, y + zeros);
    assert (x + zeros)[..|x|] == x && (y + zeros)[..|y|] == y;
    if Update(c, x) == Update(c, y) {
      ChurnInjective(Xor(c, WordOf(x + zeros)), Xor(c, WordOf(y + zeros)));
      XorInjective(c, WordOf(x + zeros), WordOf(y + zeros));
      WordOfInjective(x + zeros, y + zeros);
    }
  }

  /** The same data but for four consecutive bytes, from the i-th on. */
  ghost predicate SameBut(data: seq<Byte>, other: seq<Byte>, i: nat) {
    |data| == |other| && forall k :: 0 <= k < |data| && (k < i || k >= i + 4) ==> data[k] == other[k]
  }

  /** Slices of data changed within four bytes are changed within four bytes. */
  lemma SameButSlice(data: seq<Byte>, other: seq<Byte>, i: nat, from: nat, to: nat)
    requires SameBut(data, other, i) && from <= to <= |data|
    ensures |other| == |data|
    ensures SameBut(data[from..to], other[from..to], if i < from then 0 else i - from)
  {
  }

  lemma BurstChangesUpdate(state: bv32, data: seq<Byte>, other: seq<Byte>, i: nat)
    requires SameBut(data, other, i) && data != other
    ensures Update(state, data) != Update(state, other)
  {
    hide Update;
    var from := if i <= |data| then i else |data|;
    var to := if from + 4 <= |data| then from + 4 else |data|;
    var head, x, y, tail := data[..from], data[from..to], other[from..to], data[to..];
    assert other[..from] == head && other[to..] == tail;
    assert data == head + (x + tail) && other == head + (y + tail);
    UpdateConcat(state, head, x + tail);
    UpdateConcat(state, head, y + tail);
    var c := Update(state, head);
    UpdateConcat(c, x, tail);
    UpdateConcat(c, y, tail);
    ShortBurst(c, x, y);
    if Update(state, data) == Update(state, other) {
      SameTail(Update(c, x), Update(c, y), tail);
    }
  }

  lemma SameTail(x: bv32, y: bv32, tail: seq<Byte>)
    requires Update(x, tail) == Update(y, tail)
    ensures x == y
  {
    hide Absorb;
    AbsorbInjective();
    FoldInjective(Absorb, x, y, tail);
  }

  /** Any change confined to four consecutive bytes changes the checksum. */
  lemma BurstChangesChecksum(data: seq<Byte>, other: seq<Byte>, i: nat)
    requires SameBut(data, other, i) && data != other
    ensures Checksum(data) != Checksum(other)
  {
    hide Update, Complement;
    BurstChangesUpdate(INITIAL, data, other, i);
    if Checksum(data) == Checksum(other) {
      ComplementInjective(Update(INITIAL, data), Update(INITIAL, other));
    }
  }

  // ---- Data followed by its checksum ----

  /** The state after any data and its own checksum. */
  const RESIDUE: bv32 := Churn(0xFFFF_FFFF)

  lemma XorOfOwnNot(x: bv32)
    ensures Xor(x, !x) == 0xFFFF_FFFF
  {
  }

  lemma XorOfNot(x: bv32, w: bv32)
    ensures Xor(x, w) == 0xFFFF_FFFF <==> w == !x
  {
    hide Xor;
    XorOfOwnNot(x);
    if Xor(x, w) == 0xFFFF_FFFF {
      XorInjective(x, w, !x);
    }
  }

  /** Four bytes are the checksum of what was absorbed before exactly if they lead to the residue. */
  lemma ResidueOfChecksum(state: bv32, stored: seq<Byte>)
    requires |stored| == 4
    ensures Update(state, stored) == RESIDUE <==> U32(stored) == Complement(state)
  {
    hide Update, WordOf, Churn, Xor, U32, FourBytes;
    FourAtOnce(state, stored);
    XorOfNot(state, WordOf(stored));
    WordOfFourBytes(!state);
    if Update(state, stored) == RESIDUE {
      ChurnInjective(Xor(state, WordOf(stored)), 0xFFFF_FFFF);
      WordOfInjective(stored, FourBytes(!state));
    }
    if U32(stored) == Complement(state) {
      U32Injective(stored, FourBytes(!state));
    }
  }
}
