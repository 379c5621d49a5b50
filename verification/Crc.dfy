/** The CRC-32 of include/robot/telemetry/recording_file.hpp. */
module Crc {
  import opened Bytes

  const POLYNOMIAL: bv32 := 0xEDB8_8320
  const INITIAL: bv32 := 0xFFFF_FFFF

  /** One of the eight shifts made for each byte. */
  function Xor(a: bv32, b: bv32): bv32 {
    a ^ b
  }

  function Down(v: bv32): bv32 {
    v >> 1
  }

  function Feedback(crc: bv32): bv32 {
    POLYNOMIAL & (0 - (crc & 1))
  }

  function Shift(crc: bv32): bv32 {
    Xor(Down(crc), Feedback(crc))
  }

  function Shifts(crc: bv32, count: nat): bv32
    decreases count
  {
    if count == 0 then crc else Shifts(Shift(crc), count - 1)
  }

  function Pack(b0: bool, b1: bool, b2: bool, b3: bool, b4: bool, b5: bool, b6: bool, b7: bool): bv8 {
    (if b0 then 1 else 0) | (if b1 then 2 else 0) | (if b2 then 4 else 0) | (if b3 then 8 else 0)
    | (if b4 then 16 else 0) | (if b5 then 32 else 0) | (if b6 then 64 else 0) | (if b7 then 128 else 0)
  }

  predicate Odd(b: nat) {
    b % 2 == 1
  }

  function Half(b: nat): nat {
    b / 2
  }

  /** The eight bits of a byte. */
  function Bits(b: Byte): bv8 {
    var b1 := Half(b); var b2 := Half(b1); var b3 := Half(b2); var b4 := Half(b3);
    var b5 := Half(b4); var b6 := Half(b5); var b7 := Half(b6);
    Pack(Odd(b), Odd(b1), Odd(b2), Odd(b3), Odd(b4), Odd(b5), Odd(b6), Odd(b7))
  }

  function Mix(crc: bv32, bits: bv8): bv32 {
    crc ^ (bits as bv32)
  }

  function Absorb(crc: bv32, b: Byte): bv32 {
    Shifts(Mix(crc, Bits(b)), 8)
  }

  function Fold<S>(step: (S, Byte) -> S, state: S, data: seq<Byte>): S
    decreases |data|
  {
    if data == [] then state else Fold(step, step(state, data[0]), data[1..])
  }

  function Update(state: bv32, data: seq<Byte>): bv32 {
    Fold(Absorb, state, data)
  }

  // ---- Words and their bytes ----

  function Doubled(bit: bool, rest: nat): nat {
    (if bit then 1 else 0) + 2 * rest
  }

  predicate Bit(v: bv8, mask: bv8) {
    v & mask != 0
  }

  /** The byte with these bits. */
  function ByteOf(v: bv8): Byte {
    Doubled(Bit(v, 1), Doubled(Bit(v, 2), Doubled(Bit(v, 4), Doubled(Bit(v, 8),
      Doubled(Bit(v, 16), Doubled(Bit(v, 32), Doubled(Bit(v, 64), Doubled(Bit(v, 128), 0))))))))
  }

  function Low(x: bv32): bv8 {
    (x & 0xFF) as bv8
  }

  /** The bytes of a word in memory, least significant first. */
  function FourBytes(x: bv32): (bytes: seq<Byte>)
    ensures |bytes| == 4
  {
    [ByteOf(Low(x)), ByteOf(Low(x >> 8)), ByteOf(Low(x >> 16)), ByteOf(Low(x >> 24))]
  }

  function Word(p0: bv8, p1: bv8, p2: bv8, p3: bv8): bv32 {
    (p0 as bv32) ^ ((p1 as bv32) << 8) ^ ((p2 as bv32) << 16) ^ ((p3 as bv32) << 24)
  }

  /** The complement, as the number whose bytes in memory are the word's. */
  function Complement(crc: bv32): uint32 {
    U32(FourBytes(!crc))
  }

  function Checksum(data: seq<Byte>): uint32 {
    Complement(Update(INITIAL, data))
  }

  /** The two nested loops that compute the function above. */
  method ComputeUpdate(state: bv32, data: seq<Byte>) returns (crc: bv32)
    ensures crc == Update(state, data)
  {
    crc := state;
    for index := 0 to |data|
      invariant Fold(Absorb, crc, data[index..]) == Fold(Absorb, state, data)
    {
      ghost var before := crc;
      crc := Mix(crc, Bits(data[index]));
      for bit := 0 to 8
        invariant Shifts(crc, 8 - bit) == Absorb(before, data[index])
      {
        crc := Shift(crc);
      }
      assert data[index..][1..] == data[index + 1..];
    }
  }

  lemma {:induction false} FoldConcat<S>(step: (S, Byte) -> S, state: S, a: seq<Byte>, b: seq<Byte>)
    ensures Fold(step, state, a + b) == Fold(step, Fold(step, state, a), b)
    decreases |a|
  {
    if a == [] {
      assert a + b == b;
    } else {
      FoldConcat(step, step(state, a[0]), a[1..], b);
      assert (a + b)[1..] == a[1..] + b;
    }
  }

  /** A checksum can be computed over consecutive pieces of the data. */
  lemma UpdateConcat(state: bv32, a: seq<Byte>, b: seq<Byte>)
    ensures Update(state, a + b) == Update(Update(state, a), b)
  {
    FoldConcat(Absorb, state, a, b);
  }

  ghost predicate InjectiveInState<S(!new)>(step: (S, Byte) -> S) {
    forall x, y, b :: step(x, b) == step(y, b) ==> x == y
  }

  ghost predicate InjectiveInByte<S(!new)>(step: (S, Byte) -> S) {
    forall x, a, b :: step(x, a) == step(x, b) ==> a == b
  }

  /** The rest of the data never merges two different states. */
  lemma {:induction false} FoldInjective<S(!new)>(step: (S, Byte) -> S, x: S, y: S, data: seq<Byte>)
    requires InjectiveInState(step)
    requires Fold(step, x, data) == Fold(step, y, data)
    ensures x == y
    decreases |data|
  {
    if data != [] {
      FoldInjective(step, step(x, data[0]), step(y, data[0]), data[1..]);
    }
  }

  lemma {:induction false} OneByteChangesFold<S(!new)>(step: (S, Byte) -> S, state: S, data: seq<Byte>, i: nat, b: Byte)
    requires InjectiveInState(step) && InjectiveInByte(step)
    requires i < |data| && b != data[i]
    ensures Fold(step, state, data[i := b]) != Fold(step, state, data)
    decreases |data|
  {
    var other := data[i := b];
    if i == 0 {
      assert other[1..] == data[1..];
      if Fold(step, state, other) == Fold(step, state, data) {
        FoldInjective(step, step(state, b), step(state, data[0]), data[1..]);
      }
    } else {
      assert other[1..] == data[1..][i - 1 := b];
      OneByteChangesFold(step, step(state, data[0]), data[1..], i - 1, b);
    }
  }

  lemma ShiftInjective(x: bv32, y: bv32)
    requires Shift(x) == Shift(y)
    ensures x == y
  {
  }

  lemma {:induction false} ShiftsInjective(x: bv32, y: bv32, count: nat)
    requires Shifts(x, count) == Shifts(y, count)
    ensures x == y
    decreases count
  {
    if count != 0 {
      ShiftsInjective(Shift(x), Shift(y), count - 1);
      ShiftInjective(x, y);
    }
  }

  lemma MixInjective(x: bv32, y: bv32, p: bv8, q: bv8)
    ensures Mix(x, p) == Mix(y, p) ==> x == y
    ensures Mix(x, p) == Mix(x, q) ==> p == q
  {
  }

  lemma PackInjective(p0: bool, p1: bool, p2: bool, p3: bool, p4: bool, p5: bool, p6: bool, p7: bool,
                      q0: bool, q1: bool, q2: bool, q3: bool, q4: bool, q5: bool, q6: bool, q7: bool)
    requires Pack(p0, p1, p2, p3, p4, p5, p6, p7) == Pack(q0, q1, q2, q3, q4, q5, q6, q7)
    ensures p0 == q0 && p1 == q1 && p2 == q2 && p3 == q3 && p4 == q4 && p5 == q5 && p6 == q6 && p7 == q7
  {
  }

  lemma SameHalfAndParity(a: nat, b: nat)
    requires Half(a) == Half(b) && Odd(a) == Odd(b)
    ensures a == b
  {
  }

  lemma HalvesVanish(b: Byte)
    ensures Half(Half(Half(Half(Half(Half(Half(Half(b)))))))) == 0
  {
  }

  lemma BitsInjective(a: Byte, b: Byte)
    requires Bits(a) == Bits(b)
    ensures a == b
  {
    var a1 := Half(a); var a2 := Half(a1); var a3 := Half(a2); var a4 := Half(a3);
    var a5 := Half(a4); var a6 := Half(a5); var a7 := Half(a6);
    var b1 := Half(b); var b2 := Half(b1); var b3 := Half(b2); var b4 := Half(b3);
    var b5 := Half(b4); var b6 := Half(b5); var b7 := Half(b6);
    PackInjective(Odd(a), Odd(a1), Odd(a2), Odd(a3), Odd(a4), Odd(a5), Odd(a6), Odd(a7),
                  Odd(b), Odd(b1), Odd(b2), Odd(b3), Odd(b4), Odd(b5), Odd(b6), Odd(b7));
    HalvesVanish(a);
    HalvesVanish(b);
    SameHalfAndParity(a7, b7);
    SameHalfAndParity(a6, b6);
    SameHalfAndParity(a5, b5);
    SameHalfAndParity(a4, b4);
    SameHalfAndParity(a3, b3);
    SameHalfAndParity(a2, b2);
    SameHalfAndParity(a1, b1);
    SameHalfAndParity(a, b);
  }

  lemma MixAndShiftInjective(x: bv32, y: bv32, p: bv8, q: bv8, count: nat)
    ensures Shifts(Mix(x, p), count) == Shifts(Mix(y, p), count) ==> x == y
    ensures Shifts(Mix(x, p), count) == Shifts(Mix(x, q), count) ==> p == q
  {
    MixInjective(x, y, p, q);
    if Shifts(Mix(x, p), count) == Shifts(Mix(y, p), count) {
      ShiftsInjective(Mix(x, p), Mix(y, p), count);
    }
    if Shifts(Mix(x, p), count) == Shifts(Mix(x, q), count) {
      ShiftsInjective(Mix(x, p), Mix(x, q), count);
    }
  }

  lemma AbsorbInjectiveInState(x: bv32, y: bv32, b: Byte)
    requires Absorb(x, b) == Absorb(y, b)
    ensures x == y
  {
    MixAndShiftInjective(x, y, Bits(b), Bits(b), 8);
  }

  lemma AbsorbInjectiveInByte(x: bv32, a: Byte, b: Byte)
    requires Absorb(x, a) == Absorb(x, b)
    ensures a == b
  {
    MixAndShiftInjective(x, x, Bits(a), Bits(b), 8);
    BitsInjective(a, b);
  }

  lemma AbsorbInjective()
    ensures InjectiveInState(Absorb) && InjectiveInByte(Absorb)
  {
    forall x, y, b: Byte | Absorb(x, b) == Absorb(y, b) ensures x == y {
      AbsorbInjectiveInState(x, y, b);
    }
    forall x, a: Byte, b: Byte | Absorb(x, a) == Absorb(x, b) ensures a == b {
      AbsorbInjectiveInByte(x, a, b);
    }
  }

  lemma HalfOfDoubled(bit: bool, rest: nat)
    ensures Half(Doubled(bit, rest)) == rest && Odd(Doubled(bit, rest)) == bit
  {
  }

  lemma PackOfBits(v: bv8)
    ensures Pack(Bit(v, 1), Bit(v, 2), Bit(v, 4), Bit(v, 8), Bit(v, 16), Bit(v, 32), Bit(v, 64), Bit(v, 128)) == v
  {
  }

  lemma BitsOfByteOf(v: bv8)
    ensures Bits(ByteOf(v)) == v
  {
    hide Pack, Bit, Doubled, Half, Odd;
    var d7 := Doubled(Bit(v, 128), 0);
    var d6 := Doubled(Bit(v, 64), d7);
    var d5 := Doubled(Bit(v, 32), d6);
    var d4 := Doubled(Bit(v, 16), d5);
    var d3 := Doubled(Bit(v, 8), d4);
    var d2 := Doubled(Bit(v, 4), d3);
    var d1 := Doubled(Bit(v, 2), d2);
    HalfOfDoubled(Bit(v, 1), d1);
    HalfOfDoubled(Bit(v, 2), d2);
    HalfOfDoubled(Bit(v, 4), d3);
    HalfOfDoubled(Bit(v, 8), d4);
    HalfOfDoubled(Bit(v, 16), d5);
    HalfOfDoubled(Bit(v, 32), d6);
    HalfOfDoubled(Bit(v, 64), d7);
    HalfOfDoubled(Bit(v, 128), 0);
    PackOfBits(v);
  }

  lemma WordOfLows(x: bv32)
    ensures Word(Low(x), Low(x >> 8), Low(x >> 16), Low(x >> 24)) == x
  {
  }

  lemma WordInjective(p0: bv8, p1: bv8, p2: bv8, p3: bv8, q0: bv8, q1: bv8, q2: bv8, q3: bv8)
    requires Word(p0, p1, p2, p3) == Word(q0, q1, q2, q3)
    ensures p0 == q0 && p1 == q1 && p2 == q2 && p3 == q3
  {
  }

  /** The word whose bytes in memory these are. */
  function WordOf(bytes: seq<Byte>): bv32
    requires |bytes| == 4
  {
    Word(Bits(bytes[0]), Bits(bytes[1]), Bits(bytes[2]), Bits(bytes[3]))
  }

  lemma WordOfFourBytes(x: bv32)
    ensures WordOf(FourBytes(x)) == x
  {
    hide Bits, ByteOf, Low, Word;
    BitsOfByteOf(Low(x));
    BitsOfByteOf(Low(x >> 8));
    BitsOfByteOf(Low(x >> 16));
    BitsOfByteOf(Low(x >> 24));
    WordOfLows(x);
  }

  lemma WordOfInjective(a: seq<Byte>, b: seq<Byte>)
    requires |a| == 4 && |b| == 4 && WordOf(a) == WordOf(b)
    ensures a == b
  {
    hide Bits, Word;
    WordInjective(Bits(a[0]), Bits(a[1]), Bits(a[2]), Bits(a[3]), Bits(b[0]), Bits(b[1]), Bits(b[2]), Bits(b[3]));
    BitsInjective(a[0], b[0]);
    BitsInjective(a[1], b[1]);
    BitsInjective(a[2], b[2]);
    BitsInjective(a[3], b[3]);
  }

  lemma NotInjective(x: bv32, y: bv32)
    requires !x == !y
    ensures x == y
  {
  }

  lemma ComplementInjective(x: bv32, y: bv32)
    requires Complement(x) == Complement(y)
    ensures x == y
  {
    hide FourBytes, WordOf, U32;
    U32Injective(FourBytes(!x), FourBytes(!y));
    WordOfFourBytes(!x);
    WordOfFourBytes(!y);
    NotInjective(x, y);
  }

  /** Changing one byte always changes the checksum. */
  lemma OneByteChangesChecksum(data: seq<Byte>, i: nat, b: Byte)
    requires i < |data| && b != data[i]
    ensures Checksum(data[i := b]) != Checksum(data)
  {
    AbsorbInjective();
    OneByteChangesFold(Absorb, INITIAL, data, i, b);
    if Checksum(data[i := b]) == Checksum(data) {
      ComplementInjective(Update(INITIAL, data[i := b]), Update(INITIAL, data));
    }
  }

  // ---- A known checksum ----

  lemma EightShifts(c: bv32)
    ensures Shifts(c, 8) == Shift(Shift(Shift(Shift(Shift(Shift(Shift(Shift(c))))))))
  {
    hide Shift;
    assert Shifts(Shift(Shift(Shift(Shift(c)))), 4) == Shift(Shift(Shift(Shift(Shift(Shift(Shift(Shift(c))))))));
  }

  lemma DigitBytes()
    ensures ByteOf(0x31) == 0x31 && ByteOf(0x32) == 0x32 && ByteOf(0x33) == 0x33 && ByteOf(0x34) == 0x34
    ensures ByteOf(0x35) == 0x35 && ByteOf(0x36) == 0x36 && ByteOf(0x37) == 0x37 && ByteOf(0x38) == 0x38
    ensures ByteOf(0x39) == 0x39
  {
  }

  lemma DigitBits()
    ensures Bits(0x31) == 0x31 && Bits(0x32) == 0x32 && Bits(0x33) == 0x33 && Bits(0x34) == 0x34
    ensures Bits(0x35) == 0x35 && Bits(0x36) == 0x36 && Bits(0x37) == 0x37 && Bits(0x38) == 0x38 && Bits(0x39) == 0x39
  {
    hide Bits, ByteOf;
    DigitBytes();
    BitsOfByteOf(0x31);
    BitsOfByteOf(0x32);
    BitsOfByteOf(0x33);
    BitsOfByteOf(0x34);
    BitsOfByteOf(0x35);
    BitsOfByteOf(0x36);
    BitsOfByteOf(0x37);
    BitsOfByteOf(0x38);
    BitsOfByteOf(0x39);
  }

  lemma FirstDigits()
    ensures Shifts(Mix(0xFFFF_FFFF, 0x31), 8) == 0x7C23_1048
    ensures Shifts(Mix(0x7C23_1048, 0x32), 8) == 0xB0AC_BB32
    ensures Shifts(Mix(0xB0AC_BB32, 0x33), 8) == 0x77B7_9C2D
  {
    hide Shifts;
    EightShifts(Mix(0xFFFF_FFFF, 0x31));
    EightShifts(Mix(0x7C23_1048, 0x32));
    EightShifts(Mix(0xB0AC_BB32, 0x33));
  }

  lemma MiddleDigits()
    ensures Shifts(Mix(0x77B7_9C2D, 0x34), 8) == 0x641C_1F5C
    ensures Shifts(Mix(0x641C_1F5C, 0x35), 8) == 0x340A_C5E3
    ensures Shifts(Mix(0x340A_C5E3, 0x36), 8) == 0xF68D_2C9E
  {
    hide Shifts;
    EightShifts(Mix(0x77B7_9C2D, 0x34));
    EightShifts(Mix(0x641C_1F5C, 0x35));
    EightShifts(Mix(0x340A_C5E3, 0x36));
  }

  lemma LastDigits()
    ensures Shifts(Mix(0xF68D_2C9E, 0x37), 8) == 0xAFFC_9660
    ensures Shifts(Mix(0xAFFC_9660, 0x38), 8) == 0x651F_2550
    ensures Shifts(Mix(0x651F_2550, 0x39), 8) == 0x340B_C6D9
  {
    hide Shifts;
    EightShifts(Mix(0xF68D_2C9E, 0x37));
    EightShifts(Mix(0xAFFC_9660, 0x38));
    EightShifts(Mix(0x651F_2550, 0x39));
  }

  lemma KnownWord()
    ensures FourBytes(!(0x340B_C6D9 as bv32)) == [0x26, 0x39, 0xf4, 0xcb]
  {
    assert Low(0xCBF4_3926) == 0x26 && Low(0xCBF4_3926 >> 8) == 0x39;
    assert Low(0xCBF4_3926 >> 16) == 0xf4 && Low(0xCBF4_3926 >> 24) == 0xcb;
  }

  /** The published checksum of the nine digits "123456789". */
  lemma KnownChecksum()
    ensures Checksum([0x31, 0x32, 0x33, 0x34, 0x35, 0x36, 0x37, 0x38, 0x39]) == 0xCBF4_3926
  {
    hide Shifts, Mix, Bits, FourBytes;
    var digits: seq<Byte> := [0x31, 0x32, 0x33, 0x34, 0x35, 0x36, 0x37, 0x38, 0x39];
    FirstDigits();
    MiddleDigits();
    LastDigits();
    DigitBits();
    KnownWord();
    UpdateOne(0xFFFF_FFFF, digits, 0, 0x7C23_1048);
    UpdateOne(0x7C23_1048, digits, 1, 0xB0AC_BB32);
    UpdateOne(0xB0AC_BB32, digits, 2, 0x77B7_9C2D);
    UpdateOne(0x77B7_9C2D, digits, 3, 0x641C_1F5C);
    UpdateOne(0x641C_1F5C, digits, 4, 0x340A_C5E3);
    UpdateOne(0x340A_C5E3, digits, 5, 0xF68D_2C9E);
    UpdateOne(0xF68D_2C9E, digits, 6, 0xAFFC_9660);
    UpdateOne(0xAFFC_9660, digits, 7, 0x651F_2550);
    UpdateOne(0x651F_2550, digits, 8, 0x340B_C6D9);
    assert Update(0x340B_C6D9, digits[9..]) == 0x340B_C6D9;
    assert digits[0..] == digits;
    assert U32([0x26, 0x39, 0xf4, 0xcb]) == 0xCBF4_3926 by { KnownNumber(); }
  }

  lemma UpdateOne(state: bv32, data: seq<Byte>, i: nat, next: bv32)
    requires i < |data| && Absorb(state, data[i]) == next
    ensures Update(state, data[i..]) == Update(next, data[i + 1..])
  {
    hide Absorb;
    assert data[i..][1..] == data[i + 1..];
  }

  lemma KnownNumber()
    ensures U32([0x26, 0x39, 0xf4, 0xcb]) == 0xCBF4_3926
  {
    var b3: seq<Byte> := [0xcb];
    assert FromLittleEndian(b3) == 0xcb;
    assert FromLittleEndian([0xf4, 0xcb]) == 0xcbf4;
    assert FromLittleEndian([0x39, 0xf4, 0xcb]) == 0xcbf439;
  }
}
