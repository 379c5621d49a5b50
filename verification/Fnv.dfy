/** telemetryFnv1a of include/robot/telemetry/recording_file.hpp: the FNV-1a hash, from any seed. */
module Fnv {
  import opened Bytes
  import opened Crc

  const BASIS: uint32 := 2166136261
  const PRIME: nat := 16777619

  function XorBits(a: bv8, b: bv8): bv8 {
    a ^ b
  }

  function XorByte(a: Byte, b: Byte): Byte {
    ByteOf(XorBits(Bits(a), Bits(b)))
  }

  /** The low byte of a hash is all that a byte is mixed into. */
  function Mixed(hash: uint32, b: Byte): uint32 {
    hash / 256 * 256 + XorByte(hash % 256, b)
  }

  function Times(x: uint32): uint32 {
    x * PRIME % 0x1_0000_0000
  }

  function Step(hash: uint32, b: Byte): uint32 {
    Times(Mixed(hash, b))
  }

  function Hash(seed: uint32, data: seq<Byte>): uint32 {
    Fold(Step, seed, data)
  }

  method ComputeHash(data: seq<Byte>, seed: uint32) returns (hash: uint32)
    ensures hash == Hash(seed, data)
  {
    hide Mixed, Times;
    hash := seed;
    for index := 0 to |data|
      invariant Fold(Step, hash, data[index..]) == Fold(Step, seed, data)
    {
      hash := Times(Mixed(hash, data[index]));
      assert data[index..][1..] == data[index + 1..];
    }
  }

  // ---- Different data ----

  lemma ModOfSum(x: uint32, k: int)
    ensures (x + 0x1_0000_0000 * k) % 0x1_0000_0000 == x
  {
  }

  /** The prime has an inverse modulo 2^32, so nothing is lost by multiplying. */
  lemma TimesInverse(x: uint32)
    ensures Times(x) * 899433627 % 0x1_0000_0000 == x
  {
    var q := x * PRIME / 0x1_0000_0000;
    assert Times(x) == x * PRIME - 0x1_0000_0000 * q;
    assert Times(x) * 899433627 == x + 0x1_0000_0000 * (3513497 * x - 899433627 * q);
    ModOfSum(x, 3513497 * x - 899433627 * q);
  }

  lemma XorsApart(a: bv8, b: bv8, c: bv8)
    ensures XorBits(a, c) == XorBits(b, c) ==> a == b
    ensures XorBits(c, a) == XorBits(c, b) ==> a == b
  {
  }

  lemma XorBytesApart(a: Byte, b: Byte, c: Byte)
    ensures XorByte(a, c) == XorByte(b, c) ==> a == b
    ensures XorByte(c, a) == XorByte(c, b) ==> a == b
  {
    hide Bits, ByteOf, XorBits;
    XorsApart(Bits(a), Bits(b), Bits(c));
    BitsOfByteOf(XorBits(Bits(a), Bits(c)));
    BitsOfByteOf(XorBits(Bits(b), Bits(c)));
    BitsOfByteOf(XorBits(Bits(c), Bits(a)));
    BitsOfByteOf(XorBits(Bits(c), Bits(b)));
    if Bits(a) == Bits(b) {
      BitsInjective(a, b);
    }
  }

  lemma MixedApart(x: uint32, y: uint32, a: Byte, b: Byte)
    ensures Mixed(x, a) == Mixed(y, a) ==> x == y
    ensures Mixed(x, a) == Mixed(x, b) ==> a == b
  {
    hide XorByte;
    XorBytesApart(x % 256, y % 256, a);
    XorBytesApart(a, b, x % 256);
  }

  lemma StepsApart()
    ensures InjectiveInState(Step) && InjectiveInByte(Step)
  {
    hide Times, Mixed;
    forall x, y, b | Step(x, b) == Step(y, b) ensures x == y {
      TimesInverse(Mixed(x, b));
      TimesInverse(Mixed(y, b));
      MixedApart(x, y, b, b);
    }
    forall x, a, b | Step(x, a) == Step(x, b) ensures a == b {
      TimesInverse(Mixed(x, a));
      TimesInverse(Mixed(x, b));
      MixedApart(x, x, a, b);
    }
  }

  /** Data that differ in exactly one byte have different hashes. */
  lemma OneByteChangesHash(seed: uint32, data: seq<Byte>, i: nat, b: Byte)
    requires i < |data| && b != data[i]
    ensures Hash(seed, data[i := b]) != Hash(seed, data)
  {
    hide Step;
    StepsApart();
    OneByteChangesFold(Step, seed, data, i, b);
  }

  /** Hashing on from one hash is hashing the whole. */
  lemma HashConcat(seed: uint32, a: seq<Byte>, b: seq<Byte>)
    ensures Hash(seed, a + b) == Hash(Hash(seed, a), b)
  {
    FoldConcat(Step, seed, a, b);
  }

  /** The published hash of the one-letter text "a". */
  lemma KnownHash()
    ensures Hash(BASIS, [0x61]) == 0xE40C_292C
  {
    hide ByteOf, Bits, XorBits;
    assert [0x61][1..] == [];
    KnownXor();
  }

  lemma KnownXor()
    ensures XorByte(0xC5, 0x61) == 0xA4
  {
    hide Bits, ByteOf;
    KnownBytes();
    BitsOfByteOf(0xC5);
    BitsOfByteOf(0x61);
  }

  lemma KnownBytes()
    ensures ByteOf(0xC5) == 0xC5 && ByteOf(0x61) == 0x61 && ByteOf(0xA4) == 0xA4
  {
    hide Bits;
  }
}
