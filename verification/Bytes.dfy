/** Byte strings as the recorder's structures lay them out in memory: little-endian
    numbers, and structures as consecutive fields of fixed width. */
module Bytes {
  type Byte = b: int | 0 <= b < 256
  type uint16 = x: int | 0 <= x < 0x1_0000
  type uint32 = x: int | 0 <= x < 0x1_0000_0000
  type uint64 = x: int | 0 <= x < 0x1_0000_0000_0000_0000

  /** Unsigned 32-bit addition, which wraps around. */
  function Add32(a: int, b: int): uint32 {
    (a + b) % 0x1_0000_0000
  }

  lemma Add32Twice(a: int, b: int, c: int)
    ensures Add32(Add32(a, b), c) == Add32(a, b + c)
  {
  }

  lemma Add32Small(n: int)
    requires 0 <= n < 0x1_0000_0000
    ensures Add32(0, n) == n
  {
  }

  function Pow256(width: nat): (p: nat)
    ensures p >= 1
  {
    if width == 0 then 1 else 256 * Pow256(width - 1)
  }

  lemma PowersOf256()
    ensures Pow256(1) == 256 && Pow256(2) == 0x1_0000
    ensures Pow256(4) == 0x1_0000_0000 && Pow256(8) == 0x1_0000_0000_0000_0000
  {
    assert Pow256(3) == 0x100_0000 && Pow256(5) == 0x100_0000_0000;
    assert Pow256(6) == 0x1_0000_0000_0000 && Pow256(7) == 0x100_0000_0000_0000;
  }

  /** The low `width` bytes of `value`, least significant first. */
  function LittleEndian(width: nat, value: nat): (bytes: seq<Byte>)
    ensures |bytes| == width
  {
    if width == 0 then [] else [value % 256] + LittleEndian(width - 1, value / 256)
  }

  function FromLittleEndian(bytes: seq<Byte>): nat {
    if bytes == [] then 0 else bytes[0] + 256 * FromLittleEndian(bytes[1..])
  }

  lemma {:induction false} LittleEndianRoundTrip(width: nat, value: nat)
    requires value < Pow256(width)
    ensures FromLittleEndian(LittleEndian(width, value)) == value
  {
    if width == 0 {
    } else {
      LittleEndianRoundTrip(width - 1, value / 256);
      assert LittleEndian(width, value)[1..] == LittleEndian(width - 1, value / 256);
    }
  }

  lemma {:induction false} FromLittleEndianBound(bytes: seq<Byte>)
    ensures FromLittleEndian(bytes) < Pow256(|bytes|)
    ensures LittleEndian(|bytes|, FromLittleEndian(bytes)) == bytes
  {
    if bytes == [] {
    } else {
      FromLittleEndianBound(bytes[1..]);
      var rest := FromLittleEndian(bytes[1..]);
      assert FromLittleEndian(bytes) % 256 == bytes[0] && FromLittleEndian(bytes) / 256 == rest;
      assert bytes == [bytes[0]] + bytes[1..];
    }
  }

  function U16(bytes: seq<Byte>): uint16
    requires |bytes| == 2
  {
    FromLittleEndianBound(bytes);
    PowersOf256();
    FromLittleEndian(bytes)
  }

  function U32(bytes: seq<Byte>): uint32
    requires |bytes| == 4
  {
    FromLittleEndianBound(bytes);
    PowersOf256();
    FromLittleEndian(bytes)
  }

  function U64(bytes: seq<Byte>): uint64
    requires |bytes| == 8
  {
    FromLittleEndianBound(bytes);
    PowersOf256();
    FromLittleEndian(bytes)
  }

  lemma U32RoundTrip(v: uint32)
    ensures U32(LittleEndian(4, v)) == v
  {
    PowersOf256();
    LittleEndianRoundTrip(4, v);
  }

  lemma NumbersRoundTrip()
    ensures forall v: uint16 :: U16(LittleEndian(2, v)) == v
    ensures forall v: uint32 :: U32(LittleEndian(4, v)) == v
    ensures forall v: uint64 :: U64(LittleEndian(8, v)) == v
  {
    PowersOf256();
    forall v: uint16 ensures U16(LittleEndian(2, v)) == v { LittleEndianRoundTrip(2, v); }
    forall v: uint32 ensures U32(LittleEndian(4, v)) == v { LittleEndianRoundTrip(4, v); }
    forall v: uint64 ensures U64(LittleEndian(8, v)) == v { LittleEndianRoundTrip(8, v); }
  }

  /** Distinct four-byte strings are distinct numbers. */
  lemma U32Injective(a: seq<Byte>, b: seq<Byte>)
    requires |a| == 4 && |b| == 4 && U32(a) == U32(b)
    ensures a == b
  {
    FromLittleEndianBound(a);
    FromLittleEndianBound(b);
  }

  lemma SliceOfSlice<T>(s: seq<T>, i: nat, j: nat, from: nat, to: nat)
    requires i <= j <= |s| && from <= to <= j - i
    ensures s[i..j][from..to] == s[i + from..i + to]
  {
    forall k | from <= k < to ensures s[i..j][k] == s[i + k] {
    }
    assert |s[i..j][from..to]| == |s[i + from..i + to]|;
    assert forall k :: 0 <= k < to - from ==> s[i..j][from..to][k] == s[i..j][from + k] == s[i + from..i + to][k];
  }

  function Flatten<T>(parts: seq<seq<T>>): seq<T> {
    if parts == [] then [] else parts[0] + Flatten(parts[1..])
  }

  function Sum(widths: seq<nat>): nat {
    if widths == [] then 0 else widths[0] + Sum(widths[1..])
  }

  /** Cuts a structure into its fields. */
  function Fields(widths: seq<nat>, bytes: seq<Byte>): (fields: seq<seq<Byte>>)
    requires |bytes| == Sum(widths)
    ensures |fields| == |widths|
    ensures forall i :: 0 <= i < |widths| ==> |fields[i]| == widths[i]
  {
    if widths == [] then []
    else [bytes[..widths[0]]] + Fields(widths[1..], bytes[widths[0]..])
  }

  ghost predicate HaveWidths(fields: seq<seq<Byte>>, widths: seq<nat>) {
    |fields| == |widths| && forall i :: 0 <= i < |fields| ==> |fields[i]| == widths[i]
  }

  lemma {:induction false} FieldsOfFlatten(fields: seq<seq<Byte>>, widths: seq<nat>)
    requires HaveWidths(fields, widths)
    ensures |Flatten(fields)| == Sum(widths)
    ensures Fields(widths, Flatten(fields)) == fields
  {
    if fields == [] {
    } else {
      FieldsOfFlatten(fields[1..], widths[1..]);
      assert Flatten(fields)[..widths[0]] == fields[0];
      assert Flatten(fields)[widths[0]..] == Flatten(fields[1..]);
    }
  }
}
