// Little-endian words in byte sequences.
module LittleEndian {
  import opened Basics

  type uint16 = x: int | 0 <= x < 0x1_0000
  type uint32 = x: int | 0 <= x < 0x1_0000_0000

  // Byte i of a value, least significant first.
  function Byte0(v: uint32): byte { v % 0x100 }
  function Byte1(v: uint32): byte { v / 0x100 % 0x100 }
  function Byte2(v: uint32): byte { v / 0x1_0000 % 0x100 }
  function Byte3(v: uint32): byte { v / 0x100_0000 }

  function Word16(b0: byte, b1: byte): uint16 { b0 as int + 0x100 * b1 as int }

  function Word32(b0: byte, b1: byte, b2: byte, b3: byte): uint32 {
    b0 as int + 0x100 * b1 as int + 0x1_0000 * b2 as int + 0x100_0000 * b3 as int
  }

  lemma WordOfBytes(v: uint32)
    ensures Word32(Byte0(v), Byte1(v), Byte2(v), Byte3(v)) == v
    ensures v < 0x1_0000 ==> Word16(Byte0(v), Byte1(v)) == v
  {
    var q1 := v / 0x100;
    var q2 := q1 / 0x100;
    assert q2 == v / 0x1_0000;
    var q3 := q2 / 0x100;
    assert q3 == v / 0x100_0000;
    assert v == 0x100 * q1 + v % 0x100;
    assert q1 == 0x100 * q2 + q1 % 0x100;
    assert q2 == 0x100 * q3 + q2 % 0x100;
  }

  function Bytes16(v: uint16): (b: seq<byte>)
    ensures |b| == 2
  {
    [Byte0(v), Byte1(v)]
  }

  function Bytes32(v: uint32): (b: seq<byte>)
    ensures |b| == 4
  {
    [Byte0(v), Byte1(v), Byte2(v), Byte3(v)]
  }

  // Little-endian values at offset o.
  function U16At(s: seq<byte>, o: nat): uint16
    requires o + 2 <= |s|
  {
    Word16(s[o], s[o + 1])
  }

  function U32At(s: seq<byte>, o: nat): uint32
    requires o + 4 <= |s|
  {
    Word32(s[o], s[o + 1], s[o + 2], s[o + 3])
  }

  // The first byte counts ones: a number below 256 is that byte and zeros, and 256 times a number is a zero
  // byte and the number's first three.
  lemma FirstByteLeast(v: uint32)
    ensures v < 0x100 ==> Bytes32(v) == [v, 0, 0, 0] && Bytes16(v) == [v, 0]
    ensures v < 0x100_0000 ==> Bytes32(0x100 * v) == [0] + Bytes32(v)[..3]
    ensures v < 0x1_0000 ==> Bytes32(v) == Bytes16(v) + [0, 0]
  {
    if v < 0x100_0000 {
      assert 0x100 * v % 0x100 == 0 && 0x100 * v / 0x100 == v;
      assert 0x100 * v / 0x1_0000 == v / 0x100 && 0x100 * v / 0x100_0000 == v / 0x1_0000;
    }
  }

  // And the bytes of a word are those it was read from.
  lemma BytesOfWord(s: seq<byte>, o: nat)
    requires o + 4 <= |s|
    ensures Bytes32(U32At(s, o)) == s[o..o + 4]
  {
    var v := U32At(s, o);
    var q3: int := s[o + 3];
    var q2 := s[o + 2] + 0x100 * q3;
    var q1 := s[o + 1] + 0x100 * q2;
    Divided(q3, s[o + 2]);
    Divided(q2, s[o + 1]);
    Divided(q1, s[o]);
    DividedAgain(v);
    assert v == s[o] + 0x100 * q1;
    assert s[o..o + 4] == [s[o], s[o + 1], s[o + 2], s[o + 3]];
  }

  lemma Divided(q: nat, b: byte)
    ensures (b + 0x100 * q) % 0x100 == b && (b + 0x100 * q) / 0x100 == q
  {
  }

  lemma DividedAgain(v: nat)
    ensures v / 0x1_0000 == v / 0x100 / 0x100 && v / 0x100_0000 == v / 0x100 / 0x100 / 0x100
  {
  }

  lemma U32Bytes(s: seq<byte>, o: nat, v: uint32)
    requires o + 4 <= |s| && s[o..o + 4] == Bytes32(v)
    ensures U32At(s, o) == v
  {
    hide Byte0, Byte1, Byte2, Byte3, Word32;
    var t := s[o..o + 4];
    assert t[0] == s[o] && t[1] == s[o + 1] && t[2] == s[o + 2] && t[3] == s[o + 3];
    WordOfBytes(v);
  }

  lemma U16Bytes(s: seq<byte>, o: nat, v: uint16)
    requires o + 2 <= |s| && s[o..o + 2] == Bytes16(v)
    ensures U16At(s, o) == v
  {
    hide Byte0, Byte1, Word16;
    var t := s[o..o + 2];
    assert t[0] == s[o] && t[1] == s[o + 1];
    WordOfBytes(v);
  }
}
