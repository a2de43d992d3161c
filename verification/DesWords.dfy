// Word-level facts behind the DES code: its rotated, byte-spread representation against FIPS 46-3.
module DesWords {
  import opened DesTables
  import opened Feistel
  import opened Fips46

  // The code keeps both halves rotated left by one bit during the rounds.
  function RotL1(x: bv32): bv32 { (x << 1) | (x >> 31) }

  function RotR1(x: bv32): bv32 { (x << 31) | (x >> 1) }

  function RotR4(x: bv32): bv32 { (x << 28) | (x >> 4) }

  // A 48-bit round key is spread over two words, one sextet in the low six bits of each byte.
  function PackEven(k: bv48): bv32 {
    (((k >> 36) & 0x3F) as bv32 << 24) | (((k >> 24) & 0x3F) as bv32 << 16) |
    (((k >> 12) & 0x3F) as bv32 << 8) | ((k & 0x3F) as bv32)
  }

  function PackOdd(k: bv48): bv32 {
    (((k >> 42) & 0x3F) as bv32 << 24) | (((k >> 30) & 0x3F) as bv32 << 16) |
    (((k >> 18) & 0x3F) as bv32 << 8) | (((k >> 6) & 0x3F) as bv32)
  }

  // The round key that two arbitrary subkey words stand for.
  function Unpack(even: bv32, odd: bv32): bv48 {
    (((odd >> 24) & 0x3F) as bv48 << 42) | (((even >> 24) & 0x3F) as bv48 << 36) |
    (((odd >> 16) & 0x3F) as bv48 << 30) | (((even >> 16) & 0x3F) as bv48 << 24) |
    (((odd >> 8) & 0x3F) as bv48 << 18) | (((even >> 8) & 0x3F) as bv48 << 12) |
    ((odd & 0x3F) as bv48 << 6) | ((even & 0x3F) as bv48)
  }

  lemma UnpackPack(k: bv48)
    ensures Unpack(PackEven(k), PackOdd(k)) == k
  {
  }

  lemma RotInverse(x: bv32)
    ensures RotL1(RotR1(x)) == x && RotR1(RotL1(x)) == x
  {
  }

  // The sum of four table entries, and of the eight of a round, in the order the code adds them.
  function Sum(a: bv32, b: bv32, c: bv32, d: bv32): bv32 { a ^ b ^ c ^ d }

  function Mix(a8: bv32, a6: bv32, a4: bv32, a2: bv32, a7: bv32, a5: bv32, a3: bv32, a1: bv32): bv32 {
    Xor(Sum(a8, a6, a4, a2), Sum(a7, a5, a3, a1))
  }

  lemma MixIsSums(a8: bv32, a6: bv32, a4: bv32, a2: bv32, a7: bv32, a5: bv32, a3: bv32, a1: bv32)
    ensures Mix(a8, a6, a4, a2, a7, a5, a3, a1) == Xor(Sum(a8, a6, a4, a2), Sum(a7, a5, a3, a1))
  {
    hide Sum, Xor;
  }

  // The table subscripts in a word: the low six bits of each byte.
  function Sub0(t: bv32): bv6 { (t & 0x3F) as bv6 }
  function Sub8(t: bv32): bv6 { ((t >> 8) & 0x3F) as bv6 }
  function Sub16(t: bv32): bv6 { ((t >> 16) & 0x3F) as bv6 }
  function Sub24(t: bv32): bv6 { ((t >> 24) & 0x3F) as bv6 }

  // In a round the subscripts are the six-bit blocks of E(R) xor K.
  lemma Subscript1(x: bv32, even: bv32, odd: bv32)
    ensures Sub24(Xor(odd, RotR4(x))) == B1(Expanded(RotR1(x), Unpack(even, odd)))
  {
  }

  lemma Subscript2(x: bv32, even: bv32, odd: bv32)
    ensures Sub24(Xor(even, x)) == B2(Expanded(RotR1(x), Unpack(even, odd)))
  {
  }

  lemma Subscript3(x: bv32, even: bv32, odd: bv32)
    ensures Sub16(Xor(odd, RotR4(x))) == B3(Expanded(RotR1(x), Unpack(even, odd)))
  {
  }

  lemma Subscript4(x: bv32, even: bv32, odd: bv32)
    ensures Sub16(Xor(even, x)) == B4(Expanded(RotR1(x), Unpack(even, odd)))
  {
  }

  lemma Subscript5(x: bv32, even: bv32, odd: bv32)
    ensures Sub8(Xor(odd, RotR4(x))) == B5(Expanded(RotR1(x), Unpack(even, odd)))
  {
  }

  lemma Subscript6(x: bv32, even: bv32, odd: bv32)
    ensures Sub8(Xor(even, x)) == B6(Expanded(RotR1(x), Unpack(even, odd)))
  {
  }

  lemma Subscript7(x: bv32, even: bv32, odd: bv32)
    ensures Sub0(Xor(odd, RotR4(x))) == B7(Expanded(RotR1(x), Unpack(even, odd)))
  {
  }

  lemma Subscript8(x: bv32, even: bv32, odd: bv32)
    ensures Sub0(Xor(even, x)) == B8(Expanded(RotR1(x), Unpack(even, odd)))
  {
  }

  // Permutation P moves each selection output to its own bits, so it distributes over the eight boxes.
  lemma PSpreads(s1: bv4, s2: bv4, s3: bv4, s4: bv4, s5: bv4, s6: bv4, s7: bv4, s8: bv4)
    ensures RotL1(P(Nibbles(s1, s2, s3, s4, s5, s6, s7, s8))) ==
            Mix(RotL1(P((s8 as bv32) << 0)), RotL1(P((s6 as bv32) << 8)), RotL1(P((s4 as bv32) << 16)), RotL1(P((s2 as bv32) << 24)),
                RotL1(P((s7 as bv32) << 4)), RotL1(P((s5 as bv32) << 12)), RotL1(P((s3 as bv32) << 20)), RotL1(P((s1 as bv32) << 28)))
  {
  }

  lemma Spread1(v: bv32)
    requires v <= 15
    ensures RotL1(P(v << 28)) == (((v >> 3) & 1) << 24) | (((v >> 2) & 1) << 16) | (((v >> 1) & 1) << 10) | (((v >> 0) & 1) << 2)
  {
  }

  lemma Selection1(i: bv6)
    ensures var v := S1(i) as bv32;
      SB1(i) == (((v >> 3) & 1) << 24) | (((v >> 2) & 1) << 16) | (((v >> 1) & 1) << 10) | (((v >> 0) & 1) << 2)
  {
  }

  lemma Box1(i: bv6)
    ensures SB1(i) == RotL1(P((S1(i) as bv32) << 28))
  {
    hide *;
    Selection1(i);
    Spread1(S1(i) as bv32);
  }

  lemma Spread2(v: bv32)
    requires v <= 15
    ensures RotL1(P(v << 24)) == (((v >> 3) & 1) << 20) | (((v >> 2) & 1) << 5) | (((v >> 1) & 1) << 31) | (((v >> 0) & 1) << 15)
  {
  }

  lemma Selection2(i: bv6)
    ensures var v := S2(i) as bv32;
      SB2(i) == (((v >> 3) & 1) << 20) | (((v >> 2) & 1) << 5) | (((v >> 1) & 1) << 31) | (((v >> 0) & 1) << 15)
  {
  }

  lemma Box2(i: bv6)
    ensures SB2(i) == RotL1(P((S2(i) as bv32) << 24))
  {
    hide *;
    Selection2(i);
    Spread2(S2(i) as bv32);
  }

  lemma Spread3(v: bv32)
    requires v <= 15
    ensures RotL1(P(v << 20)) == (((v >> 3) & 1) << 9) | (((v >> 2) & 1) << 17) | (((v >> 1) & 1) << 3) | (((v >> 0) & 1) << 27)
  {
  }

  lemma Selection3(i: bv6)
    ensures var v := S3(i) as bv32;
      SB3(i) == (((v >> 3) & 1) << 9) | (((v >> 2) & 1) << 17) | (((v >> 1) & 1) << 3) | (((v >> 0) & 1) << 27)
  {
  }

  lemma Box3(i: bv6)
    ensures SB3(i) == RotL1(P((S3(i) as bv32) << 20))
  {
    hide *;
    Selection3(i);
    Spread3(S3(i) as bv32);
  }

  lemma Spread4(v: bv32)
    requires v <= 15
    ensures RotL1(P(v << 16)) == (((v >> 3) & 1) << 7) | (((v >> 2) & 1) << 13) | (((v >> 1) & 1) << 23) | (((v >> 0) & 1) << 0)
  {
  }

  lemma Selection4(i: bv6)
    ensures var v := S4(i) as bv32;
      SB4(i) == (((v >> 3) & 1) << 7) | (((v >> 2) & 1) << 13) | (((v >> 1) & 1) << 23) | (((v >> 0) & 1) << 0)
  {
  }

  lemma Box4(i: bv6)
    ensures SB4(i) == RotL1(P((S4(i) as bv32) << 16))
  {
    hide *;
    Selection4(i);
    Spread4(S4(i) as bv32);
  }

  lemma Spread5(v: bv32)
    requires v <= 15
    ensures RotL1(P(v << 12)) == (((v >> 3) & 1) << 25) | (((v >> 2) & 1) << 19) | (((v >> 1) & 1) << 8) | (((v >> 0) & 1) << 30)
  {
  }

  lemma Selection5(i: bv6)
    ensures var v := S5(i) as bv32;
      SB5(i) == (((v >> 3) & 1) << 25) | (((v >> 2) & 1) << 19) | (((v >> 1) & 1) << 8) | (((v >> 0) & 1) << 30)
  {
  }

  lemma Box5(i: bv6)
    ensures SB5(i) == RotL1(P((S5(i) as bv32) << 12))
  {
    hide *;
    Selection5(i);
    Spread5(S5(i) as bv32);
  }

  lemma Spread6(v: bv32)
    requires v <= 15
    ensures RotL1(P(v << 8)) == (((v >> 3) & 1) << 29) | (((v >> 2) & 1) << 4) | (((v >> 1) & 1) << 22) | (((v >> 0) & 1) << 14)
  {
  }

  lemma Selection6(i: bv6)
    ensures var v := S6(i) as bv32;
      SB6(i) == (((v >> 3) & 1) << 29) | (((v >> 2) & 1) << 4) | (((v >> 1) & 1) << 22) | (((v >> 0) & 1) << 14)
  {
  }

  lemma Box6(i: bv6)
    ensures SB6(i) == RotL1(P((S6(i) as bv32) << 8))
  {
    hide *;
    Selection6(i);
    Spread6(S6(i) as bv32);
  }

  lemma Spread7(v: bv32)
    requires v <= 15
    ensures RotL1(P(v << 4)) == (((v >> 3) & 1) << 1) | (((v >> 2) & 1) << 21) | (((v >> 1) & 1) << 11) | (((v >> 0) & 1) << 26)
  {
  }

  lemma Selection7(i: bv6)
    ensures var v := S7(i) as bv32;
      SB7(i) == (((v >> 3) & 1) << 1) | (((v >> 2) & 1) << 21) | (((v >> 1) & 1) << 11) | (((v >> 0) & 1) << 26)
  {
  }

  lemma Box7(i: bv6)
    ensures SB7(i) == RotL1(P((S7(i) as bv32) << 4))
  {
    hide *;
    Selection7(i);
    Spread7(S7(i) as bv32);
  }

  lemma Spread8(v: bv32)
    requires v <= 15
    ensures RotL1(P(v << 0)) == (((v >> 3) & 1) << 28) | (((v >> 2) & 1) << 6) | (((v >> 1) & 1) << 18) | (((v >> 0) & 1) << 12)
  {
  }

  lemma Selection8(i: bv6)
    ensures var v := S8(i) as bv32;
      SB8(i) == (((v >> 3) & 1) << 28) | (((v >> 2) & 1) << 6) | (((v >> 1) & 1) << 18) | (((v >> 0) & 1) << 12)
  {
  }

  lemma Box8(i: bv6)
    ensures SB8(i) == RotL1(P((S8(i) as bv32) << 0))
  {
    hide *;
    Selection8(i);
    Spread8(S8(i) as bv32);
  }

  // The fused tables add up to the selection functions followed by P.
  lemma SelectionsByTables(i1: bv6, i2: bv6, i3: bv6, i4: bv6, i5: bv6, i6: bv6, i7: bv6, i8: bv6)
    ensures RotL1(P(Nibbles(S1(i1), S2(i2), S3(i3), S4(i4), S5(i5), S6(i6), S7(i7), S8(i8)))) ==
            Mix(SB8(i8), SB6(i6), SB4(i4), SB2(i2), SB7(i7), SB5(i5), SB3(i3), SB1(i1))
  {
    hide *;
    Box1(i1); Box2(i2); Box3(i3); Box4(i4); Box5(i5); Box6(i6); Box7(i7); Box8(i8);
    PSpreads(S1(i1), S2(i2), S3(i3), S4(i4), S5(i5), S6(i6), S7(i7), S8(i8));
  }

  // One half-update of the code is the cipher function of FIPS 46-3: t and u are the two index words.
  lemma RoundIsF(x: bv32, even: bv32, odd: bv32, t: bv32, u: bv32)
    requires t == Xor(even, x) && u == Xor(odd, RotR4(x))
    ensures RotL1(F(RotR1(x), Unpack(even, odd))) ==
            Xor(Sum(SB8(Sub0(t)), SB6(Sub8(t)), SB4(Sub16(t)), SB2(Sub24(t))),
                Sum(SB7(Sub0(u)), SB5(Sub8(u)), SB3(Sub16(u)), SB1(Sub24(u))))
  {
    hide *;
    MixIsSums(SB8(Sub0(t)), SB6(Sub8(t)), SB4(Sub16(t)), SB2(Sub24(t)),
              SB7(Sub0(u)), SB5(Sub8(u)), SB3(Sub16(u)), SB1(Sub24(u)));
    FByTables(RotR1(x), Unpack(even, odd));
    Subscript1(x, even, odd); Subscript2(x, even, odd); Subscript3(x, even, odd); Subscript4(x, even, odd);
    Subscript5(x, even, odd); Subscript6(x, even, odd); Subscript7(x, even, odd); Subscript8(x, even, odd);
  }

  lemma FByTables(r: bv32, k: bv48)
    ensures
      var b := Expanded(r, k);
      RotL1(F(r, k)) ==
      Mix(SB8(B8(b)), SB6(B6(b)), SB4(B4(b)), SB2(B2(b)), SB7(B7(b)), SB5(B5(b)), SB3(B3(b)), SB1(B1(b)))
  {
    FUnfold(r, k);
    hide *;
    var b := Expanded(r, k);
    SelectionsByTables(B1(b), B2(b), B3(b), B4(b), B5(b), B6(b), B7(b), B8(b));
  }

  lemma FUnfold(r: bv32, k: bv48)
    ensures
      var b := Expanded(r, k);
      F(r, k) == P(Nibbles(S1(B1(b)), S2(B2(b)), S3(B3(b)), S4(B4(b)), S5(B5(b)), S6(B6(b)), S7(B7(b)), S8(B8(b))))
  {
    hide Expanded, P, Nibbles, S1, S2, S3, S4, S5, S6, S7, S8, B1, B2, B3, B4, B5, B6, B7, B8;
  }

  // Adding the two table sums of a round to a rotated half, one after the other.
  lemma AddSums(y: bv32, f: bv32, a: bv32, b: bv32)
    requires RotL1(f) == Xor(a, b)
    ensures RotR1(Xor(Xor(y, a), b)) == Xor(RotR1(y), f)
  {
  }

  // Initial permutation macro.  The result holds the updated word X above the updated word Y.
  function DesIp(x0: bv32, y0: bv32): bv64
  {
    var t := ((x0 >> 4) ^ y0) & 0x0F0F0F0F; var y := y0 ^ t; var x := x0 ^ (t << 4);
    var t := ((x >> 16) ^ y) & 0x0000FFFF; var y := y ^ t; var x := x ^ (t << 16);
    var t := ((y >> 2) ^ x) & 0x33333333; var x := x ^ t; var y := y ^ (t << 2);
    var t := ((y >> 8) ^ x) & 0x00FF00FF; var x := x ^ t; var y := y ^ (t << 8);
    var y := (y << 1) | (y >> 31);
    var t := (x ^ y) & 0xAAAAAAAA; var y := y ^ t; var x := x ^ t;
    var x := (x << 1) | (x >> 31);
    Join(x, y)
  }

  // Final permutation macro, on words still rotated left by one; X above Y.
  function DesFp(x0: bv32, y0: bv32): bv64
  {
    var x := (x0 << 31) | (x0 >> 1);
    var t := (x ^ y0) & 0xAAAAAAAA; var x := x ^ t; var y := y0 ^ t;
    var y := (y << 31) | (y >> 1);
    var t := ((y >> 8) ^ x) & 0x00FF00FF; var x := x ^ t; var y := y ^ (t << 8);
    var t := ((y >> 2) ^ x) & 0x33333333; var x := x ^ t; var y := y ^ (t << 2);
    var t := ((x >> 16) ^ y) & 0x0000FFFF; var y := y ^ t; var x := x ^ (t << 16);
    var t := ((x >> 4) ^ y) & 0x0F0F0F0F; var y := y ^ t; var x := x ^ (t << 4);
    Join(x, y)
  }

  lemma DesIpIsIP(x: bv32, y: bv32)
    ensures DesIp(x, y) == Join(RotL1(Hi(IP(Join(x, y)))), RotL1(Lo(IP(Join(x, y)))))
  {
  }

  lemma DesFpIsFP(x: bv32, y: bv32)
    ensures DesFp(x, y) == FP(Join(RotR1(x), RotR1(y)))
  {
  }

  // The halves of permuted choice 1 from the partially swapped key words: four-bit table lookups.
  function Pc1Left(x: bv32): bv32 {
    ((LHs((x & 0xF) as bv4) << 3) | (LHs(((x >> 8) & 0xF) as bv4) << 2) | (LHs(((x >> 16) & 0xF) as bv4) << 1) | LHs(((x >> 24) & 0xF) as bv4) |
     (LHs(((x >> 5) & 0xF) as bv4) << 7) | (LHs(((x >> 13) & 0xF) as bv4) << 6) | (LHs(((x >> 21) & 0xF) as bv4) << 5) | (LHs(((x >> 29) & 0xF) as bv4) << 4)) & 0x0FFFFFFF
  }

  function Pc1Right(y: bv32): bv32 {
    ((RHs(((y >> 1) & 0xF) as bv4) << 3) | (RHs(((y >> 9) & 0xF) as bv4) << 2) | (RHs(((y >> 17) & 0xF) as bv4) << 1) | RHs(((y >> 25) & 0xF) as bv4) |
     (RHs(((y >> 4) & 0xF) as bv4) << 7) | (RHs(((y >> 12) & 0xF) as bv4) << 6) | (RHs(((y >> 20) & 0xF) as bv4) << 5) | (RHs(((y >> 28) & 0xF) as bv4) << 4)) & 0x0FFFFFFF
  }

  lemma LHsSpreads(i: bv4)
    ensures var v := i as bv32;
      LHs(i) == (v & 1) | (((v >> 1) & 1) << 8) | (((v >> 2) & 1) << 16) | (((v >> 3) & 1) << 24)
  {
  }

  lemma RHsSpreads(i: bv4)
    ensures var v := i as bv32;
      RHs(i) == ((v & 1) << 24) | (((v >> 1) & 1) << 16) | (((v >> 2) & 1) << 8) | ((v >> 3) & 1)
  {
  }

  // The same, bit by bit.
  function WiresLeft(x: bv32): bv32 {
    (((x >>  3) & 1) << 27) | (((x >> 11) & 1) << 26) | (((x >> 19) & 1) << 25) | (((x >> 27) & 1) << 24) |
    (((x >>  7) & 1) << 23) | (((x >> 15) & 1) << 22) | (((x >> 23) & 1) << 21) | (((x >> 31) & 1) << 20) |
    (((x >>  2) & 1) << 19) | (((x >> 10) & 1) << 18) | (((x >> 18) & 1) << 17) | (((x >> 26) & 1) << 16) |
    (((x >>  6) & 1) << 15) | (((x >> 14) & 1) << 14) | (((x >> 22) & 1) << 13) | (((x >> 30) & 1) << 12) |
    (((x >>  1) & 1) << 11) | (((x >>  9) & 1) << 10) | (((x >> 17) & 1) <<  9) | (((x >> 25) & 1) <<  8) |
    (((x >>  5) & 1) <<  7) | (((x >> 13) & 1) <<  6) | (((x >> 21) & 1) <<  5) | (((x >> 29) & 1) <<  4) |
    ((x & 1) <<  3) | (((x >>  8) & 1) <<  2) | (((x >> 16) & 1) <<  1) | ((x >> 24) & 1)
  }

  lemma Pc1LeftWires(x: bv32)
    ensures Pc1Left(x) == WiresLeft(x)
  {
    hide LHs;
    LHsSpreads((x & 0xF) as bv4);
    LHsSpreads(((x >> 8) & 0xF) as bv4);
    LHsSpreads(((x >> 16) & 0xF) as bv4);
    LHsSpreads(((x >> 24) & 0xF) as bv4);
    LHsSpreads(((x >> 5) & 0xF) as bv4);
    LHsSpreads(((x >> 13) & 0xF) as bv4);
    LHsSpreads(((x >> 21) & 0xF) as bv4);
    LHsSpreads(((x >> 29) & 0xF) as bv4);
  }

  function WiresRight(y: bv32): bv32 {
    (((y >>  1) & 1) << 27) | (((y >>  9) & 1) << 26) | (((y >> 17) & 1) << 25) | (((y >> 25) & 1) << 24) |
    (((y >>  5) & 1) << 23) | (((y >> 13) & 1) << 22) | (((y >> 21) & 1) << 21) | (((y >> 29) & 1) << 20) |
    (((y >>  2) & 1) << 19) | (((y >> 10) & 1) << 18) | (((y >> 18) & 1) << 17) | (((y >> 26) & 1) << 16) |
    (((y >>  6) & 1) << 15) | (((y >> 14) & 1) << 14) | (((y >> 22) & 1) << 13) | (((y >> 30) & 1) << 12) |
    (((y >>  3) & 1) << 11) | (((y >> 11) & 1) << 10) | (((y >> 19) & 1) <<  9) | (((y >> 27) & 1) <<  8) |
    (((y >>  7) & 1) <<  7) | (((y >> 15) & 1) <<  6) | (((y >> 23) & 1) <<  5) | (((y >> 31) & 1) <<  4) |
    (((y >>  4) & 1) <<  3) | (((y >> 12) & 1) <<  2) | (((y >> 20) & 1) <<  1) | ((y >> 28) & 1)
  }

  lemma Pc1RightWires(y: bv32)
    ensures Pc1Right(y) == WiresRight(y)
  {
    hide RHs;
    RHsSpreads(((y >> 1) & 0xF) as bv4);
    RHsSpreads(((y >> 9) & 0xF) as bv4);
    RHsSpreads(((y >> 17) & 0xF) as bv4);
    RHsSpreads(((y >> 25) & 0xF) as bv4);
    RHsSpreads(((y >> 4) & 0xF) as bv4);
    RHsSpreads(((y >> 12) & 0xF) as bv4);
    RHsSpreads(((y >> 20) & 0xF) as bv4);
    RHsSpreads(((y >> 28) & 0xF) as bv4);
  }

  lemma WiresLeftIsPC1(x: bv32, y: bv32, t1: bv32, x1: bv32, y1: bv32, t2: bv32, x2: bv32)
    requires t1 == ((y >> 4) ^ x) & 0x0F0F0F0F && x1 == x ^ t1 && y1 == y ^ (t1 << 4)
    requires t2 == (y1 ^ x1) & 0x10101010 && x2 == x1 ^ t2
    ensures WiresLeft(x2) == Pad(PC1C(Join(x, y)))
  {
  }

  lemma WiresRightIsPC1(x: bv32, y: bv32, t1: bv32, x1: bv32, y1: bv32, t2: bv32, y2: bv32)
    requires t1 == ((y >> 4) ^ x) & 0x0F0F0F0F && x1 == x ^ t1 && y1 == y ^ (t1 << 4)
    requires t2 == (y1 ^ x1) & 0x10101010 && y2 == y1 ^ t2
    ensures WiresRight(y2) == Pad(PC1D(Join(x, y)))
  {
  }

  // Permuted choice 1 as the code computes it: two partial swaps, then four-bit table lookups.
  lemma Pc1Macro(x: bv32, y: bv32, t1: bv32, x1: bv32, y1: bv32, t2: bv32, x2: bv32, y2: bv32)
    requires t1 == ((y >> 4) ^ x) & 0x0F0F0F0F && x1 == x ^ t1 && y1 == y ^ (t1 << 4)
    requires t2 == (y1 ^ x1) & 0x10101010 && x2 == x1 ^ t2 && y2 == y1 ^ t2
    ensures Pc1Left(x2) == Pad(PC1C(Join(x, y)))
    ensures Pc1Right(y2) == Pad(PC1D(Join(x, y)))
  {
    hide *;
    Pc1LeftWires(x2);
    Pc1RightWires(y2);
    WiresLeftIsPC1(x, y, t1, x1, y1, t2, x2);
    WiresRightIsPC1(x, y, t1, x1, y1, t2, y2);
  }

  // A 28-bit register kept in a word.
  function Pad(c: bv28): bv32 { c as bv32 }

  // The register rotated left by one and by two.
  function Rotate1(x: bv32): bv32 { ((x << 1) | (x >> 27)) & 0x0FFFFFFF }

  function Rotate2(x: bv32): bv32 { ((x << 2) | (x >> 26)) & 0x0FFFFFFF }

  lemma RotateMacro(c: bv28)
    ensures Rotate1(Pad(c)) == Pad(RotateLeft(c, 1))
    ensures Rotate2(Pad(c)) == Pad(RotateLeft(c, 2))
  {
  }

  // The two masked assemblies of a subkey, from the halves of the key register.
  function SubkeyEven(x: bv32, y: bv32): bv32 {
    ((x << 4) & 0x24000000) | ((x << 28) & 0x10000000) | ((x << 14) & 0x08000000) | ((x << 18) & 0x02080000) |
    ((x << 6) & 0x01000000) | ((x << 9) & 0x00200000) | ((x >> 1) & 0x00100000) | ((x << 10) & 0x00040000) |
    ((x << 2) & 0x00020000) | ((x >> 10) & 0x00010000) | ((y >> 13) & 0x00002000) | ((y >> 4) & 0x00001000) |
    ((y << 6) & 0x00000800) | ((y >> 1) & 0x00000400) | ((y >> 14) & 0x00000200) | (y & 0x00000100) |
    ((y >> 5) & 0x00000020) | ((y >> 10) & 0x00000010) | ((y >> 3) & 0x00000008) | ((y >> 18) & 0x00000004) |
    ((y >> 26) & 0x00000002) | ((y >> 24) & 0x00000001)
  }

  function SubkeyOdd(x: bv32, y: bv32): bv32 {
    ((x << 15) & 0x20000000) | ((x << 17) & 0x10000000) | ((x << 10) & 0x08000000) | ((x << 22) & 0x04000000) |
    ((x >> 2) & 0x02000000) | ((x << 1) & 0x01000000) | ((x << 16) & 0x00200000) | ((x << 11) & 0x00100000) |
    ((x << 3) & 0x00080000) | ((x >> 6) & 0x00040000) | ((x << 15) & 0x00020000) | ((x >> 4) & 0x00010000) |
    ((y >> 2) & 0x00002000) | ((y << 8) & 0x00001000) | ((y >> 14) & 0x00000808) | ((y >> 9) & 0x00000400) |
    (y & 0x00000200) | ((y << 7) & 0x00000100) | ((y >> 7) & 0x00000020) | ((y >> 3) & 0x00000011) |
    ((y << 2) & 0x00000004) | ((y >> 21) & 0x00000002)
  }

  // They are permuted choice 2, spread over two words.
  lemma Pc2Macro(c: bv28, d: bv28)
    ensures SubkeyEven(Pad(c), Pad(d)) == PackEven(PC2(c, d))
    ensures SubkeyOdd(Pad(c), Pad(d)) == PackOdd(PC2(c, d))
  {
  }
}
