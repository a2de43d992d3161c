// The Data Encryption Standard at bit level, written from FIPS 46-3: the permutations, the
// selection functions and the key schedule are the printed tables, each row quoted above the terms that move its bits.  Bit 1 is the
// most significant bit of a quantity, as in the standard.
module Fips46 {
  import opened Feistel

  function Hi(b: bv64): bv32 { (b >> 32) as bv32 }

  function Lo(b: bv64): bv32 { (b & 0xFFFFFFFF) as bv32 }

  function Join(l: bv32, r: bv32): bv64 { ((l as bv64) << 32) | (r as bv64) }

  function Xor64(a: bv64, b: bv64): bv64 { a ^ b }

  // Initial permutation.
  function IP(x: bv64): bv64 {
    // 58 50 42 34 26 18 10  2
    (((x >>  6) & 1) << 63) | (((x >> 14) & 1) << 62) | (((x >> 22) & 1) << 61) | (((x >> 30) & 1) << 60) |
    (((x >> 38) & 1) << 59) | (((x >> 46) & 1) << 58) | (((x >> 54) & 1) << 57) | (((x >> 62) & 1) << 56) |
    // 60 52 44 36 28 20 12  4
    (((x >>  4) & 1) << 55) | (((x >> 12) & 1) << 54) | (((x >> 20) & 1) << 53) | (((x >> 28) & 1) << 52) |
    (((x >> 36) & 1) << 51) | (((x >> 44) & 1) << 50) | (((x >> 52) & 1) << 49) | (((x >> 60) & 1) << 48) |
    // 62 54 46 38 30 22 14  6
    (((x >>  2) & 1) << 47) | (((x >> 10) & 1) << 46) | (((x >> 18) & 1) << 45) | (((x >> 26) & 1) << 44) |
    (((x >> 34) & 1) << 43) | (((x >> 42) & 1) << 42) | (((x >> 50) & 1) << 41) | (((x >> 58) & 1) << 40) |
    // 64 56 48 40 32 24 16  8
    ((x & 1) << 39) | (((x >>  8) & 1) << 38) | (((x >> 16) & 1) << 37) | (((x >> 24) & 1) << 36) |
    (((x >> 32) & 1) << 35) | (((x >> 40) & 1) << 34) | (((x >> 48) & 1) << 33) | (((x >> 56) & 1) << 32) |
    // 57 49 41 33 25 17  9  1
    (((x >>  7) & 1) << 31) | (((x >> 15) & 1) << 30) | (((x >> 23) & 1) << 29) | (((x >> 31) & 1) << 28) |
    (((x >> 39) & 1) << 27) | (((x >> 47) & 1) << 26) | (((x >> 55) & 1) << 25) | (((x >> 63) & 1) << 24) |
    // 59 51 43 35 27 19 11  3
    (((x >>  5) & 1) << 23) | (((x >> 13) & 1) << 22) | (((x >> 21) & 1) << 21) | (((x >> 29) & 1) << 20) |
    (((x >> 37) & 1) << 19) | (((x >> 45) & 1) << 18) | (((x >> 53) & 1) << 17) | (((x >> 61) & 1) << 16) |
    // 61 53 45 37 29 21 13  5
    (((x >>  3) & 1) << 15) | (((x >> 11) & 1) << 14) | (((x >> 19) & 1) << 13) | (((x >> 27) & 1) << 12) |
    (((x >> 35) & 1) << 11) | (((x >> 43) & 1) << 10) | (((x >> 51) & 1) <<  9) | (((x >> 59) & 1) <<  8) |
    // 63 55 47 39 31 23 15  7
    (((x >>  1) & 1) <<  7) | (((x >>  9) & 1) <<  6) | (((x >> 17) & 1) <<  5) | (((x >> 25) & 1) <<  4) |
    (((x >> 33) & 1) <<  3) | (((x >> 41) & 1) <<  2) | (((x >> 49) & 1) <<  1) | ((x >> 57) & 1)
  }

  // Inverse of the initial permutation.
  function FP(x: bv64): bv64 {
    // 40  8 48 16 56 24 64 32
    (((x >> 24) & 1) << 63) | (((x >> 56) & 1) << 62) | (((x >> 16) & 1) << 61) | (((x >> 48) & 1) << 60) |
    (((x >>  8) & 1) << 59) | (((x >> 40) & 1) << 58) | ((x & 1) << 57) | (((x >> 32) & 1) << 56) |
    // 39  7 47 15 55 23 63 31
    (((x >> 25) & 1) << 55) | (((x >> 57) & 1) << 54) | (((x >> 17) & 1) << 53) | (((x >> 49) & 1) << 52) |
    (((x >>  9) & 1) << 51) | (((x >> 41) & 1) << 50) | (((x >>  1) & 1) << 49) | (((x >> 33) & 1) << 48) |
    // 38  6 46 14 54 22 62 30
    (((x >> 26) & 1) << 47) | (((x >> 58) & 1) << 46) | (((x >> 18) & 1) << 45) | (((x >> 50) & 1) << 44) |
    (((x >> 10) & 1) << 43) | (((x >> 42) & 1) << 42) | (((x >>  2) & 1) << 41) | (((x >> 34) & 1) << 40) |
    // 37  5 45 13 53 21 61 29
    (((x >> 27) & 1) << 39) | (((x >> 59) & 1) << 38) | (((x >> 19) & 1) << 37) | (((x >> 51) & 1) << 36) |
    (((x >> 11) & 1) << 35) | (((x >> 43) & 1) << 34) | (((x >>  3) & 1) << 33) | (((x >> 35) & 1) << 32) |
    // 36  4 44 12 52 20 60 28
    (((x >> 28) & 1) << 31) | (((x >> 60) & 1) << 30) | (((x >> 20) & 1) << 29) | (((x >> 52) & 1) << 28) |
    (((x >> 12) & 1) << 27) | (((x >> 44) & 1) << 26) | (((x >>  4) & 1) << 25) | (((x >> 36) & 1) << 24) |
    // 35  3 43 11 51 19 59 27
    (((x >> 29) & 1) << 23) | (((x >> 61) & 1) << 22) | (((x >> 21) & 1) << 21) | (((x >> 53) & 1) << 20) |
    (((x >> 13) & 1) << 19) | (((x >> 45) & 1) << 18) | (((x >>  5) & 1) << 17) | (((x >> 37) & 1) << 16) |
    // 34  2 42 10 50 18 58 26
    (((x >> 30) & 1) << 15) | (((x >> 62) & 1) << 14) | (((x >> 22) & 1) << 13) | (((x >> 54) & 1) << 12) |
    (((x >> 14) & 1) << 11) | (((x >> 46) & 1) << 10) | (((x >>  6) & 1) <<  9) | (((x >> 38) & 1) <<  8) |
    // 33  1 41  9 49 17 57 25
    (((x >> 31) & 1) <<  7) | (((x >> 63) & 1) <<  6) | (((x >> 23) & 1) <<  5) | (((x >> 55) & 1) <<  4) |
    (((x >> 15) & 1) <<  3) | (((x >> 47) & 1) <<  2) | (((x >>  7) & 1) <<  1) | ((x >> 39) & 1)
  }

  // E bit-selection table.
  function E(r: bv32): bv48 {
    var x := r as bv48;
    // 32  1  2  3  4  5
    ((x & 1) << 47) | (((x >> 31) & 1) << 46) | (((x >> 30) & 1) << 45) |
    (((x >> 29) & 1) << 44) | (((x >> 28) & 1) << 43) | (((x >> 27) & 1) << 42) |
    //  4  5  6  7  8  9
    (((x >> 28) & 1) << 41) | (((x >> 27) & 1) << 40) | (((x >> 26) & 1) << 39) |
    (((x >> 25) & 1) << 38) | (((x >> 24) & 1) << 37) | (((x >> 23) & 1) << 36) |
    //  8  9 10 11 12 13
    (((x >> 24) & 1) << 35) | (((x >> 23) & 1) << 34) | (((x >> 22) & 1) << 33) |
    (((x >> 21) & 1) << 32) | (((x >> 20) & 1) << 31) | (((x >> 19) & 1) << 30) |
    // 12 13 14 15 16 17
    (((x >> 20) & 1) << 29) | (((x >> 19) & 1) << 28) | (((x >> 18) & 1) << 27) |
    (((x >> 17) & 1) << 26) | (((x >> 16) & 1) << 25) | (((x >> 15) & 1) << 24) |
    // 16 17 18 19 20 21
    (((x >> 16) & 1) << 23) | (((x >> 15) & 1) << 22) | (((x >> 14) & 1) << 21) |
    (((x >> 13) & 1) << 20) | (((x >> 12) & 1) << 19) | (((x >> 11) & 1) << 18) |
    // 20 21 22 23 24 25
    (((x >> 12) & 1) << 17) | (((x >> 11) & 1) << 16) | (((x >> 10) & 1) << 15) |
    (((x >>  9) & 1) << 14) | (((x >>  8) & 1) << 13) | (((x >>  7) & 1) << 12) |
    // 24 25 26 27 28 29
    (((x >>  8) & 1) << 11) | (((x >>  7) & 1) << 10) | (((x >>  6) & 1) <<  9) |
    (((x >>  5) & 1) <<  8) | (((x >>  4) & 1) <<  7) | (((x >>  3) & 1) <<  6) |
    // 28 29 30 31 32  1
    (((x >>  4) & 1) <<  5) | (((x >>  3) & 1) <<  4) | (((x >>  2) & 1) <<  3) |
    (((x >>  1) & 1) <<  2) | ((x & 1) <<  1) | ((x >> 31) & 1)
  }

  // Primitive function P (two printed rows of four at a time).
  function P(s: bv32): bv32 {
    // 16  7 20 21 29 12 28 17
    (((s >> 16) & 1) << 31) | (((s >> 25) & 1) << 30) | (((s >> 12) & 1) << 29) | (((s >> 11) & 1) << 28) |
    (((s >>  3) & 1) << 27) | (((s >> 20) & 1) << 26) | (((s >>  4) & 1) << 25) | (((s >> 15) & 1) << 24) |
    //  1 15 23 26  5 18 31 10
    (((s >> 31) & 1) << 23) | (((s >> 17) & 1) << 22) | (((s >>  9) & 1) << 21) | (((s >>  6) & 1) << 20) |
    (((s >> 27) & 1) << 19) | (((s >> 14) & 1) << 18) | (((s >>  1) & 1) << 17) | (((s >> 22) & 1) << 16) |
    //  2  8 24 14 32 27  3  9
    (((s >> 30) & 1) << 15) | (((s >> 24) & 1) << 14) | (((s >>  8) & 1) << 13) | (((s >> 18) & 1) << 12) |
    ((s & 1) << 11) | (((s >>  5) & 1) << 10) | (((s >> 29) & 1) <<  9) | (((s >> 23) & 1) <<  8) |
    // 19 13 30  6 22 11  4 25
    (((s >> 13) & 1) <<  7) | (((s >> 19) & 1) <<  6) | (((s >>  2) & 1) <<  5) | (((s >> 26) & 1) <<  4) |
    (((s >> 10) & 1) <<  3) | (((s >> 21) & 1) <<  2) | (((s >> 28) & 1) <<  1) | ((s >>  7) & 1)
  }

  // Selection table lookup: bits 1 and 6 of the input choose the row, bits 2 to 5 the column.
  // A row is written as its sixteen entries, one hexadecimal digit each.
  function Select(b: bv6, r0: bv64, r1: bv64, r2: bv64, r3: bv64): bv4 {
    var row := if b & 0x21 == 0 then r0 else if b & 0x21 == 1 then r1 else if b & 0x21 == 0x20 then r2 else r3;
    var col := ((b >> 1) & 0xF) as bv64;
    ((row >> (60 - 4 * col)) & 0xF) as bv4
  }

  function S1(b: bv6): bv4 { Select(b, 0xE4D12FB83A6C5907, 0x0F74E2D1A6CB9538, 0x41E8D62BFC973A50, 0xFC8249175B3EA06D) }
  function S2(b: bv6): bv4 { Select(b, 0xF18E6B34972DC05A, 0x3D47F28EC01A69B5, 0x0E7BA4D158C6932F, 0xD8A13F42B67C05E9) }
  function S3(b: bv6): bv4 { Select(b, 0xA09E63F51DC7B428, 0xD709346A285ECBF1, 0xD6498F30B12C5AE7, 0x1AD069874FE3B52C) }
  function S4(b: bv6): bv4 { Select(b, 0x7DE3069A1285BC4F, 0xD8B56F03472C1AE9, 0xA690CB7DF13E5284, 0x3F06A1D8945BC72E) }
  function S5(b: bv6): bv4 { Select(b, 0x2C417AB6853FD0E9, 0xEB2C47D150FA3986, 0x421BAD78F9C5630E, 0xB8C71E2D6F09A453) }
  function S6(b: bv6): bv4 { Select(b, 0xC1AF92680D34E75B, 0xAF427C9561DE0B38, 0x9EF528C3704A1DB6, 0x432C95FABE17608D) }
  function S7(b: bv6): bv4 { Select(b, 0x4B2EF08D3C975A61, 0xD0B7491AE35C2F86, 0x14BDC37EAF680592, 0x6BD814A7950FE23C) }
  function S8(b: bv6): bv4 { Select(b, 0xD2846FB1A93E50C7, 0x1FD8A374C56B0E92, 0x7B419CE206ADF358, 0x21E74A8DFC90356B) }

  // Permuted choice 1, left half C0 and right half D0.
  function PC1C(x: bv64): bv28 {
    (// 57 49 41 33 25 17  9
    (((x >>  7) & 1) << 27) | (((x >> 15) & 1) << 26) | (((x >> 23) & 1) << 25) | (((x >> 31) & 1) << 24) |
    (((x >> 39) & 1) << 23) | (((x >> 47) & 1) << 22) | (((x >> 55) & 1) << 21) |
    //  1 58 50 42 34 26 18
    (((x >> 63) & 1) << 20) | (((x >>  6) & 1) << 19) | (((x >> 14) & 1) << 18) | (((x >> 22) & 1) << 17) |
    (((x >> 30) & 1) << 16) | (((x >> 38) & 1) << 15) | (((x >> 46) & 1) << 14) |
    // 10  2 59 51 43 35 27
    (((x >> 54) & 1) << 13) | (((x >> 62) & 1) << 12) | (((x >>  5) & 1) << 11) | (((x >> 13) & 1) << 10) |
    (((x >> 21) & 1) <<  9) | (((x >> 29) & 1) <<  8) | (((x >> 37) & 1) <<  7) |
    // 19 11  3 60 52 44 36
    (((x >> 45) & 1) <<  6) | (((x >> 53) & 1) <<  5) | (((x >> 61) & 1) <<  4) | (((x >>  4) & 1) <<  3) |
    (((x >> 12) & 1) <<  2) | (((x >> 20) & 1) <<  1) | ((x >> 28) & 1)) as bv28
  }

  function PC1D(x: bv64): bv28 {
    (// 63 55 47 39 31 23 15
    (((x >>  1) & 1) << 27) | (((x >>  9) & 1) << 26) | (((x >> 17) & 1) << 25) | (((x >> 25) & 1) << 24) |
    (((x >> 33) & 1) << 23) | (((x >> 41) & 1) << 22) | (((x >> 49) & 1) << 21) |
    //  7 62 54 46 38 30 22
    (((x >> 57) & 1) << 20) | (((x >>  2) & 1) << 19) | (((x >> 10) & 1) << 18) | (((x >> 18) & 1) << 17) |
    (((x >> 26) & 1) << 16) | (((x >> 34) & 1) << 15) | (((x >> 42) & 1) << 14) |
    // 14  6 61 53 45 37 29
    (((x >> 50) & 1) << 13) | (((x >> 58) & 1) << 12) | (((x >>  3) & 1) << 11) | (((x >> 11) & 1) << 10) |
    (((x >> 19) & 1) <<  9) | (((x >> 27) & 1) <<  8) | (((x >> 35) & 1) <<  7) |
    // 21 13  5 28 20 12  4
    (((x >> 43) & 1) <<  6) | (((x >> 51) & 1) <<  5) | (((x >> 59) & 1) <<  4) | (((x >> 36) & 1) <<  3) |
    (((x >> 44) & 1) <<  2) | (((x >> 52) & 1) <<  1) | ((x >> 60) & 1)) as bv28
  }

  // Permuted choice 2.
  function PC2(c: bv28, d: bv28): bv48 {
    var x := ((c as bv56) << 28) | (d as bv56);
    (// 14 17 11 24  1  5
    (((x >> 42) & 1) << 47) | (((x >> 39) & 1) << 46) | (((x >> 45) & 1) << 45) |
    (((x >> 32) & 1) << 44) | (((x >> 55) & 1) << 43) | (((x >> 51) & 1) << 42) |
    //  3 28 15  6 21 10
    (((x >> 53) & 1) << 41) | (((x >> 28) & 1) << 40) | (((x >> 41) & 1) << 39) |
    (((x >> 50) & 1) << 38) | (((x >> 35) & 1) << 37) | (((x >> 46) & 1) << 36) |
    // 23 19 12  4 26  8
    (((x >> 33) & 1) << 35) | (((x >> 37) & 1) << 34) | (((x >> 44) & 1) << 33) |
    (((x >> 52) & 1) << 32) | (((x >> 30) & 1) << 31) | (((x >> 48) & 1) << 30) |
    // 16  7 27 20 13  2
    (((x >> 40) & 1) << 29) | (((x >> 49) & 1) << 28) | (((x >> 29) & 1) << 27) |
    (((x >> 36) & 1) << 26) | (((x >> 43) & 1) << 25) | (((x >> 54) & 1) << 24) |
    // 41 52 31 37 47 55
    (((x >> 15) & 1) << 23) | (((x >>  4) & 1) << 22) | (((x >> 25) & 1) << 21) |
    (((x >> 19) & 1) << 20) | (((x >>  9) & 1) << 19) | (((x >>  1) & 1) << 18) |
    // 30 40 51 45 33 48
    (((x >> 26) & 1) << 17) | (((x >> 16) & 1) << 16) | (((x >>  5) & 1) << 15) |
    (((x >> 11) & 1) << 14) | (((x >> 23) & 1) << 13) | (((x >>  8) & 1) << 12) |
    // 44 49 39 56 34 53
    (((x >> 12) & 1) << 11) | (((x >>  7) & 1) << 10) | (((x >> 17) & 1) <<  9) |
    ((x & 1) <<  8) | (((x >> 22) & 1) <<  7) | (((x >>  3) & 1) <<  6) |
    // 46 42 50 36 29 32
    (((x >> 10) & 1) <<  5) | (((x >> 14) & 1) <<  4) | (((x >>  6) & 1) <<  3) |
    (((x >> 20) & 1) <<  2) | (((x >> 27) & 1) <<  1) | ((x >> 24) & 1)) as bv48
  }

  // The eight four-bit outputs of the selection functions, left to right.
  function Nibbles(s1: bv4, s2: bv4, s3: bv4, s4: bv4, s5: bv4, s6: bv4, s7: bv4, s8: bv4): bv32 {
    ((s1 as bv32) << 28) | ((s2 as bv32) << 24) | ((s3 as bv32) << 20) | ((s4 as bv32) << 16) |
    ((s5 as bv32) << 12) | ((s6 as bv32) << 8) | ((s7 as bv32) << 4) | (s8 as bv32)
  }

  function Expanded(r: bv32, k: bv48): bv48 { E(r) ^ k }

  // The six-bit blocks B1 B2 ... B8 of a 48-bit quantity.
  function B1(b: bv48): bv6 { ((b >> 42) & 0x3F) as bv6 }
  function B2(b: bv48): bv6 { ((b >> 36) & 0x3F) as bv6 }
  function B3(b: bv48): bv6 { ((b >> 30) & 0x3F) as bv6 }
  function B4(b: bv48): bv6 { ((b >> 24) & 0x3F) as bv6 }
  function B5(b: bv48): bv6 { ((b >> 18) & 0x3F) as bv6 }
  function B6(b: bv48): bv6 { ((b >> 12) & 0x3F) as bv6 }
  function B7(b: bv48): bv6 { ((b >> 6) & 0x3F) as bv6 }
  function B8(b: bv48): bv6 { (b & 0x3F) as bv6 }

  // The cipher function f(R, K).
  function F(r: bv32, k: bv48): bv32 {
    var b := Expanded(r, k);
    P(Nibbles(S1(B1(b)), S2(B2(b)), S3(B3(b)), S4(B4(b)), S5(B5(b)), S6(B6(b)), S7(B7(b)), S8(B8(b))))
  }

  function Split(b: bv64): Halves { Halves(Hi(b), Lo(b)) }

  function Merge(h: Halves): bv64 { Join(h.l, h.r) }

  // Enciphering with round keys ks: initial permutation, the rounds, the swapped preoutput
  // block, inverse initial permutation.
  function Cipher(ks: seq<bv48>, block: bv64): bv64 {
    FP(Merge(Swap(Rounds(F, ks, Split(IP(block))))))
  }

  // Left shifts made by iteration n of the key schedule, n = 1 to 16.
  function LeftShifts(n: nat): nat {
    if n == 1 || n == 2 || n == 9 || n == 16 then 1 else 2
  }

  function RotateLeft(c: bv28, n: nat): bv28 {
    if n == 1 then (c << 1) | (c >> 27) else (c << 2) | (c >> 26)
  }

  function KeyC(key: bv64, n: nat): bv28 {
    if n == 0 then PC1C(key) else RotateLeft(KeyC(key, n - 1), LeftShifts(n))
  }

  function KeyD(key: bv64, n: nat): bv28 {
    if n == 0 then PC1D(key) else RotateLeft(KeyD(key, n - 1), LeftShifts(n))
  }

  // Key schedule KS(n, KEY).
  function KS(n: nat, key: bv64): bv48 { PC2(KeyC(key, n), KeyD(key, n)) }

  function Schedule(key: bv64): (ks: seq<bv48>)
    ensures |ks| == 16
  {
    seq(16, i requires 0 <= i < 16 => KS(i + 1, key))
  }

  function Encipher(key: bv64, block: bv64): bv64 { Cipher(Schedule(key), block) }

  function Decipher(key: bv64, block: bv64): bv64 { Cipher(Reverse(Schedule(key)), block) }

  lemma IPAfterFP(b: bv64)
    ensures IP(FP(b)) == b
  {
  }

  lemma FPAfterIP(b: bv64)
    ensures FP(IP(b)) == b
  {
  }

  lemma SplitMerge(h: Halves)
    ensures Split(Merge(h)) == h
  {
    SplitJoin(h.l, h.r);
  }

  lemma SplitJoin(l: bv32, r: bv32)
    ensures Hi(Join(l, r)) == l && Lo(Join(l, r)) == r
  {
  }

  lemma JoinSplit(b: bv64)
    ensures Join(Hi(b), Lo(b)) == b
  {
  }

  // Deciphering: the same computation with the round keys in reverse order undoes enciphering.
  lemma CipherUndo(ks: seq<bv48>, block: bv64)
    ensures Cipher(Reverse(ks), Cipher(ks, block)) == block
  {
    hide IP, FP, Hi, Lo, Join, F;
    var h := Split(IP(block));
    var g := Swap(Rounds(F, ks, h));
    assert Split(IP(Cipher(ks, block))) == g by {
      IPAfterFP(Merge(g));
      SplitMerge(g);
    }
    RoundsUndo(F, ks, h);
    assert Swap(Swap(h)) == h;
    JoinSplit(IP(block));
    FPAfterIP(block);
  }

  lemma DecipherEncipher(key: bv64, block: bv64)
    ensures Decipher(key, Encipher(key, block)) == block
    ensures Encipher(key, Decipher(key, block)) == block
  {
    hide Cipher, Schedule;
    CipherUndo(Schedule(key), block);
    ReverseTwice(Schedule(key));
    CipherUndo(Reverse(Schedule(key)), block);
  }

  lemma ReverseTwice<K>(ks: seq<K>)
    ensures Reverse(Reverse(ks)) == ks
  {
  }
}
