// The DES code: big-endian loads and stores, the three macros, the key schedule and the block
// functions, working in place on byte and word buffers.  A C pointer is an array and an offset.
module Des {
  import opened DesTables
  import opened DesWords
  import opened Feistel
  import opened Fips46
  import opened Pairs

  function Word(b0: bv8, b1: bv8, b2: bv8, b3: bv8): bv32 {
    ((b0 as bv32) << 24) | ((b1 as bv32) << 16) | ((b2 as bv32) << 8) | (b3 as bv32)
  }

  // Byte i of a word, most significant first.
  function ByteOf(n: bv32, i: nat): bv8
    requires i < 4
  {
    if i == 0 then (n >> 24) as bv8
    else if i == 1 then ((n >> 16) & 0xFF) as bv8
    else if i == 2 then ((n >> 8) & 0xFF) as bv8
    else (n & 0xFF) as bv8
  }

  // The 64-bit block whose eight bytes start at offset o.
  function BlockAt(s: seq<bv8>, o: nat): bv64
    requires o + 8 <= |s|
  {
    Join(Word(s[o], s[o + 1], s[o + 2], s[o + 3]), Word(s[o + 4], s[o + 5], s[o + 6], s[o + 7]))
  }

  // The first byte is the most significant, each next one eight bits lower.
  lemma BlockInOrder(s: seq<bv8>, o: nat)
    requires o + 8 <= |s|
    ensures BlockAt(s, o) ==
      ((s[o] as bv64) << 56) | ((s[o + 1] as bv64) << 48) | ((s[o + 2] as bv64) << 40) | ((s[o + 3] as bv64) << 32) |
      ((s[o + 4] as bv64) << 24) | ((s[o + 5] as bv64) << 16) | ((s[o + 6] as bv64) << 8) | (s[o + 7] as bv64)
  {
  }

  function BytesOf(b: bv64): (s: seq<bv8>)
    ensures |s| == 8
  {
    [ByteOf(Hi(b), 0), ByteOf(Hi(b), 1), ByteOf(Hi(b), 2), ByteOf(Hi(b), 3),
     ByteOf(Lo(b), 0), ByteOf(Lo(b), 1), ByteOf(Lo(b), 2), ByteOf(Lo(b), 3)]
  }

  lemma WordBytes(n: bv32)
    ensures Word(ByteOf(n, 0), ByteOf(n, 1), ByteOf(n, 2), ByteOf(n, 3)) == n
  {
  }

  lemma BytesWord(b0: bv8, b1: bv8, b2: bv8, b3: bv8)
    ensures var n := Word(b0, b1, b2, b3);
      ByteOf(n, 0) == b0 && ByteOf(n, 1) == b1 && ByteOf(n, 2) == b2 && ByteOf(n, 3) == b3
  {
  }

  lemma BlockBytes(b: bv64)
    ensures BlockAt(BytesOf(b), 0) == b
  {
    hide Word, ByteOf, Hi, Lo, Join;
    WordBytes(Hi(b));
    WordBytes(Lo(b));
    JoinSplit(b);
  }

  lemma BytesBlock(s: seq<bv8>)
    requires |s| == 8
    ensures BytesOf(BlockAt(s, 0)) == s
  {
    hide Word, ByteOf, Hi, Lo, Join;
    SplitJoin(Word(s[0], s[1], s[2], s[3]), Word(s[4], s[5], s[6], s[7]));
    BytesWord(s[0], s[1], s[2], s[3]);
    BytesWord(s[4], s[5], s[6], s[7]);
  }

  // The round keys that a run of subkey words stands for, two words a key.
  function KeysOf(w: seq<bv32>): (ks: seq<bv48>)
    ensures |ks| == |w| / 2
  {
    Pairwise(w, Unpack)
  }

  // The subkey words of given round keys.
  function WordsOf(ks: seq<bv48>): (w: seq<bv32>)
    ensures |w| == 2 * |ks|
  {
    Interleave(ks, PackEven, PackOdd)
  }

  lemma KeysWords(ks: seq<bv48>)
    ensures KeysOf(WordsOf(ks)) == ks
  {
    hide Unpack, PackEven, PackOdd, Pairwise, Interleave;
    forall k | k in ks
      ensures Unpack(PackEven(k), PackOdd(k)) == k
    {
      UnpackPack(k);
    }
    PairwiseInterleave(ks, PackEven, PackOdd, Unpack);
  }

  method GetUint32Be(b: array<bv8>, i: nat) returns (n: bv32)
    requires i + 4 <= b.Length
    ensures n == Word(b[i], b[i + 1], b[i + 2], b[i + 3])
  {
    n := ((b[i] as bv32) << 24) | ((b[i + 1] as bv32) << 16) | ((b[i + 2] as bv32) << 8) | (b[i + 3] as bv32);
  }

  method PutUint32Be(n: bv32, b: array<bv8>, i: nat)
    requires i + 4 <= b.Length
    modifies b
    ensures forall j :: 0 <= j < 4 ==> b[i + j] == ByteOf(n, j)
    ensures forall j :: 0 <= j < b.Length && !(i <= j < i + 4) ==> b[j] == old(b[j])
  {
    b[i] := (n >> 24) as bv8;
    b[i + 1] := ((n >> 16) & 0xFF) as bv8;
    b[i + 2] := ((n >> 8) & 0xFF) as bv8;
    b[i + 3] := (n & 0xFF) as bv8;
  }

  method PutBlock(x: bv32, y: bv32, b: array<bv8>, i: nat)
    requires i + 8 <= b.Length
    modifies b
    ensures b[i..i + 8] == BytesOf(Join(x, y))
    ensures forall j :: 0 <= j < b.Length && !(i <= j < i + 8) ==> b[j] == old(b[j])
  {
    hide ByteOf, Hi, Lo, Join;
    PutUint32Be(x, b, i);
    PutUint32Be(y, b, i + 4);
    PutBytes(b[..], i, x, y);
  }

  // Two words in a buffer are a block.
  lemma PutBytes(s: seq<bv8>, i: nat, x: bv32, y: bv32)
    requires i + 8 <= |s|
    requires s[i] == ByteOf(x, 0) && s[i + 1] == ByteOf(x, 1) && s[i + 2] == ByteOf(x, 2) && s[i + 3] == ByteOf(x, 3)
    requires s[i + 4] == ByteOf(y, 0) && s[i + 5] == ByteOf(y, 1) && s[i + 6] == ByteOf(y, 2) && s[i + 7] == ByteOf(y, 3)
    ensures s[i..i + 8] == BytesOf(Join(x, y))
  {
    hide ByteOf, Hi, Lo, Join;
    SplitJoin(x, y);
  }

  // The round macro: y takes in x under the next two subkey words; k plays the moving pointer SK.
  method DesRound(sk: array<bv32>, k: nat, x: bv32, y0: bv32) returns (k': nat, y: bv32)
    requires k + 2 <= sk.Length
    ensures k' == k + 2
    ensures RotR1(y) == Xor(RotR1(y0), F(RotR1(x), Unpack(sk[k], sk[k + 1])))
  {
    hide *;
    var t := Xor(sk[k], x);
    var a := Sum(SB8(Sub0(t)), SB6(Sub8(t)), SB4(Sub16(t)), SB2(Sub24(t)));
    y := Xor(y0, a);
    var u := Xor(sk[k + 1], RotR4(x));
    var b := Sum(SB7(Sub0(u)), SB5(Sub8(u)), SB3(Sub16(u)), SB1(Sub24(u)));
    y := Xor(y, b);
    k' := k + 2;
    RoundIsF(x, sk[k], sk[k + 1], t, u);
    AddSums(y0, F(RotR1(x), Unpack(sk[k], sk[k + 1])), a, b);
  }

  // The halves that the code's rotated words stand for.
  function Unrotated(x: bv32, y: bv32): Halves { Halves(RotR1(x), RotR1(y)) }

  // The state after the rounds that use subkey words k0 up to k.
  ghost function After(sk: seq<bv32>, k0: nat, k: nat, h: Halves): Halves
    requires k0 <= k <= |sk|
  {
    Rounds(F, KeysOf(sk[k0..k]), h)
  }

  lemma AfterConcat(sk: seq<bv32>, k0: nat, k1: nat, k2: nat, h: Halves)
    requires k0 <= k1 <= k2 <= |sk| && (k1 - k0) % 2 == 0 && (k2 - k1) % 2 == 0
    ensures After(sk, k0, k2, h) == After(sk, k1, k2, After(sk, k0, k1, h))
  {
    hide F, Unpack, Rounds, Pairwise;
    PairwiseConcat(sk[k0..k1], sk[k1..k2], Unpack);
    assert sk[k0..k1] + sk[k1..k2] == sk[k0..k2];
    RoundsConcat(F, KeysOf(sk[k0..k1]), KeysOf(sk[k1..k2]), h);
  }

  // One line of the code: x takes in y, then y takes in x.
  method TwoRounds(sk: array<bv32>, k0: nat, x0: bv32, y0: bv32) returns (k: nat, x: bv32, y: bv32)
    requires k0 + 4 <= sk.Length
    ensures k == k0 + 4
    ensures Unrotated(x, y) == After(sk[..], k0, k, Unrotated(x0, y0))
  {
    hide F, Unpack, RotR1, Xor;
    k, x := DesRound(sk, k0, y0, x0);
    k, y := DesRound(sk, k, x, y0);
    ghost var ks := KeysOf(sk[..][k0..k]);
    assert ks == [Unpack(sk[k0], sk[k0 + 1]), Unpack(sk[k0 + 2], sk[k0 + 3])];
    RoundsOfTwo(F, ks[0], ks[1], Unrotated(x0, y0));
  }

  // The sixteen rounds of one DES, eight lines of two.
  method SixteenRounds(sk: array<bv32>, k0: nat, x0: bv32, y0: bv32) returns (k: nat, x: bv32, y: bv32)
    requires k0 + 32 <= sk.Length
    ensures k == k0 + 32
    ensures Unrotated(x, y) == After(sk[..], k0, k, Unrotated(x0, y0))
  {
    hide After, Unrotated;
    ghost var h := Unrotated(x0, y0);
    k, x, y := TwoRounds(sk, k0, x0, y0);
    k, x, y := TwoRounds(sk, k, x, y);  AfterConcat(sk[..], k0, k - 4, k, h);
    k, x, y := TwoRounds(sk, k, x, y);  AfterConcat(sk[..], k0, k - 4, k, h);
    k, x, y := TwoRounds(sk, k, x, y);  AfterConcat(sk[..], k0, k - 4, k, h);
    k, x, y := TwoRounds(sk, k, x, y);  AfterConcat(sk[..], k0, k - 4, k, h);
    k, x, y := TwoRounds(sk, k, x, y);  AfterConcat(sk[..], k0, k - 4, k, h);
    k, x, y := TwoRounds(sk, k, x, y);  AfterConcat(sk[..], k0, k - 4, k, h);
    k, x, y := TwoRounds(sk, k, x, y);  AfterConcat(sk[..], k0, k - 4, k, h);
  }

  lemma IpSplits(x: bv32, y: bv32)
    ensures Unrotated(Hi(DesIp(x, y)), Lo(DesIp(x, y))) == Split(IP(Join(x, y)))
  {
    hide IP, DesIp, RotL1, RotR1, Hi, Lo, Join;
    var b := IP(Join(x, y));
    DesIpIsIP(x, y);
    SplitJoin(RotL1(Hi(b)), RotL1(Lo(b)));
    RotInverse(Hi(b));
    RotInverse(Lo(b));
  }

  lemma FpMerges(x: bv32, y: bv32)
    ensures DesFp(y, x) == FP(Merge(Swap(Unrotated(x, y))))
  {
    hide FP, DesFp, RotR1, Join;
    DesFpIsFP(y, x);
  }

  lemma BlockAtSlice(s: seq<bv8>, o: nat)
    requires o + 8 <= |s|
    ensures BlockAt(s, o) == BlockAt(s[o..o + 8], 0)
  {
    hide Word, Join;
  }

  // One block through DES with the 32 subkey words at sk[k0..]; input and output may be the same buffer.
  method DesCrypt(sk: array<bv32>, k0: nat, input: array<bv8>, i: nat, output: array<bv8>, o: nat)
    requires k0 + 32 <= sk.Length && i + 8 <= input.Length && o + 8 <= output.Length
    modifies output
    ensures output[o..o + 8] == BytesOf(Cipher(KeysOf(sk[k0..k0 + 32]), old(BlockAt(input[..], i))))
    ensures forall j :: 0 <= j < output.Length && !(o <= j < o + 8) ==> output[j] == old(output[j])
  {
    hide IP, FP, Join, Hi, Lo, Word, ByteOf, DesIp, DesFp, F, Rounds, Unrotated, Unpack;
    var x := GetUint32Be(input, i);
    var y := GetUint32Be(input, i + 4);
    ghost var block := Join(x, y);
    var w := DesIp(x, y);
    IpSplits(x, y);
    x, y := Hi(w), Lo(w);
    var k;
    k, x, y := SixteenRounds(sk, k0, x, y);
    w := DesFp(y, x);
    FpMerges(x, y);
    assert sk[..][k0..k] == sk[k0..k0 + 32];
    assert w == Cipher(KeysOf(sk[k0..k0 + 32]), block);
    PutBlock(Hi(w), Lo(w), output, o);
    JoinSplit(w);
  }

  // The two words of the key register after permuted choice 1.
  method PermutedChoice1(key: array<bv8>, o: nat) returns (x: bv32, y: bv32)
    requires o + 8 <= key.Length
    ensures x == Pad(PC1C(BlockAt(key[..], o)))
    ensures y == Pad(PC1D(BlockAt(key[..], o)))
  {
    hide Pad, Word, Join, PC1C, PC1D, Pc1Left, Pc1Right;
    x := GetUint32Be(key, o);
    y := GetUint32Be(key, o + 4);
    ghost var x0, y0 := x, y;
    var t := ((y >> 4) ^ x) & 0x0F0F0F0F;  x := x ^ t;  y := y ^ (t << 4);
    ghost var t1, x1, y1 := t, x, y;
    t := (y ^ x) & 0x10101010;  x := x ^ t;  y := y ^ t;
    Pc1Macro(x0, y0, t1, x1, y1, t, x, y);
    x := Pc1Left(x);
    y := Pc1Right(y);
  }

  // One iteration of the key schedule: rotate the register, assemble two subkey words.
  method NextSubkey(i: nat, x0: bv32, y0: bv32, ghost key: bv64) returns (x: bv32, y: bv32, even: bv32, odd: bv32)
    requires i < 16
    requires x0 == Pad(KeyC(key, i)) && y0 == Pad(KeyD(key, i))
    ensures x == Pad(KeyC(key, i + 1)) && y == Pad(KeyD(key, i + 1))
    ensures even == PackEven(KS(i + 1, key)) && odd == PackOdd(KS(i + 1, key))
  {
    hide Pad, PC1C, PC1D, PC2, PackEven, PackOdd, SubkeyEven, SubkeyOdd, RotateLeft, Rotate1, Rotate2;
    RotateMacro(KeyC(key, i));
    RotateMacro(KeyD(key, i));
    if i < 2 || i == 8 || i == 15 {
      x := Rotate1(x0);
      y := Rotate1(y0);
    } else {
      x := Rotate2(x0);
      y := Rotate2(y0);
    }
    Pc2Macro(KeyC(key, i + 1), KeyD(key, i + 1));
    even := SubkeyEven(x, y);
    odd := SubkeyOdd(x, y);
  }

  // The 32 subkey words of a key, written at sk[k0..].
  method DesMainKs(sk: array<bv32>, k0: nat, key: array<bv8>, o: nat)
    requires k0 + 32 <= sk.Length && o + 8 <= key.Length
    modifies sk
    ensures sk[..] == old(sk[..k0]) + WordsOf(Schedule(BlockAt(key[..], o))) + old(sk[k0 + 32..])
  {
    hide Pad, BlockAt, PC1C, PC1D, PackEven, PackOdd, KS, WordsOf;
    var x, y := PermutedChoice1(key, o);
    ghost var k64 := BlockAt(key[..], o);
    assert x == Pad(KeyC(k64, 0)) && y == Pad(KeyD(k64, 0));
    hide KeyC, KeyD, Filled, Schedule;
    ghost var ks := Schedule(k64);
    var k := k0;
    NothingStored(sk[..], k0, WordsOf(ks[..0]));
    for i := 0 to 16
      invariant k == k0 + 2 * i
      invariant x == Pad(KeyC(k64, i)) && y == Pad(KeyD(k64, i))
      invariant Filled(old(sk[..]), sk[..], k0, k, WordsOf(ks[..i]))
    {
      var even, odd;
      x, y, even, odd := NextSubkey(i, x, y, k64);
      ScheduleAt(k64, i);
      WordsOfAppend(ks[..i], ks[i]);
      assert ks[..i + 1] == ks[..i] + [ks[i]];
      PairStored(old(sk[..]), sk[..], k0, k, WordsOf(ks[..i]), even, odd);
      PutPair(sk, k, even, odd);
      k := k + 2;
    }
    assert ks[..16] == ks;
    FilledIs(old(sk[..]), sk[..], k0, k, WordsOf(ks));
  }

  lemma ScheduleAt(key: bv64, i: nat)
    requires i < 16
    ensures Schedule(key)[i] == KS(i + 1, key)
  {
    hide KS;
  }

  lemma WordsOfAppend(ks: seq<bv48>, k: bv48)
    ensures WordsOf(ks + [k]) == WordsOf(ks) + [PackEven(k), PackOdd(k)]
  {
    hide PackEven, PackOdd, Interleave;
    InterleaveAppend(ks, k, PackEven, PackOdd);
  }

  // Reversing subkey words by pairs reverses the round keys they stand for.
  lemma ReversedWords(ks: seq<bv48>)
    ensures PairReverse(WordsOf(ks)) == WordsOf(Reverse(ks))
  {
    hide PackEven, PackOdd, Interleave, PairReverse;
    PairReverseInterleave(ks, PackEven, PackOdd);
  }

  // The DES context: encryption and decryption subkeys.
  class DesContext {
    const esk: array<bv32>
    const dsk: array<bv32>

    constructor ()
      ensures fresh(esk) && fresh(dsk) && Valid()
    {
      esk := new bv32[32];
      dsk := new bv32[32];
    }

    ghost predicate Valid() { esk.Length == 32 && dsk.Length == 32 && esk != dsk }

    // The context is set up for this key.
    ghost predicate Holds(key: bv64)
      reads esk, dsk
    {
      esk[..] == WordsOf(Schedule(key)) && dsk[..] == WordsOf(Reverse(Schedule(key)))
    }

    method SetKey(key: array<bv8>, o: nat)
      requires Valid() && o + 8 <= key.Length
      modifies esk, dsk
      ensures Holds(BlockAt(key[..], o))
    {
      hide BlockAt, WordsOf, Schedule;
      DesMainKs(esk, 0, key, o);
      CopyReversed(esk, dsk);
      ReversedWords(Schedule(BlockAt(key[..], o)));
    }

    method Encrypt(input: array<bv8>, i: nat, output: array<bv8>, o: nat)
      requires Valid() && i + 8 <= input.Length && o + 8 <= output.Length
      modifies output
      ensures output[o..o + 8] == BytesOf(Cipher(KeysOf(esk[..]), old(BlockAt(input[..], i))))
      ensures forall j :: 0 <= j < output.Length && !(o <= j < o + 8) ==> output[j] == old(output[j])
    {
      hide KeysOf, BytesOf, BlockAt, Cipher;
      DesCrypt(esk, 0, input, i, output, o);
      assert esk[0..32] == esk[..];
    }

    method Decrypt(input: array<bv8>, i: nat, output: array<bv8>, o: nat)
      requires Valid() && i + 8 <= input.Length && o + 8 <= output.Length
      modifies output
      ensures output[o..o + 8] == BytesOf(Cipher(KeysOf(dsk[..]), old(BlockAt(input[..], i))))
      ensures forall j :: 0 <= j < output.Length && !(o <= j < o + 8) ==> output[j] == old(output[j])
    {
      hide KeysOf, BytesOf, BlockAt, Cipher;
      DesCrypt(dsk, 0, input, i, output, o);
      assert dsk[0..32] == dsk[..];
    }
  }
}
