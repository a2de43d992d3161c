// Triple DES: the two key setups, which fill all 96 subkey words of both directions from three
// key schedules, and the 48-round block function without inner permutations.
module Des3 {
  import opened Des
  import opened DesWords
  import opened Feistel
  import opened Fips46
  import opened Pairs

  // One pass of the filling loop of the three-key setup.
  method FillThreeStep<T>(esk: array<T>, dsk: array<T>, i: nat, ghost k1: seq<T>, ghost k2: seq<T>, ghost k3: seq<T>)
    requires esk.Length == 96 && dsk.Length == 96 && esk != dsk && i < 32 && i % 2 == 0 && |k1| == |k2| == |k3| == 32
    requires Laid(esk[..], k1, 32, PairReverse(k2), i, k3, 32)
    requires Laid(dsk[..], PairReverse(k3), i, k2, 32, PairReverse(k1), i)
    modifies esk, dsk
    ensures Laid(esk[..], k1, 32, PairReverse(k2), i + 2, k3, 32)
    ensures Laid(dsk[..], PairReverse(k3), i + 2, k2, 32, PairReverse(k1), i + 2)
  {
    hide Starts, PairReverse;
    ghost var r1, r2, r3 := PairReverse(k1), PairReverse(k2), PairReverse(k3);
    StartsReversed(esk[..], 64, k3, i);
    StorePair(dsk, 0, r3, i, esk[94 - i], esk[95 - i], 32, k2, 32, 64, r1, i);
    StartsReversed(dsk[..], 32, k2, i);
    StorePair(esk, 32, r2, i + 32, dsk[62 - i], dsk[63 - i], 0, k1, 32, 64, k3, 32);
    StartsReversed(esk[..], 0, k1, i);
    StorePair(dsk, 64, r1, i + 64, esk[30 - i], esk[31 - i], 0, r3, i + 2, 32, k2, 32);
  }

  // The filling loop of the three-key setup.
  method FillThree<T>(esk: array<T>, dsk: array<T>)
    requires esk.Length == 96 && dsk.Length == 96 && esk != dsk
    modifies esk, dsk
    ensures esk[..] == old(esk[..32]) + PairReverse(old(dsk[32..64])) + old(esk[64..])
    ensures dsk[..] == PairReverse(old(esk[64..])) + old(dsk[32..64]) + PairReverse(old(esk[..32]))
  {
    ghost var k1, k2, k3 := esk[..32], dsk[32..64], esk[64..];
    var i := 0;
    while i < 32
      invariant 0 <= i <= 32 && i % 2 == 0
      invariant Laid(esk[..], k1, 32, PairReverse(k2), i, k3, 32)
      invariant Laid(dsk[..], PairReverse(k3), i, k2, 32, PairReverse(k1), i)
    {
      FillThreeStep(esk, dsk, i, k1, k2, k3);
      i := i + 2;
    }
    LaidOut(esk[..], k1, PairReverse(k2), k3);
    LaidOut(dsk[..], PairReverse(k3), k2, PairReverse(k1));
  }

  // One pass of the filling loop of the two-key setup.
  method FillTwoStep<T>(esk: array<T>, dsk: array<T>, i: nat, ghost k1: seq<T>, ghost k2: seq<T>)
    requires esk.Length == 96 && dsk.Length == 96 && esk != dsk && i < 32 && i % 2 == 0 && |k1| == |k2| == 32
    requires Laid(esk[..], k1, 32, PairReverse(k2), i, k1, i)
    requires Laid(dsk[..], PairReverse(k1), i, k2, 32, PairReverse(k1), i)
    modifies esk, dsk
    ensures Laid(esk[..], k1, 32, PairReverse(k2), i + 2, k1, i + 2)
    ensures Laid(dsk[..], PairReverse(k1), i + 2, k2, 32, PairReverse(k1), i + 2)
  {
    hide Starts, PairReverse;
    ghost var r1, r2 := PairReverse(k1), PairReverse(k2);
    StartsReversed(esk[..], 0, k1, i);
    StorePair(dsk, 0, r1, i, esk[30 - i], esk[31 - i], 32, k2, 32, 64, r1, i);
    StartsReversed(dsk[..], 32, k2, i);
    StorePair(esk, 32, r2, i + 32, dsk[62 - i], dsk[63 - i], 0, k1, 32, 64, k1, i);
    StartsDirect(esk[..], 0, k1, 32, i);
    StartsDirect(esk[..], 0, k1, 32, i + 1);
    StorePair(esk, 64, k1, i + 64, esk[i], esk[i + 1], 0, k1, 32, 32, r2, i + 2);
    StartsDirect(dsk[..], 0, r1, i + 2, i);
    StartsDirect(dsk[..], 0, r1, i + 2, i + 1);
    StorePair(dsk, 64, r1, i + 64, dsk[i], dsk[i + 1], 0, r1, i + 2, 32, k2, 32);
  }

  // The filling loop of the two-key setup.
  method FillTwo<T>(esk: array<T>, dsk: array<T>)
    requires esk.Length == 96 && dsk.Length == 96 && esk != dsk
    modifies esk, dsk
    ensures esk[..] == old(esk[..32]) + PairReverse(old(dsk[32..64])) + old(esk[..32])
    ensures dsk[..] == PairReverse(old(esk[..32])) + old(dsk[32..64]) + PairReverse(old(esk[..32]))
  {
    ghost var k1, k2 := esk[..32], dsk[32..64];
    var i := 0;
    while i < 32
      invariant 0 <= i <= 32 && i % 2 == 0
      invariant Laid(esk[..], k1, 32, PairReverse(k2), i, k1, i)
      invariant Laid(dsk[..], PairReverse(k1), i, k2, 32, PairReverse(k1), i)
    {
      FillTwoStep(esk, dsk, i, k1, k2);
      i := i + 2;
    }
    LaidOut(esk[..], k1, PairReverse(k2), k1);
    LaidOut(dsk[..], PairReverse(k1), k2, PairReverse(k1));
  }

  // Three runs of the cipher, one after the other.
  function Cipher3(k1: seq<bv48>, k2: seq<bv48>, k3: seq<bv48>, block: bv64): bv64 {
    Cipher(k3, Cipher(k2, Cipher(k1, block)))
  }

  // Dropping the inner permutations: the halves after one cipher's swap enter the next directly.
  lemma FusedRounds(k1: seq<bv48>, k2: seq<bv48>, k3: seq<bv48>, block: bv64)
    ensures
      var h1 := Rounds(F, k1, Split(IP(block)));
      var h2 := Rounds(F, k2, Swap(h1));
      var h3 := Rounds(F, k3, Swap(h2));
      FP(Merge(Swap(h3))) == Cipher3(k1, k2, k3, block)
  {
    hide IP, FP, F, Rounds, Split, Merge;
    var h1 := Rounds(F, k1, Split(IP(block)));
    SplitAfterCipher(Swap(h1));
    var h2 := Rounds(F, k2, Swap(h1));
    SplitAfterCipher(Swap(h2));
  }

  lemma SplitAfterCipher(h: Halves)
    ensures Split(IP(FP(Merge(h)))) == h
  {
    hide IP, FP, Split, Merge;
    IPAfterFP(Merge(h));
    SplitMerge(h);
  }

  method Des3Crypt(sk: array<bv32>, input: array<bv8>, i: nat, output: array<bv8>, o: nat)
    requires sk.Length == 96 && i + 8 <= input.Length && o + 8 <= output.Length
    modifies output
    ensures output[o..o + 8] == BytesOf(Cipher3(KeysOf(sk[..32]), KeysOf(sk[32..64]), KeysOf(sk[64..]), old(BlockAt(input[..], i))))
    ensures forall j :: 0 <= j < output.Length && !(o <= j < o + 8) ==> output[j] == old(output[j])
  {
    hide IP, FP, Join, Hi, Lo, Word, ByteOf, BytesOf, DesIp, DesFp, F, Rounds, Cipher3, RotR1, KeysOf;
    var x := GetUint32Be(input, i);
    var y := GetUint32Be(input, i + 4);
    ghost var block := Join(x, y);
    var w := DesIp(x, y);
    IpSplits(x, y);
    x, y := Hi(w), Lo(w);
    var k;
    k, x, y := SixteenRounds(sk, 0, x, y);
    // In the middle sixteen rounds the code exchanges the roles of X and Y.
    k, y, x := SixteenRounds(sk, k, y, x);
    k, x, y := SixteenRounds(sk, k, x, y);
    w := DesFp(y, x);
    FpMerges(x, y);
    assert sk[..][0..32] == sk[..32] && sk[..][32..64] == sk[32..64] && sk[..][64..96] == sk[64..];
    FusedRounds(KeysOf(sk[..32]), KeysOf(sk[32..64]), KeysOf(sk[64..]), block);
    PutBlock(Hi(w), Lo(w), output, o);
    JoinSplit(w);
  }

  class Des3Context {
    const esk: array<bv32>
    const dsk: array<bv32>

    constructor ()
      ensures fresh(esk) && fresh(dsk) && Valid()
    {
      esk := new bv32[96];
      dsk := new bv32[96];
    }

    ghost predicate Valid() { esk.Length == 96 && dsk.Length == 96 && esk != dsk }

    // The context is set up for the three keys: encrypt-decrypt-encrypt, and the inverse order.
    ghost predicate Holds(k1: bv64, k2: bv64, k3: bv64)
      reads esk, dsk
    {
      && esk[..] == WordsOf(Schedule(k1)) + WordsOf(Reverse(Schedule(k2))) + WordsOf(Schedule(k3))
      && dsk[..] == WordsOf(Reverse(Schedule(k3))) + WordsOf(Schedule(k2)) + WordsOf(Reverse(Schedule(k1)))
    }

    method Set3Keys(key: array<bv8>, o: nat)
      requires Valid() && o + 24 <= key.Length
      modifies esk, dsk
      ensures Holds(BlockAt(key[..], o), BlockAt(key[..], o + 8), BlockAt(key[..], o + 16))
    {
      hide BlockAt, WordsOf, Schedule, PairReverse;
      ghost var s1 := Schedule(BlockAt(key[..], o));
      ghost var s2 := Schedule(BlockAt(key[..], o + 8));
      ghost var s3 := Schedule(BlockAt(key[..], o + 16));
      DesMainKs(esk, 0, key, o);
      assert esk[..32] == WordsOf(s1);
      DesMainKs(dsk, 32, key, o + 8);
      assert dsk[32..64] == WordsOf(s2);
      DesMainKs(esk, 64, key, o + 16);
      assert esk[64..] == WordsOf(s3);
      assert esk[..32] == WordsOf(s1) && dsk[32..64] == WordsOf(s2) && esk[64..] == WordsOf(s3);
      FillThree(esk, dsk);
      ReversedWords(s1);
      ReversedWords(s2);
      ReversedWords(s3);
    }

    method Set2Keys(key: array<bv8>, o: nat)
      requires Valid() && o + 16 <= key.Length
      modifies esk, dsk
      ensures Holds(BlockAt(key[..], o), BlockAt(key[..], o + 8), BlockAt(key[..], o))
    {
      hide BlockAt, WordsOf, Schedule, PairReverse;
      ghost var s1 := Schedule(BlockAt(key[..], o));
      ghost var s2 := Schedule(BlockAt(key[..], o + 8));
      DesMainKs(esk, 0, key, o);
      DesMainKs(dsk, 32, key, o + 8);
      assert esk[..32] == WordsOf(s1) && dsk[32..64] == WordsOf(s2);
      FillTwo(esk, dsk);
      ReversedWords(s1);
      ReversedWords(s2);
    }

    method Encrypt(input: array<bv8>, i: nat, output: array<bv8>, o: nat)
      requires Valid() && i + 8 <= input.Length && o + 8 <= output.Length
      modifies output
      ensures output[o..o + 8] ==
              BytesOf(Cipher3(KeysOf(esk[..32]), KeysOf(esk[32..64]), KeysOf(esk[64..]), old(BlockAt(input[..], i))))
      ensures forall j :: 0 <= j < output.Length && !(o <= j < o + 8) ==> output[j] == old(output[j])
    {
      hide KeysOf, BytesOf, BlockAt, Cipher3;
      Des3Crypt(esk, input, i, output, o);
    }

    method Decrypt(input: array<bv8>, i: nat, output: array<bv8>, o: nat)
      requires Valid() && i + 8 <= input.Length && o + 8 <= output.Length
      modifies output
      ensures output[o..o + 8] ==
              BytesOf(Cipher3(KeysOf(dsk[..32]), KeysOf(dsk[32..64]), KeysOf(dsk[64..]), old(BlockAt(input[..], i))))
      ensures forall j :: 0 <= j < output.Length && !(o <= j < o + 8) ==> output[j] == old(output[j])
    {
      hide KeysOf, BytesOf, BlockAt, Cipher3;
      Des3Crypt(dsk, input, i, output, o);
    }
  }
}
