// CBC with DES and Triple DES: the round trip, for any subkey words and any number of blocks.
module CbcTheorems {
  import opened Cbc
  import opened CbcMode
  import opened Des
  import opened Des3
  import opened DesTheorems
  import opened DesWords
  import opened Feistel
  import opened Fips46
  import opened Pairs

  lemma PairReverseThirds<T>(w: seq<T>)
    requires |w| == 96
    ensures PairReverse(w)[..32] == PairReverse(w[64..])
    ensures PairReverse(w)[32..64] == PairReverse(w[32..64])
    ensures PairReverse(w)[64..] == PairReverse(w[..32])
  {
  }

  // With the subkey pairs reversed, the block function undoes itself: DES on any 32 subkey words,
  // Triple DES on any 96.
  lemma CryptUndo(w: seq<bv32>, block: bv64)
    requires |w| == 32 || |w| == 96
    ensures CryptOf(PairReverse(w))(CryptOf(w)(block)) == block
  {
    hide Cipher, KeysOf, PairReverse;
    if |w| == 32 {
      ReversedSubkeysUndo(w, block);
    } else {
      PairReverseThirds(w);
      var b1 := Cipher(KeysOf(w[..32]), block);
      var b2 := Cipher(KeysOf(w[32..64]), b1);
      ReversedSubkeysUndo(w[64..], b2);
      ReversedSubkeysUndo(w[32..64], b1);
      ReversedSubkeysUndo(w[..32], block);
    }
  }

  // Both key setups leave the decryption subkeys as the pairwise reversal of the encryption subkeys.
  lemma DesSetupReverses(esk: seq<bv32>, dsk: seq<bv32>, key: bv64)
    requires esk == WordsOf(Schedule(key)) && dsk == WordsOf(Reverse(Schedule(key)))
    ensures dsk == PairReverse(esk)
  {
    hide WordsOf, Schedule, PairReverse;
    ReversedWords(Schedule(key));
  }

  lemma TripleSetupReverses(esk: seq<bv32>, dsk: seq<bv32>, k1: bv64, k2: bv64, k3: bv64)
    requires SetUp(esk, dsk, k1, k2, k3)
    ensures |esk| == 96 && dsk == PairReverse(esk)
  {
    hide WordsOf, Schedule, PairReverse;
    ReversedWords(Schedule(k1));
    ReversedWords(Reverse(Schedule(k2)));
    ReverseTwice(Schedule(k2));
    ReversedWords(Schedule(k3));
    PairReverseThirds(esk);
    var e1, e2, e3 := WordsOf(Schedule(k1)), WordsOf(Reverse(Schedule(k2))), WordsOf(Schedule(k3));
    assert esk[..32] == e1 && esk[32..64] == e2 && esk[64..] == e3;
    var r := PairReverse(esk);
    assert r == r[..32] + r[32..64] + r[64..];
  }

  // Decrypting a CBC message with the reversed subkeys and the original initialization vector
  // restores it.
  lemma CbcUndo(w: seq<bv32>, iv: bv64, ps: seq<bv64>)
    requires |w| == 32 || |w| == 96
    ensures Decrypted(CryptOf(PairReverse(w)), Xor64, iv, Encrypted(CryptOf(w), Xor64, iv, ps)) == ps
  {
    hide CryptOf, PairReverse, Xor64;
    forall b
      ensures CryptOf(PairReverse(w))(CryptOf(w)(b)) == b
    {
      CryptUndo(w, b);
    }
    forall a, b
      ensures Xor64(Xor64(a, b), b) == a
    {
      Xor64Twice(a, b);
    }
    DecryptEncrypt(CryptOf(w), CryptOf(PairReverse(w)), Xor64, iv, ps);
  }

  lemma BlocksSplit(s: seq<bv8>, o: nat, n: nat, m: nat)
    requires o + 8 * (n + m) <= |s|
    ensures BlocksAt(s, o, n + m) == BlocksAt(s, o, n) + BlocksAt(s, o + 8 * n, m)
  {
    hide BlockAt;
    var all, front, back := BlocksAt(s, o, n + m), BlocksAt(s, o, n), BlocksAt(s, o + 8 * n, m);
    forall j | 0 <= j < m
      ensures all[n..][j] == back[j]
    {
      assert o + 8 * (n + j) == o + 8 * n + 8 * j;
    }
    assert all[..n] == front && all[n..] == back;
    assert all == all[..n] + all[n..];
  }

  lemma BlockBytesAt(s: seq<bv8>, o: nat, t: seq<bv8>, p: nat)
    requires o + 8 <= |s| && p + 8 <= |t| && BlockAt(s, o) == BlockAt(t, p)
    ensures s[o..o + 8] == t[p..p + 8]
  {
    hide BlockAt, BytesOf;
    BlockAtSlice(s, o);
    BlockAtSlice(t, p);
    BytesBlock(s[o..o + 8]);
    BytesBlock(t[p..p + 8]);
  }

  // The same blocks are the same bytes.
  lemma BlocksBytes(s: seq<bv8>, o: nat, t: seq<bv8>, p: nat, n: nat)
    requires o + 8 * n <= |s| && p + 8 * n <= |t| && BlocksAt(s, o, n) == BlocksAt(t, p, n)
    ensures s[o..o + 8 * n] == t[p..p + 8 * n]
  {
    hide BlockAt;
    var bytes, bytes' := s[o..o + 8 * n], t[p..p + 8 * n];
    forall k | 0 <= k < |bytes|
      ensures bytes[k] == bytes'[k]
    {
      var j := k / 8;
      assert BlocksAt(s, o, n)[j] == BlockAt(s, o + 8 * j) && BlocksAt(t, p, n)[j] == BlockAt(t, p + 8 * j);
      BlockBytesAt(s, o + 8 * j, t, p + 8 * j);
      assert s[o + 8 * j..o + 8 * j + 8][k - 8 * j] == t[p + 8 * j..p + 8 * j + 8][k - 8 * j];
    }
  }

  // What a CBC call promises of a buffer leaves no choice.
  lemma BlocksDetermine(was: seq<bv8>, s: seq<bv8>, t: seq<bv8>, o: nat, n: nat)
    requires o + 8 * n <= |was| && SameOutside(was, s, o, 8 * n) && SameOutside(was, t, o, 8 * n)
    requires BlocksAt(s, o, n) == BlocksAt(t, o, n)
    ensures s == t
  {
    BlocksBytes(s, o, t, o, n);
    hide BlocksAt;
    forall k | 0 <= k < |s|
      ensures s[k] == t[k]
    {
      if o <= k < o + 8 * n {
        assert s[k] == s[o..o + 8 * n][k - o] && t[k] == t[o..o + 8 * n][k - o];
      }
    }
  }

  // Encrypting and then decrypting, with the reversed subkeys and the initialization vector there was
  // before, gives the bytes back: from one buffer to another and on to a third, or all in place, or any
  // mixture of the two; a last block that the length reaches only in part is restored as a whole.
  method RoundTrip(esk: array<bv32>, dsk: array<bv32>, iv: array<bv8>, iv': array<bv8>, input: array<bv8>, i: nat,
                   output: array<bv8>, o: nat, back: array<bv8>, b: nat, len: int)
    requires esk.Length == dsk.Length && (esk.Length == 32 || esk.Length == 96) && dsk[..] == PairReverse(esk[..])
    requires iv.Length == iv'.Length == 8 && iv' != iv && iv[..] == iv'[..]
    requires iv != input && iv != output && iv' != input && iv' != output && iv' != back && iv != back
    requires i + 8 * BlockCount(len) <= input.Length && o + 8 * BlockCount(len) <= output.Length && b + 8 * BlockCount(len) <= back.Length
    requires (input != output || i == o) && (output != back || o == b)
    modifies iv, iv', output, back
    ensures back[b..b + 8 * BlockCount(len)] == old(input[i..i + 8 * BlockCount(len)])
    ensures SameOutside(if back == output then old(output[..]) else old(back[..]), back[..], b, 8 * BlockCount(len))
  {
    hide BlockAt, CryptOf, Xor64, BlocksAt, PairReverse, Encrypted, Decrypted;
    ghost var n, was := BlockCount(len), input[..];
    ghost var ps, iv0 := BlocksAt(was, i, n), BlockAt(iv[..], 0);
    CbcEncrypt(esk, iv, input, i, output, o, len);
    ghost var mid := back[..];
    CbcDecrypt(dsk, iv', output, o, back, b, len);
    CbcUndo(esk[..], iv0, ps);
    assert BlocksAt(back[..], b, n) == ps;
    BlocksBytes(back[..], b, was, i, n);
    assert back[..][b..b + 8 * n] == back[b..b + 8 * n] && was[i..i + 8 * n] == old(input[i..i + 8 * n]);
  }

  lemma CountAdds(len1: int, len2: int)
    requires len1 >= 0 && len2 >= 0 && len1 % 8 == 0
    ensures BlockCount(len1 + len2) == BlockCount(len1) + BlockCount(len2) && 8 * BlockCount(len1) == len1
  {
  }

  // How far a call with a first length, and one for the rest of the buffer right behind it, write together.
  function Reach(len1: nat, len2: nat): nat
  {
    if len2 == 0 then 8 * BlockCount(len1) else len1 + 8 * BlockCount(len2)
  }

  // The two write what one call writes exactly if the first length is a multiple of eight, or nothing follows.
  lemma SplitsEvenly(len1: nat, len2: nat)
    ensures Reach(len1, len2) == 8 * BlockCount(len1 + len2) <==> len1 % 8 == 0 || len2 == 0
  {
  }

  // Two consecutive calls, the first with a multiple of eight: the result of one call over both lengths.
  method EncryptTwice(sk: array<bv32>, iv: array<bv8>, input: array<bv8>, i: nat, output: array<bv8>, o: nat, len1: nat, len2: nat)
    requires sk.Length == 32 || sk.Length == 96
    requires i + 8 * BlockCount(len1 + len2) <= input.Length && o + 8 * BlockCount(len1 + len2) <= output.Length && iv.Length == 8
    requires iv != output && iv != input && (input != output || i == o)
    requires len1 % 8 == 0
    modifies iv, output
    ensures var n := BlockCount(len1 + len2);
      var cs := Encrypted(CryptOf(sk[..]), Xor64, old(BlockAt(iv[..], 0)), old(BlocksAt(input[..], i, n)));
      BlocksAt(output[..], o, n) == cs && BlockAt(iv[..], 0) == Chain(old(BlockAt(iv[..], 0)), cs)
    ensures SameOutside(old(output[..]), output[..], o, 8 * BlockCount(len1 + len2))
  {
    hide BlockAt, CryptOf, Xor64, BlocksAt, Encrypted, SameOutside, BlockCount;
    CountAdds(len1, len2);
    ghost var n1, n2, n := BlockCount(len1), BlockCount(len2), BlockCount(len1 + len2);
    ghost var in0, out0, iv0 := input[..], output[..], BlockAt(iv[..], 0);
    BlocksSplit(in0, i, n1, n2);
    CbcEncrypt(sk, iv, input, i, output, o, len1);
    ghost var in1, out1, iv1 := input[..], output[..], BlockAt(iv[..], 0);
    StillThere(in0, in1, i, n1, n2);
    CbcEncrypt(sk, iv, input, i + len1, output, o + len1, len2);
    StillBefore(out1, output[..], o, n1, n2);
    BlocksSplit(output[..], o, n1, n2);
    SameOutsideBoth(out0, out1, output[..], o, 8 * n1, 8 * n2);
    EncryptedConcat(CryptOf(sk[..]), Xor64, iv0, BlocksAt(in0, i, n1), BlocksAt(in0, i + 8 * n1, n2));
    ChainConcat(iv0, BlocksAt(out1, o, n1), BlocksAt(output[..], o + 8 * n1, n2));
  }

  method DecryptTwice(sk: array<bv32>, iv: array<bv8>, input: array<bv8>, i: nat, output: array<bv8>, o: nat, len1: nat, len2: nat)
    requires sk.Length == 32 || sk.Length == 96
    requires i + 8 * BlockCount(len1 + len2) <= input.Length && o + 8 * BlockCount(len1 + len2) <= output.Length && iv.Length == 8
    requires iv != output && iv != input && (input != output || i == o)
    requires len1 % 8 == 0
    modifies iv, output
    ensures var n := BlockCount(len1 + len2);
      var cs := old(BlocksAt(input[..], i, n));
      && BlocksAt(output[..], o, n) == Decrypted(CryptOf(sk[..]), Xor64, old(BlockAt(iv[..], 0)), cs)
      && BlockAt(iv[..], 0) == Chain(old(BlockAt(iv[..], 0)), cs)
    ensures SameOutside(old(output[..]), output[..], o, 8 * BlockCount(len1 + len2))
  {
    hide BlockAt, CryptOf, Xor64, BlocksAt, Decrypted, SameOutside, BlockCount;
    CountAdds(len1, len2);
    ghost var n1, n2, n := BlockCount(len1), BlockCount(len2), BlockCount(len1 + len2);
    ghost var in0, out0, iv0 := input[..], output[..], BlockAt(iv[..], 0);
    BlocksSplit(in0, i, n1, n2);
    CbcDecrypt(sk, iv, input, i, output, o, len1);
    ghost var in1, out1, iv1 := input[..], output[..], BlockAt(iv[..], 0);
    StillThere(in0, in1, i, n1, n2);
    CbcDecrypt(sk, iv, input, i + len1, output, o + len1, len2);
    StillBefore(out1, output[..], o, n1, n2);
    BlocksSplit(output[..], o, n1, n2);
    SameOutsideBoth(out0, out1, output[..], o, 8 * n1, 8 * n2);
    DecryptedConcat(CryptOf(sk[..]), Xor64, iv0, BlocksAt(in0, i, n1), BlocksAt(in0, i + 8 * n1, n2));
    ChainConcat(iv0, BlocksAt(in0, i, n1), BlocksAt(in0, i + 8 * n1, n2));
  }

  // The first call leaves the second one's blocks alone, ...
  lemma StillThere(was: seq<bv8>, now: seq<bv8>, i: nat, n: nat, m: nat)
    requires i + 8 * (n + m) <= |was| && (now == was || SameOutside(was, now, i, 8 * n))
    ensures |now| == |was| && BlocksAt(now, i + 8 * n, m) == BlocksAt(was, i + 8 * n, m)
  {
    hide BlockAt;
    forall j | 0 <= j < m
      ensures BlockAt(now, i + 8 * n + 8 * j) == BlockAt(was, i + 8 * n + 8 * j)
    {
      SameBlock(was, now, i + 8 * n + 8 * j);
    }
  }

  // ... and the second those that the first has written.
  lemma StillBefore(was: seq<bv8>, now: seq<bv8>, o: nat, n: nat, m: nat)
    requires o + 8 * (n + m) <= |was| && SameOutside(was, now, o + 8 * n, 8 * m)
    ensures |now| == |was| && BlocksAt(now, o, n) == BlocksAt(was, o, n)
  {
    hide BlockAt;
    forall j | 0 <= j < n
      ensures BlockAt(now, o + 8 * j) == BlockAt(was, o + 8 * j)
    {
      SameBlock(was, now, o + 8 * j);
    }
  }

  lemma SameOutsideBoth(s: seq<bv8>, t: seq<bv8>, u: seq<bv8>, o: nat, n: nat, m: nat)
    requires SameOutside(s, t, o, n) && SameOutside(t, u, o + n, m)
    ensures SameOutside(s, u, o, n + m)
  {
  }

  lemma ChainConcat<T>(iv: T, a: seq<T>, b: seq<T>)
    ensures Chain(iv, a + b) == Chain(Chain(iv, a), b)
  {
  }
}
