// Cipher block chaining over byte buffers for DES and Triple DES.
module Cbc {
  import opened CbcMode
  import opened Des
  import opened Des3
  import opened DesWords
  import opened Feistel
  import opened Fips46
  import opened Pairs

  lemma Xor64Twice(a: bv64, b: bv64)
    ensures Xor64(Xor64(a, b), b) == a
  {
  }

  // Only the n bytes from offset o may differ.
  ghost predicate SameOutside(s: seq<bv8>, t: seq<bv8>, o: nat, n: nat)
  {
    |t| == |s| && forall j :: 0 <= j < |s| && !(o <= j < o + n) ==> t[j] == s[j]
  }

  // The n blocks of a buffer from offset o.
  function BlocksAt(s: seq<bv8>, o: nat, n: nat): (bs: seq<bv64>)
    requires o + 8 * n <= |s|
    ensures |bs| == n
  {
    seq(n, j requires 0 <= j < n => BlockAt(s, o + 8 * j))
  }

  // How many blocks a call with length argument len processes: the loop takes eight off while any remain.
  function BlockCount(len: int): nat { if len <= 0 then 0 else (len + 7) / 8 }

  // The block function of a subkey array: DES for 32 words, Triple DES for 96.
  function CryptOf(w: seq<bv32>): bv64 -> bv64
    requires |w| == 32 || |w| == 96
  {
    if |w| == 32 then b => Cipher(KeysOf(w), b)
    else b => Cipher3(KeysOf(w[..32]), KeysOf(w[32..64]), KeysOf(w[64..]), b)
  }

  method CryptBlock(sk: array<bv32>, input: array<bv8>, i: nat, output: array<bv8>, o: nat)
    requires sk.Length == 32 || sk.Length == 96
    requires i + 8 <= input.Length && o + 8 <= output.Length
    modifies output
    ensures BlockAt(output[..], o) == CryptOf(sk[..])(old(BlockAt(input[..], i)))
    ensures SameOutside(old(output[..]), output[..], o, 8)
  {
    hide BlockAt, BytesOf, Cipher, Cipher3, KeysOf;
    ghost var b := BlockAt(input[..], i);
    if sk.Length == 32 {
      DesCrypt(sk, 0, input, i, output, o);
      assert sk[0..32] == sk[..];
    } else {
      Des3Crypt(sk, input, i, output, o);
    }
    BlockBytes(CryptOf(sk[..])(b));
    BlockAtSlice(output[..], o);
  }

  lemma SameBlock(s: seq<bv8>, t: seq<bv8>, o: nat)
    requires o + 8 <= |s| && o + 8 <= |t| && s[o..o + 8] == t[o..o + 8]
    ensures BlockAt(s, o) == BlockAt(t, o)
  {
    hide BlockAt;
    BlockAtSlice(s, o);
    BlockAtSlice(t, o);
  }

  function XorByte(a: bv8, b: bv8): bv8 { a ^ b }

  lemma WordXor(a0: bv8, a1: bv8, a2: bv8, a3: bv8, b0: bv8, b1: bv8, b2: bv8, b3: bv8)
    ensures Word(XorByte(a0, b0), XorByte(a1, b1), XorByte(a2, b2), XorByte(a3, b3)) ==
            Xor(Word(a0, a1, a2, a3), Word(b0, b1, b2, b3))
  {
  }

  lemma JoinXor(x: bv32, y: bv32, u: bv32, v: bv32)
    ensures Join(Xor(x, u), Xor(y, v)) == Xor64(Join(x, y), Join(u, v))
  {
  }

  // Adding eight bytes to eight bytes adds the blocks.
  lemma BlockXor(s: seq<bv8>, a: seq<bv8>, b: seq<bv8>)
    requires |s| == |a| == |b| == 8
    requires forall j :: 0 <= j < 8 ==> s[j] == XorByte(a[j], b[j])
    ensures BlockAt(s, 0) == Xor64(BlockAt(a, 0), BlockAt(b, 0))
  {
    hide Word, Join, Xor64, Xor, XorByte;
    WordXor(a[0], a[1], a[2], a[3], b[0], b[1], b[2], b[3]);
    WordXor(a[4], a[5], a[6], a[7], b[4], b[5], b[6], b[7]);
    JoinXor(Word(a[0], a[1], a[2], a[3]), Word(a[4], a[5], a[6], a[7]),
            Word(b[0], b[1], b[2], b[3]), Word(b[4], b[5], b[6], b[7]));
  }

  // output[o..o + 8] := input[i..i + 8] xor iv, byte by byte; the buffers may be one.
  method XorInto(input: array<bv8>, i: nat, iv: array<bv8>, output: array<bv8>, o: nat)
    requires i + 8 <= input.Length && o + 8 <= output.Length && iv.Length == 8
    requires iv != output && (input != output || i == o)
    modifies output
    ensures BlockAt(output[..], o) == Xor64(old(BlockAt(input[..], i)), BlockAt(iv[..], 0))
    ensures SameOutside(old(output[..]), output[..], o, 8)
  {
    hide BlockAt, Xor64, XorByte;
    ghost var a := input[i..i + 8];
    for j := 0 to 8
      invariant forall t :: 0 <= t < j ==> output[o..o + 8][t] == XorByte(a[t], iv[t])
      invariant forall t :: j <= t < 8 ==> input[i..i + 8][t] == a[t]
      invariant SameOutside(old(output[..]), output[..], o, 8)
    {
      assert input[i + j] == input[i..i + 8][j];
      output[o + j] := XorByte(input[i + j], iv[j]);
    }
    BlockXor(output[o..o + 8], a, iv[..]);
    BlockAtSlice(output[..], o);
    BlockAtSlice(old(input[..]), i);
  }

  method Copy8(src: array<bv8>, s: nat, dst: array<bv8>)
    requires s + 8 <= src.Length && dst.Length == 8 && src != dst
    modifies dst
    ensures dst[..] == src[s..s + 8]
    ensures BlockAt(dst[..], 0) == BlockAt(src[..], s)
  {
    hide BlockAt;
    for j := 0 to 8
      invariant dst[..j] == src[s..s + j]
    {
      dst[j] := src[s + j];
    }
    BlockAtSlice(src[..], s);
  }

  // One pass of the encryption loop.
  method EncryptStep(sk: array<bv32>, iv: array<bv8>, input: array<bv8>, i: nat, output: array<bv8>, o: nat)
    requires sk.Length == 32 || sk.Length == 96
    requires i + 8 <= input.Length && o + 8 <= output.Length && iv.Length == 8
    requires iv != output && iv != input && (input != output || i == o)
    modifies iv, output
    ensures BlockAt(output[..], o) == CryptOf(sk[..])(Xor64(old(BlockAt(input[..], i)), old(BlockAt(iv[..], 0))))
    ensures BlockAt(iv[..], 0) == BlockAt(output[..], o)
    ensures SameOutside(old(output[..]), output[..], o, 8)
  {
    hide BlockAt, CryptOf, Xor64;
    XorInto(input, i, iv, output, o);
    CryptBlock(sk, output, o, output, o);
    Copy8(output, o, iv);
  }

  // One pass of the decryption loop; the cipher block is kept aside because output may be input.
  method DecryptStep(sk: array<bv32>, iv: array<bv8>, input: array<bv8>, i: nat, output: array<bv8>, o: nat)
    requires sk.Length == 32 || sk.Length == 96
    requires i + 8 <= input.Length && o + 8 <= output.Length && iv.Length == 8
    requires iv != output && iv != input && (input != output || i == o)
    modifies iv, output
    ensures BlockAt(output[..], o) == Xor64(CryptOf(sk[..])(old(BlockAt(input[..], i))), old(BlockAt(iv[..], 0)))
    ensures BlockAt(iv[..], 0) == old(BlockAt(input[..], i))
    ensures SameOutside(old(output[..]), output[..], o, 8)
  {
    hide BlockAt, CryptOf, Xor64;
    var temp := new bv8[8];
    Copy8(input, i, temp);
    CryptBlock(sk, input, i, output, o);
    XorInto(output, o, iv, output, o);
    Copy8(temp, 0, iv);
  }

  // Blocks j0 up to j1 of a buffer, counted from offset o, are those of bs.
  ghost predicate Matches(s: seq<bv8>, o: nat, bs: seq<bv64>, j0: nat, j1: nat)
  {
    j1 <= |bs| && o + 8 * j1 <= |s| && forall j :: j0 <= j < j1 ==> BlockAt(s, o + 8 * j) == bs[j]
  }

  // After block j is written, the blocks around it still match.
  lemma MatchesElsewhere(s: seq<bv8>, t: seq<bv8>, o: nat, j: nat, bs: seq<bv64>, j0: nat, j1: nat)
    requires Matches(s, o, bs, j0, j1) && SameOutside(s, t, o + 8 * j, 8) && (j1 <= j || j < j0)
    ensures Matches(t, o, bs, j0, j1)
  {
    hide BlockAt;
    forall k | j0 <= k < j1
      ensures BlockAt(t, o + 8 * k) == bs[k]
    {
      SameBlock(s, t, o + 8 * k);
    }
  }

  lemma MatchesNext(s: seq<bv8>, o: nat, bs: seq<bv64>, j: nat)
    requires Matches(s, o, bs, 0, j) && j < |bs| && o + 8 * j + 8 <= |s| && BlockAt(s, o + 8 * j) == bs[j]
    ensures Matches(s, o, bs, 0, j + 1)
  {
    hide BlockAt;
  }

  lemma MatchesFirst(s: seq<bv8>, o: nat, bs: seq<bv64>, j: nat, n: nat)
    requires Matches(s, o, bs, j, n) && j < n
    ensures o + 8 * j + 8 <= |s| && BlockAt(s, o + 8 * j) == bs[j] && Matches(s, o, bs, j + 1, n)
  {
    hide BlockAt;
  }

  lemma MatchesAll(s: seq<bv8>, o: nat, bs: seq<bv64>)
    requires Matches(s, o, bs, 0, |bs|)
    ensures BlocksAt(s, o, |bs|) == bs
  {
    hide BlockAt;
  }

  lemma SameOutsideWiden(s: seq<bv8>, t: seq<bv8>, u: seq<bv8>, o: nat, n: nat)
    requires SameOutside(s, t, o, n) && SameOutside(t, u, o + n, 8)
    ensures SameOutside(s, u, o, n + 8)
  {
  }

  lemma MatchesAtStart(s: seq<bv8>, o: nat, t: seq<bv8>, i: nat, n: nat, bs: seq<bv64>)
    requires i + 8 * n <= |t| && o <= |s|
    ensures Matches(t, i, BlocksAt(t, i, n), 0, n)
    ensures Matches(s, o, bs, 0, 0)
    ensures SameOutside(s, s, o, 0)
  {
    hide BlockAt;
  }

  // The loop state of both CBC routines: j blocks of result are in place, the input beyond them is
  // untouched, and the rest of the output buffer too.
  ghost predicate Progress(out0: seq<bv8>, out: seq<bv8>, o: nat, rs: seq<bv64>, inp: seq<bv8>, i: nat, bs: seq<bv64>, j: nat)
  {
    && |bs| == |rs| && j <= |rs|
    && Matches(out, o, rs, 0, j) && Matches(inp, i, bs, j, |bs|) && SameOutside(out0, out, o, 8 * j)
  }

  lemma ProgressNext(out0: seq<bv8>, out: seq<bv8>, out1: seq<bv8>, o: nat, rs: seq<bv64>,
                     inp: seq<bv8>, inp1: seq<bv8>, i: nat, bs: seq<bv64>, j: nat)
    requires Progress(out0, out, o, rs, inp, i, bs, j) && j < |rs| && o + 8 * j + 8 <= |out|
    requires SameOutside(out, out1, o + 8 * j, 8) && BlockAt(out1, o + 8 * j) == rs[j]
    requires inp1 == inp || (inp == out && inp1 == out1 && i == o)
    ensures Progress(out0, out1, o, rs, inp1, i, bs, j + 1)
  {
    hide BlockAt, Matches, SameOutside;
    MatchesElsewhere(out, out1, o, j, rs, 0, j);
    SameLength(out, out1, o + 8 * j);
    MatchesNext(out1, o, rs, j);
    MatchesFirst(inp, i, bs, j, |bs|);
    if inp1 != inp {
      MatchesElsewhere(inp, inp1, i, j, bs, j + 1, |bs|);
    }
    SameOutsideWiden(out0, out, out1, o, 8 * j);
  }

  lemma SameLength(s: seq<bv8>, t: seq<bv8>, o: nat)
    requires SameOutside(s, t, o, 8)
    ensures |s| == |t|
  {
  }

  lemma ChainNext(iv: bv64, cs: seq<bv64>, j: nat)
    requires j < |cs|
    ensures Chain(iv, cs[..j + 1]) == cs[j]
  {
  }

  // des_cbc_encrypt and des3_cbc_encrypt: BlockCount(len) blocks, in place or into another buffer.
  method CbcEncrypt(sk: array<bv32>, iv: array<bv8>, input: array<bv8>, i0: nat, output: array<bv8>, o0: nat, len0: int)
    requires sk.Length == 32 || sk.Length == 96
    requires i0 + 8 * BlockCount(len0) <= input.Length && o0 + 8 * BlockCount(len0) <= output.Length && iv.Length == 8
    requires iv != output && iv != input && (input != output || i0 == o0)
    modifies iv, output
    ensures var n := BlockCount(len0);
      var cs := Encrypted(CryptOf(sk[..]), Xor64, old(BlockAt(iv[..], 0)), old(BlocksAt(input[..], i0, n)));
      BlocksAt(output[..], o0, n) == cs && BlockAt(iv[..], 0) == Chain(old(BlockAt(iv[..], 0)), cs)
    ensures SameOutside(old(output[..]), output[..], o0, 8 * BlockCount(len0))
  {
    hide BlockAt, CryptOf, Xor64, SameOutside, Matches, Encrypted;
    ghost var n := BlockCount(len0);
    ghost var ps, iv0 := BlocksAt(input[..], i0, n), BlockAt(iv[..], 0);
    ghost var cs := Encrypted(CryptOf(sk[..]), Xor64, iv0, ps);
    var len, i, o := len0, i0, o0;
    ghost var j := 0;
    MatchesAtStart(output[..], o0, input[..], i0, n, cs);
    while len > 0
      invariant 0 <= j <= n && i == i0 + 8 * j && o == o0 + 8 * j && len == len0 - 8 * j
      invariant Progress(old(output[..]), output[..], o0, cs, input[..], i0, ps, j)
      invariant BlockAt(iv[..], 0) == Chain(iv0, cs[..j])
    {
      ghost var before, source := output[..], input[..];
      MatchesFirst(source, i0, ps, j, n);
      EncryptStep(sk, iv, input, i, output, o);
      EncryptedAt(CryptOf(sk[..]), Xor64, iv0, ps, j);
      ProgressNext(old(output[..]), before, output[..], o0, cs, source, input[..], i0, ps, j);
      ChainNext(iv0, cs, j);
      i, o, len, j := i + 8, o + 8, len - 8, j + 1;
    }
    MatchesAll(output[..], o0, cs);
    assert cs[..n] == cs;
  }

  // des_cbc_decrypt and des3_cbc_decrypt, with the decryption subkeys.
  method CbcDecrypt(sk: array<bv32>, iv: array<bv8>, input: array<bv8>, i0: nat, output: array<bv8>, o0: nat, len0: int)
    requires sk.Length == 32 || sk.Length == 96
    requires i0 + 8 * BlockCount(len0) <= input.Length && o0 + 8 * BlockCount(len0) <= output.Length && iv.Length == 8
    requires iv != output && iv != input && (input != output || i0 == o0)
    modifies iv, output
    ensures var n := BlockCount(len0);
      var cs := old(BlocksAt(input[..], i0, n));
      && BlocksAt(output[..], o0, n) == Decrypted(CryptOf(sk[..]), Xor64, old(BlockAt(iv[..], 0)), cs)
      && BlockAt(iv[..], 0) == Chain(old(BlockAt(iv[..], 0)), cs)
    ensures SameOutside(old(output[..]), output[..], o0, 8 * BlockCount(len0))
  {
    hide BlockAt, CryptOf, Xor64, SameOutside, Matches, Decrypted;
    ghost var n := BlockCount(len0);
    ghost var cs, iv0 := BlocksAt(input[..], i0, n), BlockAt(iv[..], 0);
    ghost var ps := Decrypted(CryptOf(sk[..]), Xor64, iv0, cs);
    var len, i, o := len0, i0, o0;
    ghost var j := 0;
    MatchesAtStart(output[..], o0, input[..], i0, n, ps);
    while len > 0
      invariant 0 <= j <= n && i == i0 + 8 * j && o == o0 + 8 * j && len == len0 - 8 * j
      invariant Progress(old(output[..]), output[..], o0, ps, input[..], i0, cs, j)
      invariant BlockAt(iv[..], 0) == Chain(iv0, cs[..j])
    {
      ghost var before, source := output[..], input[..];
      MatchesFirst(source, i0, cs, j, n);
      DecryptStep(sk, iv, input, i, output, o);
      DecryptedAt(CryptOf(sk[..]), Xor64, iv0, cs, j);
      ProgressNext(old(output[..]), before, output[..], o0, ps, source, input[..], i0, cs, j);
      ChainNext(iv0, cs, j);
      i, o, len, j := i + 8, o + 8, len - 8, j + 1;
    }
    MatchesAll(output[..], o0, ps);
    assert cs[..n] == cs;
  }
}
