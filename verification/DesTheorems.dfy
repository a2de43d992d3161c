// What FIPS 46-3 and the code promise of DES and Triple DES, over every key, block and subkey array.
module DesTheorems {
  import opened Des
  import opened Des3
  import opened DesWords
  import opened Feistel
  import opened Fips46
  import opened Pairs

  function Not28(c: bv28): bv28 { !c }

  function Not48(k: bv48): bv48 { !k }

  function Not64(b: bv64): bv64 { !b }

  // Running des_crypt with the subkey pairs reversed undoes des_crypt, for any subkey words at all.
  lemma ReversedSubkeysUndo(w: seq<bv32>, block: bv64)
    requires |w| % 2 == 0
    ensures Cipher(KeysOf(PairReverse(w)), Cipher(KeysOf(w), block)) == block
  {
    hide Cipher, Unpack, Pairwise, PairReverse, Reverse;
    PairwiseReverse(w, Unpack);
    CipherUndo(KeysOf(w), block);
  }

  // The sixteen shifts of the key register accumulate to one rotation, of 1, 2, 4, ... 27 and
  // finally 28 places.
  lemma ShiftsAccumulate(c: bv28)
    ensures RotateLeft(c, 1) == ((c << 1) | (c >> 27))
    ensures RotateLeft(((c << 1) | (c >> 27)), 1) == ((c << 2) | (c >> 26))
    ensures RotateLeft(((c << 2) | (c >> 26)), 2) == ((c << 4) | (c >> 24))
    ensures RotateLeft(((c << 4) | (c >> 24)), 2) == ((c << 6) | (c >> 22))
    ensures RotateLeft(((c << 6) | (c >> 22)), 2) == ((c << 8) | (c >> 20))
    ensures RotateLeft(((c << 8) | (c >> 20)), 2) == ((c << 10) | (c >> 18))
    ensures RotateLeft(((c << 10) | (c >> 18)), 2) == ((c << 12) | (c >> 16))
    ensures RotateLeft(((c << 12) | (c >> 16)), 2) == ((c << 14) | (c >> 14))
    ensures RotateLeft(((c << 14) | (c >> 14)), 1) == ((c << 15) | (c >> 13))
    ensures RotateLeft(((c << 15) | (c >> 13)), 2) == ((c << 17) | (c >> 11))
    ensures RotateLeft(((c << 17) | (c >> 11)), 2) == ((c << 19) | (c >> 9))
    ensures RotateLeft(((c << 19) | (c >> 9)), 2) == ((c << 21) | (c >> 7))
    ensures RotateLeft(((c << 21) | (c >> 7)), 2) == ((c << 23) | (c >> 5))
    ensures RotateLeft(((c << 23) | (c >> 5)), 2) == ((c << 25) | (c >> 3))
    ensures RotateLeft(((c << 25) | (c >> 3)), 2) == ((c << 27) | (c >> 1))
    ensures RotateLeft(((c << 27) | (c >> 1)), 1) == c
  {
  }

  // After the sixteen iterations both halves of the key register are back where they started.
  lemma ScheduleCloses(key: bv64)
    ensures KeyC(key, 16) == KeyC(key, 0) && KeyD(key, 16) == KeyD(key, 0)
  {
    hide RotateLeft, PC1C, PC1D;
    var c, d := KeyC(key, 0), KeyD(key, 0);
    ShiftsAccumulate(c);
    ShiftsAccumulate(d);
    assert KeyC(key, 1) == ((c << 1) | (c >> 27)) && KeyD(key, 1) == ((d << 1) | (d >> 27));
    assert KeyC(key, 2) == ((c << 2) | (c >> 26)) && KeyD(key, 2) == ((d << 2) | (d >> 26));
    assert KeyC(key, 3) == ((c << 4) | (c >> 24)) && KeyD(key, 3) == ((d << 4) | (d >> 24));
    assert KeyC(key, 4) == ((c << 6) | (c >> 22)) && KeyD(key, 4) == ((d << 6) | (d >> 22));
    assert KeyC(key, 5) == ((c << 8) | (c >> 20)) && KeyD(key, 5) == ((d << 8) | (d >> 20));
    assert KeyC(key, 6) == ((c << 10) | (c >> 18)) && KeyD(key, 6) == ((d << 10) | (d >> 18));
    assert KeyC(key, 7) == ((c << 12) | (c >> 16)) && KeyD(key, 7) == ((d << 12) | (d >> 16));
    assert KeyC(key, 8) == ((c << 14) | (c >> 14)) && KeyD(key, 8) == ((d << 14) | (d >> 14));
    assert KeyC(key, 9) == ((c << 15) | (c >> 13)) && KeyD(key, 9) == ((d << 15) | (d >> 13));
    assert KeyC(key, 10) == ((c << 17) | (c >> 11)) && KeyD(key, 10) == ((d << 17) | (d >> 11));
    assert KeyC(key, 11) == ((c << 19) | (c >> 9)) && KeyD(key, 11) == ((d << 19) | (d >> 9));
    assert KeyC(key, 12) == ((c << 21) | (c >> 7)) && KeyD(key, 12) == ((d << 21) | (d >> 7));
    assert KeyC(key, 13) == ((c << 23) | (c >> 5)) && KeyD(key, 13) == ((d << 23) | (d >> 5));
    assert KeyC(key, 14) == ((c << 25) | (c >> 3)) && KeyD(key, 14) == ((d << 25) | (d >> 3));
    assert KeyC(key, 15) == ((c << 27) | (c >> 1)) && KeyD(key, 15) == ((d << 27) | (d >> 1));
    assert KeyC(key, 16) == c && KeyD(key, 16) == d;
  }

  lemma NotWires(b: bv64)
    ensures IP(Not64(b)) == Not64(IP(b))
    ensures FP(Not64(b)) == Not64(FP(b))
    ensures PC1C(Not64(b)) == Not28(PC1C(b))
    ensures PC1D(Not64(b)) == Not28(PC1D(b))
  {
  }

  lemma NotSplits(b: bv64)
    ensures Hi(Not64(b)) == Not(Hi(b)) && Lo(Not64(b)) == Not(Lo(b))
  {
  }

  lemma NotJoins(l: bv32, r: bv32)
    ensures Join(Not(l), Not(r)) == Not64(Join(l, r))
  {
    hide Join;
    NotJoinsBits(l, r);
  }

  lemma NotJoinsBits(l: bv32, r: bv32)
    ensures Join(!l, !r) == !Join(l, r)
  {
  }

  lemma NotRotate(c: bv28)
    ensures RotateLeft(Not28(c), 1) == Not28(RotateLeft(c, 1))
    ensures RotateLeft(Not28(c), 2) == Not28(RotateLeft(c, 2))
  {
  }

  lemma NotPC2(c: bv28, d: bv28)
    ensures PC2(Not28(c), Not28(d)) == Not48(PC2(c, d))
  {
    hide PC2;
    NotPC2Bits(c, d);
  }

  lemma NotPC2Bits(c: bv28, d: bv28)
    ensures PC2(!c, !d) == !PC2(c, d)
  {
  }

  // The expanded half-block and the round key complement together, so their sum does not change.
  lemma NotExpanded(r: bv32, k: bv48)
    ensures Expanded(Not(r), Not48(k)) == Expanded(r, k)
  {
  }

  // A complemented round key flips exactly the six used bits of every byte of its two subkey words.
  lemma SubkeyComplement(k: bv48)
    ensures PackEven(Not48(k)) == PackEven(k) ^ 0x3F3F3F3F
    ensures PackOdd(Not48(k)) == PackOdd(k) ^ 0x3F3F3F3F
  {
  }

  lemma {:induction false} KeysComplement(key: bv64, n: nat)
    ensures KeyC(Not64(key), n) == Not28(KeyC(key, n))
    ensures KeyD(Not64(key), n) == Not28(KeyD(key, n))
  {
    hide RotateLeft, PC1C, PC1D, Not28, Not64;
    if n == 0 {
      NotWires(key);
    } else {
      KeysComplement(key, n - 1);
      NotRotate(KeyC(key, n - 1));
      NotRotate(KeyD(key, n - 1));
    }
  }

  lemma RoundsAreBlind(key: bv64, n: nat)
    ensures Blind(F, KS(n, key), KS(n, Not64(key)))
  {
    hide E, Expanded, P, Nibbles, PC2, KeyC, KeyD, Not28, Not48, Not64, Not;
    hide S1, S2, S3, S4, S5, S6, S7, S8, B1, B2, B3, B4, B5, B6, B7, B8;
    KeysComplement(key, n);
    NotPC2(KeyC(key, n), KeyD(key, n));
    forall r: bv32
      ensures F(Not(r), KS(n, Not64(key))) == F(r, KS(n, key))
    {
      NotExpanded(r, KS(n, key));
    }
  }

  lemma SplitComplement(b: bv64)
    ensures Split(Not64(b)) == Complement(Split(b))
  {
    hide Hi, Lo, Not, Not64;
    NotSplits(b);
  }

  lemma MergeComplement(h: Halves)
    ensures Merge(Swap(Complement(h))) == Not64(Merge(Swap(h)))
  {
    hide Join, Not, Not64;
    NotJoins(h.r, h.l);
  }

  // DES complementation: complementing the key and the block complements the result.
  lemma EncipherComplement(key: bv64, block: bv64)
    ensures Encipher(Not64(key), Not64(block)) == Not64(Encipher(key, block))
  {
    hide IP, FP, F, Rounds, KS, Split, Merge, Swap, Complement, Not64, Blind;
    var ks, ns := Schedule(key), Schedule(Not64(key));
    forall i | 0 <= i < 16
      ensures Blind(F, ks[i], ns[i])
    {
      RoundsAreBlind(key, i + 1);
    }
    var h := Split(IP(block));
    NotWires(block);
    SplitComplement(IP(block));
    RoundsComplement(F, ks, ns, h);
    MergeComplement(Rounds(F, ks, h));
    NotWires(Merge(Swap(Rounds(F, ks, h))));
  }

  // A context set up for a key encrypts and decrypts as the standard says.
  lemma ContextIsFips(esk: seq<bv32>, dsk: seq<bv32>, key: bv64, block: bv64)
    requires esk == WordsOf(Schedule(key)) && dsk == WordsOf(Reverse(Schedule(key)))
    ensures Cipher(KeysOf(esk), block) == Encipher(key, block)
    ensures Cipher(KeysOf(dsk), block) == Decipher(key, block)
    ensures Cipher(KeysOf(dsk), Cipher(KeysOf(esk), block)) == block
  {
    hide KeysOf, WordsOf, Schedule, Cipher;
    KeysWords(Schedule(key));
    KeysWords(Reverse(Schedule(key)));
    DecipherEncipher(key, block);
  }

  // The thirds of a Triple-DES context set up for three keys.
  ghost predicate SetUp(esk: seq<bv32>, dsk: seq<bv32>, k1: bv64, k2: bv64, k3: bv64)
  {
    && esk == WordsOf(Schedule(k1)) + WordsOf(Reverse(Schedule(k2))) + WordsOf(Schedule(k3))
    && dsk == WordsOf(Reverse(Schedule(k3))) + WordsOf(Schedule(k2)) + WordsOf(Reverse(Schedule(k1)))
  }

  lemma Thirds(a: seq<bv32>, u: seq<bv48>, v: seq<bv48>, w: seq<bv48>)
    requires |u| == |v| == |w| == 16 && a == WordsOf(u) + WordsOf(v) + WordsOf(w)
    ensures KeysOf(a[..32]) == u && KeysOf(a[32..64]) == v && KeysOf(a[64..]) == w
  {
    hide KeysOf, WordsOf;
    KeysWords(u);
    KeysWords(v);
    KeysWords(w);
    assert a[..32] == WordsOf(u) && a[32..64] == WordsOf(v) && a[64..] == WordsOf(w);
  }

  // Triple DES is encipher-decipher-encipher, and decryption inverts it.
  lemma TripleIsEde(esk: seq<bv32>, dsk: seq<bv32>, k1: bv64, k2: bv64, k3: bv64, block: bv64)
    requires SetUp(esk, dsk, k1, k2, k3)
    ensures |esk| == |dsk| == 96
    ensures Cipher3(KeysOf(esk[..32]), KeysOf(esk[32..64]), KeysOf(esk[64..]), block) ==
            Encipher(k3, Decipher(k2, Encipher(k1, block)))
    ensures Cipher3(KeysOf(dsk[..32]), KeysOf(dsk[32..64]), KeysOf(dsk[64..]), block) ==
            Decipher(k1, Encipher(k2, Decipher(k3, block)))
  {
    hide KeysOf, WordsOf, Schedule, Cipher;
    Thirds(esk, Schedule(k1), Reverse(Schedule(k2)), Schedule(k3));
    Thirds(dsk, Reverse(Schedule(k3)), Schedule(k2), Reverse(Schedule(k1)));
  }

  lemma TripleUndo(k1: bv64, k2: bv64, k3: bv64, block: bv64)
    ensures Decipher(k1, Encipher(k2, Decipher(k3, Encipher(k3, Decipher(k2, Encipher(k1, block)))))) == block
    ensures Encipher(k3, Decipher(k2, Encipher(k1, Decipher(k1, Encipher(k2, Decipher(k3, block)))))) == block
    ensures Encipher(k1, Decipher(k1, Encipher(k1, block))) == Encipher(k1, block)
  {
    hide Encipher, Decipher;
    DecipherEncipher(k3, Decipher(k2, Encipher(k1, block)));
    DecipherEncipher(k2, Encipher(k1, block));
    DecipherEncipher(k1, block);
    DecipherEncipher(k1, Encipher(k2, Decipher(k3, block)));
    DecipherEncipher(k2, Decipher(k3, block));
    DecipherEncipher(k3, block);
  }
}
