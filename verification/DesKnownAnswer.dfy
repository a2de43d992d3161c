// One known answer: FIPS 46-3 at one key and block, worked through the key schedule and the sixteen
// rounds, and what a context and des_crypt make of those bytes.
module DesKnownAnswer {
  import opened Des
  import opened DesTheorems
  import opened DesWords
  import opened Feistel
  import opened Fips46

  function FirstKeys(): (ks: seq<bv48>)
    ensures |ks| == 4
  {
    [0x1B02EFFC7072, 0x79AED9DBC9E5, 0x55FC8A42CF99, 0x72ADD6DB351D]
  }

  function SecondKeys(): (ks: seq<bv48>)
    ensures |ks| == 4
  {
    [0x7CEC07EB53A8, 0x63A53E507B2F, 0xEC84B7F618BC, 0xF78A3AC13BFB]
  }

  function ThirdKeys(): (ks: seq<bv48>)
    ensures |ks| == 4
  {
    [0xE0DBEBEDE781, 0xB1F347BA464F, 0x215FD3DED386, 0x7571F59467E9]
  }

  function LastKeys(): (ks: seq<bv48>)
    ensures |ks| == 4
  {
    [0x97C5D1FABA41, 0x5F43B7F2E73A, 0xBF918D3D3F0A, 0xCB3D8B0E17F5]
  }

  // The key register: one iteration of the schedule, and where it begins.
  lemma Advance(key: bv64, n: nat, c: bv28, d: bv28)
    requires n > 0 && KeyC(key, n - 1) == c && KeyD(key, n - 1) == d
    ensures KeyC(key, n) == RotateLeft(c, LeftShifts(n)) && KeyD(key, n) == RotateLeft(d, LeftShifts(n))
  {
  }

  lemma Register(key: bv64)
    requires key == 0x133457799BBCDFF1
    ensures KeyC(key, 0) == 0xF0CCAAF && KeyD(key, 0) == 0x556678F
  {
  }

  lemma FirstSubkeys(key: bv64)
    requires KeyC(key, 0) == 0xF0CCAAF && KeyD(key, 0) == 0x556678F
    ensures KS(1, key) == 0x1B02EFFC7072 && KS(2, key) == 0x79AED9DBC9E5 && KS(3, key) == 0x55FC8A42CF99 && KS(4, key) == 0x72ADD6DB351D
    ensures KeyC(key, 4) == 0x332ABFC && KeyD(key, 4) == 0x599E3D5
  {
    hide KeyC, KeyD;
    Advance(key, 1, 0xF0CCAAF, 0x556678F);
    Advance(key, 2, 0xE19955F, 0xAACCF1E);
    Advance(key, 3, 0xC332ABF, 0x5599E3D);
    Advance(key, 4, 0x0CCAAFF, 0x56678F5);
  }

  lemma SecondSubkeys(key: bv64)
    requires KeyC(key, 4) == 0x332ABFC && KeyD(key, 4) == 0x599E3D5
    ensures KS(5, key) == 0x7CEC07EB53A8 && KS(6, key) == 0x63A53E507B2F && KS(7, key) == 0xEC84B7F618BC && KS(8, key) == 0xF78A3AC13BFB
    ensures KeyC(key, 8) == 0x2ABFC33 && KeyD(key, 8) == 0x9E3D559
  {
    hide KeyC, KeyD;
    Advance(key, 5, 0x332ABFC, 0x599E3D5);
    Advance(key, 6, 0xCCAAFF0, 0x6678F55);
    Advance(key, 7, 0x32ABFC3, 0x99E3D55);
    Advance(key, 8, 0xCAAFF0C, 0x678F556);
  }

  lemma ThirdSubkeys(key: bv64)
    requires KeyC(key, 8) == 0x2ABFC33 && KeyD(key, 8) == 0x9E3D559
    ensures KS(9, key) == 0xE0DBEBEDE781 && KS(10, key) == 0xB1F347BA464F && KS(11, key) == 0x215FD3DED386 && KS(12, key) == 0x7571F59467E9
    ensures KeyC(key, 12) == 0x5FE1995 && KeyD(key, 12) == 0x1EAACCF
  {
    hide KeyC, KeyD;
    Advance(key, 9, 0x2ABFC33, 0x9E3D559);
    Advance(key, 10, 0x557F866, 0x3C7AAB3);
    Advance(key, 11, 0x55FE199, 0xF1EAACC);
    Advance(key, 12, 0x57F8665, 0xC7AAB33);
  }

  lemma LastSubkeys(key: bv64)
    requires KeyC(key, 12) == 0x5FE1995 && KeyD(key, 12) == 0x1EAACCF
    ensures KS(13, key) == 0x97C5D1FABA41 && KS(14, key) == 0x5F43B7F2E73A && KS(15, key) == 0xBF918D3D3F0A && KS(16, key) == 0xCB3D8B0E17F5
    ensures KeyC(key, 16) == 0xF0CCAAF && KeyD(key, 16) == 0x556678F
  {
    hide KeyC, KeyD;
    Advance(key, 13, 0x5FE1995, 0x1EAACCF);
    Advance(key, 14, 0x7F86655, 0x7AAB33C);
    Advance(key, 15, 0xFE19955, 0xEAACCF1);
    Advance(key, 16, 0xF866557, 0xAAB33C7);
  }

  lemma FirstRounds()
    ensures Rounds(F, FirstKeys(), Halves(0xCC00CCFF, 0xF0AAF0AA)) == Halves(0xA25C0BF4, 0x77220045)
  {
    hide F;
    FirstValues();
  }

  lemma FirstValues()
    ensures F(0xF0AAF0AA, 0x1B02EFFC7072) == 0x234AA9BB
    ensures F(0xEF4A6544, 0x79AED9DBC9E5) == 0x3CAB87A3
    ensures F(0xCC017709, 0x55FC8A42CF99) == 0x4D166EB0
    ensures F(0xA25C0BF4, 0x72ADD6DB351D) == 0xBB23774C
  {
  }

  lemma SecondRounds()
    ensures Rounds(F, SecondKeys(), Halves(0xA25C0BF4, 0x77220045)) == Halves(0x064ABA10, 0xD5694B90)
  {
    hide F;
    SecondValues();
  }

  lemma SecondValues()
    ensures F(0x77220045, 0x7CEC07EB53A8) == 0x2813ADC3
    ensures F(0x8A4FA637, 0x63A53E507B2F) == 0x9E45CD2C
    ensures F(0xE967CD69, 0xEC84B7F618BC) == 0x8C051C27
    ensures F(0x064ABA10, 0xF78A3AC13BFB) == 0x3C0E86F9
  {
  }

  lemma ThirdRounds()
    ensures Rounds(F, ThirdKeys(), Halves(0x064ABA10, 0xD5694B90)) == Halves(0xC5783C78, 0x75BD1858)
  {
    hide F;
    ThirdValues();
  }

  lemma ThirdValues()
    ensures F(0xD5694B90, 0xE0DBEBEDE781) == 0x22367C6A
    ensures F(0x247CC67A, 0xB1F347BA464F) == 0x62BC9C22
    ensures F(0xB7D5D7B2, 0x215FD3DED386) == 0xE104FA02
    ensures F(0xC5783C78, 0x7571F59467E9) == 0xC268CFEA
  {
  }

  lemma LastRounds()
    ensures Rounds(F, LastKeys(), Halves(0xC5783C78, 0x75BD1858)) == Halves(0x43423234, 0x0A4CD995)
  {
    hide F;
    LastValues();
  }

  lemma LastValues()
    ensures F(0x75BD1858, 0x97C5D1FABA41) == 0xDDBB2922
    ensures F(0x18C3155A, 0x5F43B7F2E73A) == 0xB7318E55
    ensures F(0xC28C960D, 0xBF918D3D3F0A) == 0x5B81276E
    ensures F(0x43423234, 0xCB3D8B0E17F5) == 0xC8C04F98
  {
  }

  lemma AllSubkeys(key: bv64)
    requires key == 0x133457799BBCDFF1
    ensures Schedule(key) == FirstKeys() + SecondKeys() + ThirdKeys() + LastKeys()
  {
    hide KS, KeyC, KeyD;
    Register(key);
    FirstSubkeys(key);
    SecondSubkeys(key);
    ThirdSubkeys(key);
    LastSubkeys(key);
  }

  lemma AllRounds()
    ensures Rounds(F, FirstKeys() + SecondKeys() + ThirdKeys() + LastKeys(), Halves(0xCC00CCFF, 0xF0AAF0AA)) == Halves(0x43423234, 0x0A4CD995)
  {
    hide F, Rounds, FirstKeys, SecondKeys, ThirdKeys, LastKeys;
    FirstRounds();
    SecondRounds();
    ThirdRounds();
    LastRounds();
    RoundsConcat(F, FirstKeys() + SecondKeys() + ThirdKeys(), LastKeys(), Halves(0xCC00CCFF, 0xF0AAF0AA));
    RoundsConcat(F, FirstKeys() + SecondKeys(), ThirdKeys(), Halves(0xCC00CCFF, 0xF0AAF0AA));
    RoundsConcat(F, FirstKeys(), SecondKeys(), Halves(0xCC00CCFF, 0xF0AAF0AA));
  }

  lemma KnownAnswer()
    ensures Encipher(0x133457799BBCDFF1, 0x0123456789ABCDEF) == 0x85E813540F0AB405
  {
    hide Rounds, Schedule, FirstKeys, SecondKeys, ThirdKeys, LastKeys;
    AllSubkeys(0x133457799BBCDFF1);
    AllRounds();
  }

  lemma KeyBlock(s: seq<bv8>)
    requires s == [0x13, 0x34, 0x57, 0x79, 0x9B, 0xBC, 0xDF, 0xF1]
    ensures BlockAt(s, 0) == 0x133457799BBCDFF1
  {
  }

  lemma PlainBlock(s: seq<bv8>)
    requires s == [0x01, 0x23, 0x45, 0x67, 0x89, 0xAB, 0xCD, 0xEF]
    ensures BlockAt(s, 0) == 0x0123456789ABCDEF
  {
  }

  lemma SecretBlock(s: seq<bv8>)
    requires s == [0x85, 0xE8, 0x13, 0x54, 0x0F, 0x0A, 0xB4, 0x05]
    ensures BlockAt(s, 0) == 0x85E813540F0AB405
  {
  }

  // The same for the bytes: of a context set up for the key, des_encrypt makes the ciphertext of the
  // plaintext, and des_decrypt the plaintext of the ciphertext.
  lemma KnownBytes(key: seq<bv8>, plain: seq<bv8>, secret: seq<bv8>, esk: seq<bv32>, dsk: seq<bv32>)
    requires key == [0x13, 0x34, 0x57, 0x79, 0x9B, 0xBC, 0xDF, 0xF1]
    requires plain == [0x01, 0x23, 0x45, 0x67, 0x89, 0xAB, 0xCD, 0xEF]
    requires secret == [0x85, 0xE8, 0x13, 0x54, 0x0F, 0x0A, 0xB4, 0x05]
    requires esk == WordsOf(Schedule(BlockAt(key, 0))) && dsk == WordsOf(Reverse(Schedule(BlockAt(key, 0))))
    ensures BytesOf(Cipher(KeysOf(esk), BlockAt(plain, 0))) == secret
    ensures BytesOf(Cipher(KeysOf(dsk), BlockAt(secret, 0))) == plain
  {
    hide Cipher, Encipher, Schedule, KeysOf, WordsOf, BlockAt, BytesOf;
    KeyBlock(key);
    PlainBlock(plain);
    SecretBlock(secret);
    ContextIsFips(esk, dsk, BlockAt(key, 0), BlockAt(plain, 0));
    KnownAnswer();
    BytesBlock(secret);
    BytesBlock(plain);
  }
}
