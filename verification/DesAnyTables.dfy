// The block function with arbitrary contents of the eight tables: reversing the subkey pairs undoes it
// whatever the tables hold, and with the tables of the code it is the cipher.
module DesAnyTables {
  import opened Des
  import opened DesTables
  import opened DesWords
  import opened Feistel
  import opened Fips46
  import opened Pairs

  // Entry i of table SBn.
  type Tables = (nat, bv6) -> bv32

  // What the round macro adds to one word of the state from the other and two subkey words.
  function Taken(sb: Tables, x: bv32, even: bv32, odd: bv32): bv32 {
    var t, u := Xor(even, x), Xor(odd, RotR4(x));
    Xor(Sum(sb(8, Sub0(t)), sb(6, Sub8(t)), sb(4, Sub16(t)), sb(2, Sub24(t))),
        Sum(sb(7, Sub0(u)), sb(5, Sub8(u)), sb(3, Sub16(u)), sb(1, Sub24(u))))
  }

  // The same as the round function of a Feistel network whose subkeys are two words side by side.
  function RoundBy(sb: Tables): (bv32, bv64) -> bv32 { (x, k) => Taken(sb, x, Hi(k), Lo(k)) }

  // The block function for these tables and subkey words.
  function Crypt(sb: Tables, w: seq<bv32>, block: bv64): bv64
  {
    var h := Rounds(RoundBy(sb), Pairwise(w, Join), Split(DesIp(Hi(block), Lo(block))));
    DesFp(h.r, h.l)
  }

  lemma IpAfterFp(x: bv32, y: bv32)
    ensures DesIp(Hi(DesFp(x, y)), Lo(DesFp(x, y))) == Join(x, y)
  {
  }

  lemma FpAfterIp(x: bv32, y: bv32)
    ensures DesFp(Hi(DesIp(x, y)), Lo(DesIp(x, y))) == Join(x, y)
  {
  }

  // Reversed subkey pairs undo the block function for any tables and any subkey words.
  lemma AnyTablesUndo(sb: Tables, w: seq<bv32>, block: bv64)
    requires |w| % 2 == 0
    ensures Crypt(sb, PairReverse(w), Crypt(sb, w, block)) == block
  {
    hide RoundBy, Pairwise, PairReverse, Rounds, DesIp, DesFp, Hi, Lo, Join, Reverse;
    var ks, h0 := Pairwise(w, Join), Split(DesIp(Hi(block), Lo(block)));
    var h := Rounds(RoundBy(sb), ks, h0);
    IpAfterFp(h.r, h.l);
    SplitJoin(h.r, h.l);
    PairwiseReverse(w, Join);
    RoundsUndo(RoundBy(sb), ks, h0);
    FpAfterIp(Hi(block), Lo(block));
    JoinSplit(block);
  }

  // The tables of the code.
  function Standard(n: nat, i: bv6): bv32 {
    match n
    case 1 => SB1(i)
    case 2 => SB2(i)
    case 3 => SB3(i)
    case 4 => SB4(i)
    case 5 => SB5(i)
    case 6 => SB6(i)
    case 7 => SB7(i)
    case _ => SB8(i)
  }

  lemma TakenIsF(x: bv32, even: bv32, odd: bv32, y: bv32)
    ensures RotR1(Xor(y, Taken(Standard, x, even, odd))) == Xor(RotR1(y), F(RotR1(x), Unpack(even, odd)))
  {
    TakenUnfold(x, even, odd);
    hide *;
    RoundIsF(x, even, odd, Xor(even, x), Xor(odd, RotR4(x)));
    AddSum(y, F(RotR1(x), Unpack(even, odd)), Taken(Standard, x, even, odd));
  }

  lemma TakenUnfold(x: bv32, even: bv32, odd: bv32)
    ensures var t, u := Xor(even, x), Xor(odd, RotR4(x));
      Taken(Standard, x, even, odd)
      == Xor(Sum(SB8(Sub0(t)), SB6(Sub8(t)), SB4(Sub16(t)), SB2(Sub24(t))),
             Sum(SB7(Sub0(u)), SB5(Sub8(u)), SB3(Sub16(u)), SB1(Sub24(u))))
  {
    hide Xor, RotR4, Sum, Sub0, Sub8, Sub16, Sub24, SB1, SB2, SB3, SB4, SB5, SB6, SB7, SB8;
  }

  lemma AddSum(y: bv32, f: bv32, a: bv32)
    requires RotL1(f) == a
    ensures RotR1(Xor(y, a)) == Xor(RotR1(y), f)
  {
  }

  // Rounds on the code's rotated words are rounds of the standard on the halves they stand for.
  lemma {:induction false} RoundsUnrotated(w: seq<bv32>, h: Halves)
    requires |w| % 2 == 0
    ensures var r := Rounds(RoundBy(Standard), Pairwise(w, Join), h);
      Unrotated(r.l, r.r) == Rounds(F, KeysOf(w), Unrotated(h.l, h.r))
    decreases |w|
  {
    hide F, Unpack, RotR1, Xor, Taken, Hi, Lo, Join;
    if w != [] {
      var ks, fs := Pairwise(w, Join), KeysOf(w);
      assert ks[1..] == Pairwise(w[2..], Join) && fs[1..] == KeysOf(w[2..]);
      var g := Round(RoundBy(Standard), h, ks[0]);
      SplitJoin(w[0], w[1]);
      TakenIsF(h.r, w[0], w[1], h.l);
      assert Unrotated(g.l, g.r) == Round(F, Unrotated(h.l, h.r), fs[0]);
      RoundsUnrotated(w[2..], g);
    }
  }

  // With them it is the cipher of the standard.
  lemma StandardIsCipher(w: seq<bv32>, block: bv64)
    requires |w| % 2 == 0
    ensures Crypt(Standard, w, block) == Cipher(KeysOf(w), block)
  {
    hide F, Unpack, RotR1, Join, Hi, Lo, DesIp, DesFp, IP, FP, Rounds, Pairwise, RoundBy;
    var v := DesIp(Hi(block), Lo(block));
    IpSplits(Hi(block), Lo(block));
    JoinSplit(block);
    RoundsUnrotated(w, Split(v));
    var h := Rounds(RoundBy(Standard), Pairwise(w, Join), Split(v));
    FpMerges(h.l, h.r);
  }
}
