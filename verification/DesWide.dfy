// The DES code computed in 64-bit words, as on a machine whose unsigned long is that wide: the same
// macros and loops, with bytes out that are those of the standard.
module DesWide {
  import opened Des
  import opened Des3
  import opened DesTables
  import opened DesTheorems
  import opened DesWords
  import opened Feistel
  import opened Fips46
  import opened Pairs

  function Low(x: bv64): bv32 { (x & 0xFFFFFFFF) as bv32 }

  function Wide(x: bv32): bv64 { x as bv64 }

  // No bit above the 32nd is set.
  predicate Small(x: bv64) { x <= 0xFFFFFFFF }

  function Lows(w: seq<bv64>): (v: seq<bv32>)
    ensures |v| == |w| && forall i :: 0 <= i < |w| ==> v[i] == Low(w[i])
  {
    seq(|w|, i requires 0 <= i < |w| => Low(w[i]))
  }

  lemma WideLow(x: bv64)
    requires Small(x)
    ensures Wide(Low(x)) == x
  {
  }

  lemma LowWide(x: bv32)
    ensures Low(Wide(x)) == x && Small(Wide(x))
  {
  }

  lemma LowXor(a: bv64, b: bv64)
    ensures Low(Xor64(a, b)) == Xor(Low(a), Low(b))
  {
  }

  lemma SmallXor(a: bv64, b: bv64)
    requires Small(a) && Small(b)
    ensures Small(Xor64(a, b))
  {
  }

  // The subscripts a round takes from its index word, which may carry bits above the 32nd.
  function At0(t: bv64): bv6 { (t & 0x3F) as bv6 }
  function At8(t: bv64): bv6 { ((t >> 8) & 0x3F) as bv6 }
  function At16(t: bv64): bv6 { ((t >> 16) & 0x3F) as bv6 }
  function At24(t: bv64): bv6 { ((t >> 24) & 0x3F) as bv6 }

  lemma Subscripts(t: bv64)
    ensures At0(t) == Sub0(Low(t)) && At8(t) == Sub8(Low(t)) && At16(t) == Sub16(Low(t)) && At24(t) == Sub24(Low(t))
  {
  }

  function Turn4(x: bv64): bv64 { (x << 28) | (x >> 4) }

  lemma LowTurn(x: bv32)
    ensures Low(Turn4(Wide(x))) == RotR4(x)
  {
  }

  // Four table entries added up.
  function Sum64(a: bv32, b: bv32, c: bv32, d: bv32): bv64 { Wide(a) ^ Wide(b) ^ Wide(c) ^ Wide(d) }

  lemma LowSum(a: bv32, b: bv32, c: bv32, d: bv32)
    ensures Low(Sum64(a, b, c, d)) == Sum(a, b, c, d) && Small(Sum64(a, b, c, d))
  {
  }

  // The round macro in 64-bit words.
  method WideRound(sk: array<bv64>, k: nat, x: bv64, y0: bv64) returns (k': nat, y: bv64)
    requires k + 2 <= sk.Length && Small(x) && Small(y0)
    ensures k' == k + 2 && Small(y)
    ensures RotR1(Low(y)) == Xor(RotR1(Low(y0)), F(RotR1(Low(x)), Unpack(Low(sk[k]), Low(sk[k + 1]))))
  {
    hide *;
    var t := Xor64(sk[k], x);
    var a := Sum64(SB8(At0(t)), SB6(At8(t)), SB4(At16(t)), SB2(At24(t)));
    y := Xor64(y0, a);
    var u := Xor64(sk[k + 1], Turn4(x));
    var b := Sum64(SB7(At0(u)), SB5(At8(u)), SB3(At16(u)), SB1(At24(u)));
    ghost var y1 := y;
    y := Xor64(y, b);
    k' := k + 2;
    LowXor(sk[k], x);
    LowXor(sk[k + 1], Turn4(x));
    WideLow(x);
    LowTurn(Low(x));
    Subscripts(t);
    Subscripts(u);
    LowSum(SB8(At0(t)), SB6(At8(t)), SB4(At16(t)), SB2(At24(t)));
    LowSum(SB7(At0(u)), SB5(At8(u)), SB3(At16(u)), SB1(At24(u)));
    LowXor(y0, a);
    SmallXor(y0, a);
    LowXor(y1, b);
    SmallXor(y1, b);
    RoundIsF(Low(x), Low(sk[k]), Low(sk[k + 1]), Low(t), Low(u));
    AddSums(Low(y0), F(RotR1(Low(x)), Unpack(Low(sk[k]), Low(sk[k + 1]))), Low(a), Low(b));
  }

  // The standard's halves that the words stand for.
  function HalvesOf(x: bv64, y: bv64): Halves { Unrotated(Low(x), Low(y)) }

  lemma AfterTwo(w: seq<bv32>, k0: nat, h: Halves)
    requires k0 + 4 <= |w|
    ensures After(w, k0, k0 + 4, h) == Round(F, Round(F, h, Unpack(w[k0], w[k0 + 1])), Unpack(w[k0 + 2], w[k0 + 3]))
  {
    hide F, Unpack, Rounds, Round;
    var ks := KeysOf(w[k0..k0 + 4]);
    assert ks == [Unpack(w[k0], w[k0 + 1]), Unpack(w[k0 + 2], w[k0 + 3])];
    RoundsOfTwo(F, ks[0], ks[1], h);
  }

  method WideTwoRounds(sk: array<bv64>, k0: nat, x0: bv64, y0: bv64) returns (k: nat, x: bv64, y: bv64)
    requires k0 + 4 <= sk.Length && Small(x0) && Small(y0)
    ensures k == k0 + 4 && Small(x) && Small(y)
    ensures HalvesOf(x, y) == After(Lows(sk[..]), k0, k, HalvesOf(x0, y0))
  {
    hide F, Unpack, RotR1, Xor, Low, Small, After, Lows;
    k, x := WideRound(sk, k0, y0, x0);
    k, y := WideRound(sk, k, x, y0);
    ghost var w := Lows(sk[..]);
    assert w[k0] == Low(sk[k0]) && w[k0 + 1] == Low(sk[k0 + 1]) && w[k0 + 2] == Low(sk[k0 + 2]) && w[k0 + 3] == Low(sk[k0 + 3]);
    AfterTwo(w, k0, HalvesOf(x0, y0));
  }

  method WideSixteenRounds(sk: array<bv64>, k0: nat, x0: bv64, y0: bv64) returns (k: nat, x: bv64, y: bv64)
    requires k0 + 32 <= sk.Length && Small(x0) && Small(y0)
    ensures k == k0 + 32 && Small(x) && Small(y)
    ensures HalvesOf(x, y) == After(Lows(sk[..]), k0, k, HalvesOf(x0, y0))
  {
    hide After, HalvesOf, Low, Small;
    ghost var h, w := HalvesOf(x0, y0), Lows(sk[..]);
    k, x, y := WideTwoRounds(sk, k0, x0, y0);
    k, x, y := WideTwoRounds(sk, k, x, y);  AfterConcat(w, k0, k - 4, k, h);
    k, x, y := WideTwoRounds(sk, k, x, y);  AfterConcat(w, k0, k - 4, k, h);
    k, x, y := WideTwoRounds(sk, k, x, y);  AfterConcat(w, k0, k - 4, k, h);
    k, x, y := WideTwoRounds(sk, k, x, y);  AfterConcat(w, k0, k - 4, k, h);
    k, x, y := WideTwoRounds(sk, k, x, y);  AfterConcat(w, k0, k - 4, k, h);
    k, x, y := WideTwoRounds(sk, k, x, y);  AfterConcat(w, k0, k - 4, k, h);
    k, x, y := WideTwoRounds(sk, k, x, y);  AfterConcat(w, k0, k - 4, k, h);
  }

  // The initial permutation macro; the result holds X above Y.
  function WideIp(x0: bv64, y0: bv64): bv128
  {
    var t := ((x0 >> 4) ^ y0) & 0x0F0F0F0F; var y := y0 ^ t; var x := x0 ^ (t << 4);
    var t := ((x >> 16) ^ y) & 0x0000FFFF; var y := y ^ t; var x := x ^ (t << 16);
    var t := ((y >> 2) ^ x) & 0x33333333; var x := x ^ t; var y := y ^ (t << 2);
    var t := ((y >> 8) ^ x) & 0x00FF00FF; var x := x ^ t; var y := y ^ (t << 8);
    var y := ((y << 1) | (y >> 31)) & 0xFFFFFFFF;
    var t := (x ^ y) & 0xAAAAAAAA; var y := y ^ t; var x := x ^ t;
    var x := ((x << 1) | (x >> 31)) & 0xFFFFFFFF;
    Above(x, y)
  }

  // The final permutation macro.
  function WideFp(x0: bv64, y0: bv64): bv128
  {
    var x := ((x0 << 31) | (x0 >> 1)) & 0xFFFFFFFF;
    var t := (x ^ y0) & 0xAAAAAAAA; var x := x ^ t; var y := y0 ^ t;
    var y := ((y << 31) | (y >> 1)) & 0xFFFFFFFF;
    var t := ((y >> 8) ^ x) & 0x00FF00FF; var x := x ^ t; var y := y ^ (t << 8);
    var t := ((y >> 2) ^ x) & 0x33333333; var x := x ^ t; var y := y ^ (t << 2);
    var t := ((x >> 16) ^ y) & 0x0000FFFF; var y := y ^ t; var x := x ^ (t << 16);
    var t := ((x >> 4) ^ y) & 0x0F0F0F0F; var y := y ^ t; var x := x ^ (t << 4);
    Above(x, y)
  }

  function Above(x: bv64, y: bv64): bv128 { ((x as bv128) << 64) | (y as bv128) }
  function Upper(w: bv128): bv64 { (w >> 64) as bv64 }
  function Lower(w: bv128): bv64 { (w & 0xFFFFFFFFFFFFFFFF) as bv64 }

  // Two words of 32 bits as two of 64.
  function Spread(b: bv64): bv128 { (((b >> 32) as bv128) << 64) | ((b & 0xFFFFFFFF) as bv128) }

  lemma SpreadParts(b: bv64)
    ensures Upper(Spread(b)) == Wide(Hi(b)) && Lower(Spread(b)) == Wide(Lo(b))
  {
  }

  lemma WideIpBits(x: bv32, y: bv32)
    ensures WideIp(x as bv64, y as bv64) == Spread(DesIp(x, y))
  {
  }

  lemma WideFpBits(x: bv32, y: bv32)
    ensures WideFp(x as bv64, y as bv64) == Spread(DesFp(x, y))
  {
  }

  // The macros on small words leave small words, those of the 32-bit macros.
  lemma IpSpreads(x: bv32, y: bv32)
    ensures Upper(WideIp(Wide(x), Wide(y))) == Wide(Hi(DesIp(x, y)))
    ensures Lower(WideIp(Wide(x), Wide(y))) == Wide(Lo(DesIp(x, y)))
  {
    hide WideIp, DesIp, Spread, Upper, Lower, Hi, Lo;
    WideIpBits(x, y);
    SpreadParts(DesIp(x, y));
  }

  lemma FpSpreads(x: bv32, y: bv32)
    ensures Upper(WideFp(Wide(x), Wide(y))) == Wide(Hi(DesFp(x, y)))
    ensures Lower(WideFp(Wide(x), Wide(y))) == Wide(Lo(DesFp(x, y)))
  {
    hide WideFp, DesFp, Spread, Upper, Lower, Hi, Lo;
    WideFpBits(x, y);
    SpreadParts(DesFp(x, y));
  }

  lemma WideWord(b0: bv8, b1: bv8, b2: bv8, b3: bv8)
    ensures var n := ((b0 as bv64) << 24) | ((b1 as bv64) << 16) | ((b2 as bv64) << 8) | (b3 as bv64);
      Small(n) && Low(n) == Word(b0, b1, b2, b3)
  {
  }

  method WideGet(b: array<bv8>, i: nat) returns (n: bv64)
    requires i + 4 <= b.Length
    ensures Small(n) && Low(n) == Word(b[i], b[i + 1], b[i + 2], b[i + 3])
  {
    n := ((b[i] as bv64) << 24) | ((b[i + 1] as bv64) << 16) | ((b[i + 2] as bv64) << 8) | (b[i + 3] as bv64);
    WideWord(b[i], b[i + 1], b[i + 2], b[i + 3]);
  }

  // Byte i of a word, the cast cutting off what is above.
  function Cut(n: bv64, i: nat): bv8
    requires i < 4
  {
    if i == 0 then ((n >> 24) & 0xFF) as bv8
    else if i == 1 then ((n >> 16) & 0xFF) as bv8
    else if i == 2 then ((n >> 8) & 0xFF) as bv8
    else (n & 0xFF) as bv8
  }

  lemma CutLow(n: bv64)
    ensures Cut(n, 0) == ByteOf(Low(n), 0) && Cut(n, 1) == ByteOf(Low(n), 1)
    ensures Cut(n, 2) == ByteOf(Low(n), 2) && Cut(n, 3) == ByteOf(Low(n), 3)
  {
  }

  method WidePut(n: bv64, b: array<bv8>, i: nat)
    requires i + 4 <= b.Length
    modifies b
    ensures forall j :: 0 <= j < 4 ==> b[i + j] == ByteOf(Low(n), j)
    ensures forall j :: 0 <= j < b.Length && !(i <= j < i + 4) ==> b[j] == old(b[j])
  {
    hide Cut, ByteOf, Low;
    CutLow(n);
    b[i] := Cut(n, 0);
    b[i + 1] := Cut(n, 1);
    b[i + 2] := Cut(n, 2);
    b[i + 3] := Cut(n, 3);
  }

  method WidePutBlock(x: bv64, y: bv64, b: array<bv8>, i: nat)
    requires i + 8 <= b.Length
    modifies b
    ensures b[i..i + 8] == BytesOf(Join(Low(x), Low(y)))
    ensures forall j :: 0 <= j < b.Length && !(i <= j < i + 8) ==> b[j] == old(b[j])
  {
    hide ByteOf, Hi, Lo, Join, Low;
    WidePut(x, b, i);
    WidePut(y, b, i + 4);
    PutBytes(b[..], i, Low(x), Low(y));
  }

  lemma LowsPart(w: seq<bv64>, i: nat, j: nat)
    requires i <= j <= |w|
    ensures Lows(w)[i..j] == Lows(w[i..j])
  {
    hide Low;
  }

  // des_crypt in 64-bit words.
  method WideCrypt(sk: array<bv64>, k0: nat, input: array<bv8>, i: nat, output: array<bv8>, o: nat)
    requires k0 + 32 <= sk.Length && i + 8 <= input.Length && o + 8 <= output.Length
    modifies output
    ensures output[o..o + 8] == BytesOf(Cipher(KeysOf(Lows(sk[k0..k0 + 32])), old(BlockAt(input[..], i))))
    ensures forall j :: 0 <= j < output.Length && !(o <= j < o + 8) ==> output[j] == old(output[j])
  {
    hide IP, FP, Join, Hi, Lo, Word, ByteOf, BytesOf, DesIp, DesFp, F, Rounds, KeysOf, Low, Small, Lows, Wide, WideIp, WideFp, Upper, Lower, RotR1;
    var x := WideGet(input, i);
    var y := WideGet(input, i + 4);
    ghost var x0, y0 := Low(x), Low(y);
    WideLow(x);
    WideLow(y);
    var w := WideIp(x, y);
    IpSpreads(x0, y0);
    IpSplits(x0, y0);
    x, y := Upper(w), Lower(w);
    LowWide(Hi(DesIp(x0, y0)));
    LowWide(Lo(DesIp(x0, y0)));
    var k;
    k, x, y := WideSixteenRounds(sk, k0, x, y);
    ghost var x1, y1 := Low(x), Low(y);
    WideLow(x);
    WideLow(y);
    w := WideFp(y, x);
    FpSpreads(y1, x1);
    FpMerges(x1, y1);
    y, x := Upper(w), Lower(w);
    LowWide(Hi(DesFp(y1, x1)));
    LowWide(Lo(DesFp(y1, x1)));
    JoinSplit(DesFp(y1, x1));
    LowsPart(sk[..], k0, k);
    assert sk[..][k0..k] == sk[k0..k0 + 32];
    WidePutBlock(y, x, output, o);
  }

  // des3_crypt in 64-bit words.
  method Wide3Crypt(sk: array<bv64>, input: array<bv8>, i: nat, output: array<bv8>, o: nat)
    requires sk.Length == 96 && i + 8 <= input.Length && o + 8 <= output.Length
    modifies output
    ensures var w := Lows(sk[..]);
      output[o..o + 8] == BytesOf(Cipher3(KeysOf(w[..32]), KeysOf(w[32..64]), KeysOf(w[64..]), old(BlockAt(input[..], i))))
    ensures forall j :: 0 <= j < output.Length && !(o <= j < o + 8) ==> output[j] == old(output[j])
  {
    hide IP, FP, Join, Hi, Lo, Word, ByteOf, BytesOf, DesIp, DesFp, F, Rounds, Cipher3, KeysOf, Low, Small, Lows, Wide, WideIp, WideFp,
         Upper, Lower, RotR1;
    var x := WideGet(input, i);
    var y := WideGet(input, i + 4);
    ghost var x0, y0 := Low(x), Low(y);
    WideLow(x);
    WideLow(y);
    var v := WideIp(x, y);
    IpSpreads(x0, y0);
    IpSplits(x0, y0);
    x, y := Upper(v), Lower(v);
    LowWide(Hi(DesIp(x0, y0)));
    LowWide(Lo(DesIp(x0, y0)));
    var k;
    k, x, y := WideSixteenRounds(sk, 0, x, y);
    k, y, x := WideSixteenRounds(sk, k, y, x);
    k, x, y := WideSixteenRounds(sk, k, x, y);
    ghost var x1, y1 := Low(x), Low(y);
    WideLow(x);
    WideLow(y);
    v := WideFp(y, x);
    FpSpreads(y1, x1);
    FpMerges(x1, y1);
    y, x := Upper(v), Lower(v);
    LowWide(Hi(DesFp(y1, x1)));
    LowWide(Lo(DesFp(y1, x1)));
    JoinSplit(DesFp(y1, x1));
    ghost var w := Lows(sk[..]);
    assert w[0..32] == w[..32] && w[64..96] == w[64..];
    FusedRounds(KeysOf(w[..32]), KeysOf(w[32..64]), KeysOf(w[64..]), Join(x0, y0));
    WidePutBlock(y, x, output, o);
  }

  // The two swaps that open permuted choice 1, in both widths; X above Y.
  function SwapX(x0: bv32, y0: bv32): bv32
  {
    var t := ((y0 >> 4) ^ x0) & 0x0F0F0F0F; var x := x0 ^ t; var y := y0 ^ (t << 4);
    x ^ ((y ^ x) & 0x10101010)
  }

  function SwapY(x0: bv32, y0: bv32): bv32
  {
    var t := ((y0 >> 4) ^ x0) & 0x0F0F0F0F; var x := x0 ^ t; var y := y0 ^ (t << 4);
    y ^ ((y ^ x) & 0x10101010)
  }

  function Swaps(x: bv32, y: bv32): bv64 { Join(SwapX(x, y), SwapY(x, y)) }

  function WideSwaps(x0: bv64, y0: bv64): bv128
  {
    var t := ((y0 >> 4) ^ x0) & 0x0F0F0F0F; var x := x0 ^ t; var y := y0 ^ (t << 4);
    var t := (y ^ x) & 0x10101010; var x := x ^ t; var y := y ^ t;
    Above(x, y)
  }

  lemma WideSwapsBits(x: bv32, y: bv32)
    ensures WideSwaps(x as bv64, y as bv64) == Spread(Swaps(x, y))
  {
  }

  lemma SwapsSpread(x: bv32, y: bv32)
    ensures Upper(WideSwaps(Wide(x), Wide(y))) == Wide(Hi(Swaps(x, y)))
    ensures Lower(WideSwaps(Wide(x), Wide(y))) == Wide(Lo(Swaps(x, y)))
  {
    hide WideSwaps, Swaps, Spread, Upper, Lower, Hi, Lo;
    WideSwapsBits(x, y);
    SpreadParts(Swaps(x, y));
  }

  lemma SwapsLeft(x: bv32, y: bv32)
    ensures WiresLeft(SwapX(x, y)) == Pad(PC1C(Join(x, y)))
  {
    hide WiresLeft, PC1C, Join, Pad;
    var t1 := ((y >> 4) ^ x) & 0x0F0F0F0F;
    var x1, y1 := x ^ t1, y ^ (t1 << 4);
    var t2 := (y1 ^ x1) & 0x10101010;
    WiresLeftIsPC1(x, y, t1, x1, y1, t2, x1 ^ t2);
  }

  lemma SwapsRight(x: bv32, y: bv32)
    ensures WiresRight(SwapY(x, y)) == Pad(PC1D(Join(x, y)))
  {
    hide WiresRight, PC1D, Join, Pad;
    var t1 := ((y >> 4) ^ x) & 0x0F0F0F0F;
    var x1, y1 := x ^ t1, y ^ (t1 << 4);
    var t2 := (y1 ^ x1) & 0x10101010;
    WiresRightIsPC1(x, y, t1, x1, y1, t2, y1 ^ t2);
  }

  lemma SwapsChoose(x: bv32, y: bv32)
    ensures Pc1Left(Hi(Swaps(x, y))) == Pad(PC1C(Join(x, y)))
    ensures Pc1Right(Lo(Swaps(x, y))) == Pad(PC1D(Join(x, y)))
  {
    hide SwapX, SwapY, Pc1Left, Pc1Right, WiresLeft, WiresRight, Hi, Lo, Join, Pad, PC1C, PC1D;
    SplitJoin(SwapX(x, y), SwapY(x, y));
    SwapsLeft(x, y);
    SwapsRight(x, y);
    Pc1LeftWires(SwapX(x, y));
    Pc1RightWires(SwapY(x, y));
  }

  // The table lookups of permuted choice 1.
  function WidePc1Left(x: bv64): bv64 {
    (((LHs((x & 0xF) as bv4) as bv64) << 3) | ((LHs(((x >> 8) & 0xF) as bv4) as bv64) << 2) | ((LHs(((x >> 16) & 0xF) as bv4) as bv64) << 1) | (LHs(((x >> 24) & 0xF) as bv4) as bv64) |
     ((LHs(((x >> 5) & 0xF) as bv4) as bv64) << 7) | ((LHs(((x >> 13) & 0xF) as bv4) as bv64) << 6) | ((LHs(((x >> 21) & 0xF) as bv4) as bv64) << 5) | ((LHs(((x >> 29) & 0xF) as bv4) as bv64) << 4)) & 0x0FFFFFFF
  }

  function WidePc1Right(y: bv64): bv64 {
    (((RHs(((y >> 1) & 0xF) as bv4) as bv64) << 3) | ((RHs(((y >> 9) & 0xF) as bv4) as bv64) << 2) | ((RHs(((y >> 17) & 0xF) as bv4) as bv64) << 1) | (RHs(((y >> 25) & 0xF) as bv4) as bv64) |
     ((RHs(((y >> 4) & 0xF) as bv4) as bv64) << 7) | ((RHs(((y >> 12) & 0xF) as bv4) as bv64) << 6) | ((RHs(((y >> 20) & 0xF) as bv4) as bv64) << 5) | ((RHs(((y >> 28) & 0xF) as bv4) as bv64) << 4)) & 0x0FFFFFFF
  }

  lemma WidePc1LeftBits(x: bv32)
    ensures WidePc1Left(x as bv64) == (Pc1Left(x) as bv64)
  {
    hide LHs;
  }

  lemma WidePc1RightBits(y: bv32)
    ensures WidePc1Right(y as bv64) == (Pc1Right(y) as bv64)
  {
    hide RHs;
  }

  lemma WidePc1(x: bv32, y: bv32)
    ensures WidePc1Left(Wide(x)) == Wide(Pc1Left(x)) && WidePc1Right(Wide(y)) == Wide(Pc1Right(y))
  {
    hide WidePc1Left, WidePc1Right, Pc1Left, Pc1Right;
    WidePc1LeftBits(x);
    WidePc1RightBits(y);
  }

  // The two words of the key register after permuted choice 1.
  method WidePermutedChoice1(key: array<bv8>, o: nat) returns (x: bv64, y: bv64)
    requires o + 8 <= key.Length
    ensures x == Wide(Pad(PC1C(BlockAt(key[..], o))))
    ensures y == Wide(Pad(PC1D(BlockAt(key[..], o))))
  {
    hide Pad, Word, Join, PC1C, PC1D, Pc1Left, Pc1Right, Low, Small, Wide, WideSwaps, Upper, Lower, Hi, Lo, Swaps, WidePc1Left, WidePc1Right;
    x := WideGet(key, o);
    y := WideGet(key, o + 4);
    ghost var x0, y0 := Low(x), Low(y);
    WideLow(x);
    WideLow(y);
    var v := WideSwaps(x, y);
    SwapsSpread(x0, y0);
    SwapsChoose(x0, y0);
    x, y := WidePc1Left(Upper(v)), WidePc1Right(Lower(v));
    WidePc1(Hi(Swaps(x0, y0)), Lo(Swaps(x0, y0)));
  }

  function WideRotate1(x: bv64): bv64 { ((x << 1) | (x >> 27)) & 0x0FFFFFFF }

  function WideRotate2(x: bv64): bv64 { ((x << 2) | (x >> 26)) & 0x0FFFFFFF }

  // A word that holds 28 bits.
  predicate Holds28(x: bv32) { x <= 0x0FFFFFFF }

  lemma WideRotate1Bits(x: bv32)
    requires Holds28(x)
    ensures WideRotate1(x as bv64) == (Rotate1(x) as bv64)
  {
  }

  lemma WideRotate2Bits(x: bv32)
    requires Holds28(x)
    ensures WideRotate2(x as bv64) == (Rotate2(x) as bv64)
  {
  }

  lemma PadSmall(c: bv28)
    ensures Holds28(Pad(c))
  {
  }

  lemma WideRotate(x: bv32)
    requires Holds28(x)
    ensures WideRotate1(Wide(x)) == Wide(Rotate1(x)) && WideRotate2(Wide(x)) == Wide(Rotate2(x))
  {
    hide Holds28, WideRotate1, WideRotate2, Rotate1, Rotate2;
    WideRotate1Bits(x);
    WideRotate2Bits(x);
  }

  lemma WideRotations(c: bv28)
    ensures WideRotate1(Wide(Pad(c))) == Wide(Rotate1(Pad(c)))
    ensures WideRotate2(Wide(Pad(c))) == Wide(Rotate2(Pad(c)))
  {
    hide *;
    PadSmall(c);
    WideRotate(Pad(c));
  }

  // The two masked assemblies of a subkey.
  function WideSubkeyEven(x: bv64, y: bv64): bv64 {
    ((x << 4) & 0x24000000) | ((x << 28) & 0x10000000) | ((x << 14) & 0x08000000) | ((x << 18) & 0x02080000) |
    ((x << 6) & 0x01000000) | ((x << 9) & 0x00200000) | ((x >> 1) & 0x00100000) | ((x << 10) & 0x00040000) |
    ((x << 2) & 0x00020000) | ((x >> 10) & 0x00010000) | ((y >> 13) & 0x00002000) | ((y >> 4) & 0x00001000) |
    ((y << 6) & 0x00000800) | ((y >> 1) & 0x00000400) | ((y >> 14) & 0x00000200) | (y & 0x00000100) |
    ((y >> 5) & 0x00000020) | ((y >> 10) & 0x00000010) | ((y >> 3) & 0x00000008) | ((y >> 18) & 0x00000004) |
    ((y >> 26) & 0x00000002) | ((y >> 24) & 0x00000001)
  }

  function WideSubkeyOdd(x: bv64, y: bv64): bv64 {
    ((x << 15) & 0x20000000) | ((x << 17) & 0x10000000) | ((x << 10) & 0x08000000) | ((x << 22) & 0x04000000) |
    ((x >> 2) & 0x02000000) | ((x << 1) & 0x01000000) | ((x << 16) & 0x00200000) | ((x << 11) & 0x00100000) |
    ((x << 3) & 0x00080000) | ((x >> 6) & 0x00040000) | ((x << 15) & 0x00020000) | ((x >> 4) & 0x00010000) |
    ((y >> 2) & 0x00002000) | ((y << 8) & 0x00001000) | ((y >> 14) & 0x00000808) | ((y >> 9) & 0x00000400) |
    (y & 0x00000200) | ((y << 7) & 0x00000100) | ((y >> 7) & 0x00000020) | ((y >> 3) & 0x00000011) |
    ((y << 2) & 0x00000004) | ((y >> 21) & 0x00000002)
  }

  lemma WideEvenBits(x: bv32, y: bv32)
    requires Holds28(x) && Holds28(y)
    ensures WideSubkeyEven(x as bv64, y as bv64) == (SubkeyEven(x, y) as bv64)
  {
  }

  lemma WideOddBits(x: bv32, y: bv32)
    requires Holds28(x) && Holds28(y)
    ensures WideSubkeyOdd(x as bv64, y as bv64) == (SubkeyOdd(x, y) as bv64)
  {
  }

  lemma WideAssemblies(x: bv32, y: bv32)
    requires Holds28(x) && Holds28(y)
    ensures WideSubkeyEven(Wide(x), Wide(y)) == Wide(SubkeyEven(x, y)) && WideSubkeyOdd(Wide(x), Wide(y)) == Wide(SubkeyOdd(x, y))
  {
    hide Holds28, WideSubkeyEven, WideSubkeyOdd, SubkeyEven, SubkeyOdd;
    WideEvenBits(x, y);
    WideOddBits(x, y);
  }

  lemma WideSubkeys(c: bv28, d: bv28)
    ensures WideSubkeyEven(Wide(Pad(c)), Wide(Pad(d))) == Wide(SubkeyEven(Pad(c), Pad(d)))
    ensures WideSubkeyOdd(Wide(Pad(c)), Wide(Pad(d))) == Wide(SubkeyOdd(Pad(c), Pad(d)))
  {
    hide *;
    PadSmall(c);
    PadSmall(d);
    WideAssemblies(Pad(c), Pad(d));
  }

  // One pass of the schedule's loop.
  method WideNextSubkey(i: nat, x0: bv64, y0: bv64, ghost key: bv64) returns (x: bv64, y: bv64, even: bv64, odd: bv64)
    requires i < 16
    requires x0 == Wide(Pad(KeyC(key, i))) && y0 == Wide(Pad(KeyD(key, i)))
    ensures x == Wide(Pad(KeyC(key, i + 1))) && y == Wide(Pad(KeyD(key, i + 1)))
    ensures even == Wide(PackEven(KS(i + 1, key))) && odd == Wide(PackOdd(KS(i + 1, key)))
  {
    hide Pad, PC1C, PC1D, PC2, PackEven, PackOdd, SubkeyEven, SubkeyOdd, RotateLeft, Rotate1, Rotate2,
         Wide, WideRotate1, WideRotate2, WideSubkeyEven, WideSubkeyOdd;
    RotateMacro(KeyC(key, i));
    RotateMacro(KeyD(key, i));
    WideRotations(KeyC(key, i));
    WideRotations(KeyD(key, i));
    if i < 2 || i == 8 || i == 15 {
      x := WideRotate1(x0);
      y := WideRotate1(y0);
    } else {
      x := WideRotate2(x0);
      y := WideRotate2(y0);
    }
    Pc2Macro(KeyC(key, i + 1), KeyD(key, i + 1));
    WideSubkeys(KeyC(key, i + 1), KeyD(key, i + 1));
    even := WideSubkeyEven(x, y);
    odd := WideSubkeyOdd(x, y);
  }

  function Wides(w: seq<bv32>): (v: seq<bv64>)
    ensures |v| == |w| && forall i :: 0 <= i < |w| ==> v[i] == Wide(w[i])
  {
    seq(|w|, i requires 0 <= i < |w| => Wide(w[i]))
  }

  lemma LowsWides(w: seq<bv32>)
    ensures Lows(Wides(w)) == w
  {
    hide Low, Wide;
    forall i | 0 <= i < |w|
      ensures Low(Wide(w[i])) == w[i]
    {
      LowWide(w[i]);
    }
  }

  lemma WidesAppend(ks: seq<bv48>, k: bv48)
    ensures Wides(WordsOf(ks + [k])) == Wides(WordsOf(ks)) + [Wide(PackEven(k)), Wide(PackOdd(k))]
  {
    hide PackEven, PackOdd, WordsOf, Wide;
    WordsOfAppend(ks, k);
  }

  lemma WidesReversed(ks: seq<bv48>)
    ensures PairReverse(Wides(WordsOf(ks))) == Wides(WordsOf(Reverse(ks)))
  {
    hide WordsOf, Wide, PairReverse;
    ReversedWords(ks);
    ReverseWides(WordsOf(ks));
  }

  lemma ReverseWides(w: seq<bv32>)
    requires |w| % 2 == 0
    ensures PairReverse(Wides(w)) == Wides(PairReverse(w))
  {
    hide Wide;
  }

  // des_main_ks in 64-bit words: every subkey word is that of the 32-bit schedule, with no bit above.
  method WideMainKs(sk: array<bv64>, k0: nat, key: array<bv8>, o: nat)
    requires k0 + 32 <= sk.Length && o + 8 <= key.Length
    modifies sk
    ensures sk[..] == old(sk[..k0]) + Wides(WordsOf(Schedule(BlockAt(key[..], o)))) + old(sk[k0 + 32..])
  {
    hide Pad, BlockAt, PC1C, PC1D, PackEven, PackOdd, KS, WordsOf, Wide, Wides, KeyC, KeyD, Filled, Schedule;
    var x, y := WidePermutedChoice1(key, o);
    ghost var k64 := BlockAt(key[..], o);
    KeyStart(k64);
    ghost var ks := Schedule(k64);
    var k := k0;
    NothingStored(sk[..], k0, Wides(WordsOf(ks[..0])));
    for i := 0 to 16
      invariant k == k0 + 2 * i
      invariant x == Wide(Pad(KeyC(k64, i))) && y == Wide(Pad(KeyD(k64, i)))
      invariant Filled(old(sk[..]), sk[..], k0, k, Wides(WordsOf(ks[..i])))
    {
      var even, odd;
      x, y, even, odd := WideNextSubkey(i, x, y, k64);
      ScheduleAt(k64, i);
      WidesAppend(ks[..i], ks[i]);
      assert ks[..i + 1] == ks[..i] + [ks[i]];
      PairStored(old(sk[..]), sk[..], k0, k, Wides(WordsOf(ks[..i])), even, odd);
      PutPair(sk, k, even, odd);
      k := k + 2;
    }
    assert ks[..16] == ks;
    FilledIs(old(sk[..]), sk[..], k0, k, Wides(WordsOf(ks)));
  }

  lemma KeyStart(key: bv64)
    ensures KeyC(key, 0) == PC1C(key) && KeyD(key, 0) == PC1D(key)
  {
    hide PC1C, PC1D;
  }

  // des_set_key in 64-bit words.
  method WideSetKey(esk: array<bv64>, dsk: array<bv64>, key: array<bv8>, o: nat)
    requires esk.Length == 32 && dsk.Length == 32 && esk != dsk && o + 8 <= key.Length
    modifies esk, dsk
    ensures var ks := Schedule(BlockAt(key[..], o));
      esk[..] == Wides(WordsOf(ks)) && dsk[..] == Wides(WordsOf(Reverse(ks)))
  {
    hide BlockAt, WordsOf, Schedule, Wides, PairReverse;
    WideMainKs(esk, 0, key, o);
    CopyReversed(esk, dsk);
    WidesReversed(Schedule(BlockAt(key[..], o)));
  }

  // Key setup and one block either way, all in 64-bit words, are those of FIPS 46-3.
  method WideIsFips(key: array<bv8>, k: nat, input: array<bv8>, i: nat, locked: array<bv8>, s: nat, cleared: array<bv8>, o: nat)
    requires k + 8 <= key.Length && i + 8 <= input.Length && s + 8 <= locked.Length && o + 8 <= cleared.Length
    requires locked != cleared && input != locked && key != locked
    modifies locked, cleared
    ensures locked[s..s + 8] == BytesOf(Encipher(old(BlockAt(key[..], k)), old(BlockAt(input[..], i))))
    ensures cleared[o..o + 8] == BytesOf(Decipher(old(BlockAt(key[..], k)), old(BlockAt(input[..], i))))
  {
    hide BlockAt, WordsOf, Schedule, Wides, Lows, Cipher, KeysOf, BytesOf, Encipher, Decipher;
    var esk, dsk := new bv64[32], new bv64[32];
    WideSetKey(esk, dsk, key, k);
    ghost var key0, block := BlockAt(key[..], k), BlockAt(input[..], i);
    LowsWides(WordsOf(Schedule(key0)));
    LowsWides(WordsOf(Reverse(Schedule(key0))));
    ContextIsFips(WordsOf(Schedule(key0)), WordsOf(Reverse(Schedule(key0))), key0, block);
    assert esk[0..32] == esk[..] && dsk[0..32] == dsk[..];
    WideCrypt(esk, 0, input, i, locked, s);
    WideCrypt(dsk, 0, input, i, cleared, o);
  }
}
