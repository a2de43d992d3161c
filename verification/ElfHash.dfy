// The hash of a symbol name, in the 32-bit words of the i386 build and in 64-bit words.
module ElfHash {
  // An unsigned character, promoted.
  type uchar = c: bv32 | c < 0x100

  type Name = seq<uchar>

  function Sum(x: bv32, c: uchar): bv32 { x + c }
  function Add(h: bv32, c: uchar): bv32 { Sum(h << 4, c) }
  function Top(s: bv32): bv32 { s & 0xF000_0000 }
  function Mix(s: bv32, g: bv32): bv32 { s ^ (g >> 24) }
  function Clear(s: bv32, g: bv32): bv32 { s & !g }

  // One character.
  function Step(h: bv32, c: uchar): bv32
  {
    Clipped(Add(h, c))
  }

  function Clipped(s: bv32): bv32
  {
    var g := Top(s);
    Clear(if g != 0 then Mix(s, g) else s, g)
  }

  function Hash(name: Name): bv32
  {
    if name == [] then 0 else Step(Hash(name[..|name| - 1]), name[|name| - 1])
  }

  lemma StepBelow(h: bv32, c: uchar)
    ensures Step(h, c) < 0x1000_0000
  {
  }

  // No bit above the low 28 is ever set, however long the name.
  lemma HashBelow(name: Name)
    ensures Hash(name) < 0x1000_0000
  {
    if name != [] {
      StepBelow(Hash(name[..|name| - 1]), name[|name| - 1]);
    }
  }

  // One character in arithmetic: sixteen times the hash and the character, of which what lies above 28
  // bits is folded back four bits up.
  lemma StepPlain(h: bv32, c: uchar)
    ensures Step(h, c) == Folded(Next(h, c))
  {
    hide Add, Next, Clipped, Folded;
    NextIs(h, c);
    ClippedFolds(Add(h, c));
  }

  function Next(h: bv32, c: uchar): bv32 { Sum(16 * h, c) }
  function Folded(x: bv32): bv32 { Both(Low28(x), High4(x)) }
  function Low28(x: bv32): bv32 { x % 0x1000_0000 }
  function High4(x: bv32): bv32 { 16 * (x / 0x1000_0000) }
  function Both(x: bv32, y: bv32): bv32 { x ^ y }

  function LowBits(x: bv32): bv32 { x & 0xFFF_FFFF }
  function HighBits(x: bv32): bv32 { (x >> 28) << 4 }

  lemma NextIs(h: bv32, c: uchar)
    ensures Next(h, c) == Add(h, c)
  {
    hide Sum;
    SixteenTimes(h);
  }

  lemma SixteenTimes(h: bv32)
    ensures 16 * h == h << 4
  {
  }

  lemma ClippedFolds(s: bv32)
    ensures Clipped(s) == Folded(s)
  {
    hide Clipped, Low28, High4, LowBits, HighBits, Both;
    LowIs(s);
    HighIs(s);
    ClippedIs(s);
  }

  lemma LowIs(x: bv32)
    ensures Low28(x) == LowBits(x)
  {
  }

  lemma HighIs(x: bv32)
    ensures High4(x) == HighBits(x)
  {
  }

  lemma ClippedIs(s: bv32)
    ensures Clipped(s) == Both(LowBits(s), HighBits(s))
  {
    hide Top, Mix, Clear, LowBits, HighBits, Both;
    if Top(s) == 0 {
      FoldsNone(s);
    } else {
      Folds(s);
    }
  }

  lemma FoldsNone(s: bv32)
    requires Top(s) == 0
    ensures Clear(s, Top(s)) == Both(LowBits(s), HighBits(s))
  {
  }

  lemma Folds(s: bv32)
    ensures Clear(Mix(s, Top(s)), Top(s)) == Both(LowBits(s), HighBits(s))
  {
  }

  // The hash of syscall, whose last character folds.
  lemma HashOfSyscall()
    ensures Hash([0x73, 0x79, 0x73, 0x63, 0x61, 0x6C, 0x6C]) == 0x0B09985C
  {
    var name: Name := [0x73, 0x79, 0x73, 0x63, 0x61, 0x6C, 0x6C];
    assert name[..6] == [0x73, 0x79, 0x73, 0x63, 0x61, 0x6C];
    assert name[..6][..5] == [0x73, 0x79, 0x73, 0x63, 0x61];
    assert name[..6][..5][..4] == [0x73, 0x79, 0x73, 0x63];
    assert name[..6][..5][..4][..3] == [0x73, 0x79, 0x73];
    assert name[..6][..5][..4][..3][..2] == [0x73, 0x79];
    assert name[..6][..5][..4][..3][..2][..1] == [0x73];
    assert Hash([0x73]) == 0x73;
    assert Hash([0x73, 0x79]) == 0x7A9;
    assert Hash([0x73, 0x79, 0x73]) == 0x7B03;
    assert Hash([0x73, 0x79, 0x73, 0x63]) == 0x7B093;
    assert Hash([0x73, 0x79, 0x73, 0x63, 0x61]) == 0x7B0991;
    assert Hash(name[..6]) == 0x7B0997C;
  }

  method HashName(name: Name) returns (h: bv32)
    ensures h == Hash(name)
  {
    hide Add, Top, Mix, Clear;
    h := 0;
    var p := 0;
    while p < |name|
      invariant p <= |name| && h == Hash(name[..p])
    {
      h := Add(h, name[p]);
      var g := Top(h);
      if g != 0 {
        h := Mix(h, g);
      }
      h := Clear(h, g);
      assert name[..p + 1][..p] == name[..p];
      p := p + 1;
    }
    assert name[..p] == name;
  }

  // The same code where unsigned long has 64 bits.
  function Add64(h: bv64, c: uchar): bv64 { (h << 4) + (c as bv64) }
  function Top64(s: bv64): bv64 { s & 0xF000_0000 }
  function Mix64(s: bv64, g: bv64): bv64 { s ^ (g >> 24) }
  function Clear64(s: bv64, g: bv64): bv64 { s & !g }

  function Step64(h: bv64, c: uchar): bv64
  {
    var s := Add64(h, c);
    var g := Top64(s);
    Clear64(if g != 0 then Mix64(s, g) else s, g)
  }

  function Hash64(name: Name): bv64
  {
    if name == [] then 0 else Step64(Hash64(name[..|name| - 1]), name[|name| - 1])
  }

  // A 64-bit word from its halves.
  function Join(high: bv32, low: bv32): bv64
  {
    ((high as bv64) << 32) | (low as bv64)
  }

  // Whether the addition of a character overflows 32 bits.
  predicate Overflows(h: bv32, c: uchar)
  {
    (h << 4) + c < c
  }

  function Bit(b: bool): bv32 { if b then 1 else 0 }

  function Shift4(h: bv32): bv32 { h << 4 }

  function Or(a: bv32, b: bv32): bv32 { a | b }

  lemma AddHalves(high: bv32, low: bv32, c: uchar)
    requires low < 0x1000_0000
    ensures Add64(Join(high, low), c) == Join(Or(Shift4(high), Bit(Overflows(low, c))), Add(low, c))
  {
    if Overflows(low, c) {
      AddCarry(high, low, c);
    } else {
      AddNoCarry(high, low, c);
    }
  }

  lemma AddCarry(high: bv32, low: bv32, c: bv32)
    requires low < 0x1000_0000 && c < 0x100 && (low << 4) + c < c
    ensures ((((high as bv64) << 32) | (low as bv64)) << 4) + (c as bv64) == ((((high << 4) | 1) as bv64) << 32) | (((low << 4) + c) as bv64)
  {
  }

  lemma AddNoCarry(high: bv32, low: bv32, c: bv32)
    requires low < 0x1000_0000 && c < 0x100 && !((low << 4) + c < c)
    ensures ((((high as bv64) << 32) | (low as bv64)) << 4) + (c as bv64) == ((((high << 4) | 0) as bv64) << 32) | (((low << 4) + c) as bv64)
  {
  }

  lemma TopHalves(high: bv32, low: bv32)
    ensures Top64(Join(high, low)) == Join(0, Top(low))
  {
  }

  lemma MixHalves(high: bv32, low: bv32, g: bv32)
    ensures Mix64(Join(high, low), Join(0, g)) == Join(high, Mix(low, g))
  {
  }

  lemma ClearHalves(high: bv32, low: bv32, g: bv32)
    ensures Clear64(Join(high, low), Join(0, g)) == Join(high, Clear(low, g))
  {
  }

  lemma JoinZero(g: bv32)
    ensures Join(0, g) == 0 <==> g == 0
  {
  }

  lemma StepHalves(high: bv32, low: bv32, c: uchar)
    requires low < 0x1000_0000
    ensures Step64(Join(high, low), c) == Join(Or(Shift4(high), Bit(Overflows(low, c))), Step(low, c))
  {
    var s := Add(low, c);
    var up := Or(Shift4(high), Bit(Overflows(low, c)));
    AddHalves(high, low, c);
    TopHalves(up, s);
    JoinZero(Top(s));
    MixHalves(up, s, Top(s));
    ClearHalves(up, Mix(s, Top(s)), Top(s));
    ClearHalves(up, s, Top(s));
    hide Add, Add64, Top, Top64, Mix, Mix64, Clear, Clear64, Join, Or, Shift4, Bit, Overflows;
  }

  // What a 64-bit word holds above the 32-bit hash.
  function High(name: Name): bv32
  {
    if name == [] then 0 else Or(Shift4(High(name[..|name| - 1])), Bit(Carry(name)))
  }

  // The last character's addition overflows.
  predicate Carry(name: Name)
    requires name != []
  {
    Overflows(Hash(name[..|name| - 1]), name[|name| - 1])
  }

  lemma {:induction false} HashHalves(name: Name)
    ensures Hash64(name) == Join(High(name), Hash(name))
    decreases |name|
  {
    if name == [] {
      assert Join(0, 0) == 0;
    } else {
      var r, c := name[..|name| - 1], name[|name| - 1];
      hide Step, Step64, Join, Or, Shift4, Bit, Overflows;
      HashHalves(r);
      HashBelow(r);
      StepHalves(High(r), Hash(r), c);
    }
  }

  lemma JoinLow(high: bv32, low: bv32)
    ensures Join(high, low) == Join(0, low) <==> high == 0
  {
  }

  // The low k hexadecimal digits.
  function Digits(x: bv32, k: nat): bv32
    requires k <= 8
  {
    match k
    case 0 => 0
    case 1 => x & 0xF
    case 2 => x & 0xFF
    case 3 => x & 0xFFF
    case 4 => x & 0xFFFF
    case 5 => x & 0xF_FFFF
    case 6 => x & 0xFF_FFFF
    case 7 => x & 0xFFF_FFFF
    case _ => x
  }

  lemma DigitsShift(x: bv32, b: bool, k: nat)
    requires k < 8
    ensures Digits(Or(Shift4(x), Bit(b)), k + 1) == 0 <==> !b && Digits(x, k) == 0
  {
    match k
    case 0 =>
    case 1 =>
    case 2 =>
    case 3 =>
    case 4 =>
    case 5 =>
    case 6 =>
    case _ =>
  }

  predicate NoCarryInLast(name: Name, k: nat)
  {
    forall n :: |name| - k < n <= |name| && n > 0 ==> !Carry(name[..n])
  }

  lemma {:induction false} LastCarries(name: Name, k: nat)
    requires k <= 8
    ensures Digits(High(name), k) == 0 <==> NoCarryInLast(name, k)
    decreases k
  {
    if name == [] {
      hide Digits;
      NoDigits(k);
    } else if k > 0 {
      var r := name[..|name| - 1];
      LastCarries(r, k - 1);
      DigitsShift(High(r), Carry(name), k - 1);
      hide Digits, Carry, Or, Shift4, Bit;
      assert name[..|name|] == name;
      assert forall n :: 0 < n <= |r| ==> r[..n] == name[..n];
    }
  }

  lemma NoDigits(k: nat)
    requires k <= 8
    ensures Digits(0, k) == 0
  {
  }

  lemma AllDigits(x: bv32)
    ensures Digits(x, 8) == x
  {
  }

  // The 64-bit hash is the 32-bit one exactly if no addition of the last eight characters overflowed
  // 32 bits.
  lemma WideHashAgrees(name: Name)
    ensures Hash64(name) == Join(0, Hash(name)) <==> NoCarryInLast(name, 8)
  {
    HashHalves(name);
    JoinLow(High(name), Hash(name));
    LastCarries(name, 8);
    AllDigits(High(name));
    hide Digits, Hash, Hash64, Join, High, NoCarryInLast;
  }

  // A name for which it is not: its 64-bit hash has bit 32 set.
  lemma WideHashDiffers()
    ensures var name: Name := [0xFF, 0x0F, 0x0F, 0x0F, 0x0F, 0x0F, 0x12];
      Hash(name) == 2 && Hash64(name) == 0x1_0000_0002
  {
    var name: Name := [0xFF, 0x0F, 0x0F, 0x0F, 0x0F, 0x0F, 0x12];
    assert name[..6] == [0xFF, 0x0F, 0x0F, 0x0F, 0x0F, 0x0F];
    assert name[..6][..5] == [0xFF, 0x0F, 0x0F, 0x0F, 0x0F];
    assert name[..6][..5][..4] == [0xFF, 0x0F, 0x0F, 0x0F];
    assert name[..6][..5][..4][..3] == [0xFF, 0x0F, 0x0F];
    assert name[..6][..5][..4][..3][..2] == [0xFF, 0x0F];
    assert name[..6][..5][..4][..3][..2][..1] == [0xFF];
    assert Hash([0xFF]) == 0xFF && Hash64([0xFF]) == 0xFF;
    assert Hash([0xFF, 0x0F]) == 0xFFF && Hash64([0xFF, 0x0F]) == 0xFFF;
    assert Hash([0xFF, 0x0F, 0x0F]) == 0xFFFF && Hash64([0xFF, 0x0F, 0x0F]) == 0xFFFF;
    assert Hash([0xFF, 0x0F, 0x0F, 0x0F]) == 0xF_FFFF && Hash64([0xFF, 0x0F, 0x0F, 0x0F]) == 0xF_FFFF;
    assert Hash([0xFF, 0x0F, 0x0F, 0x0F, 0x0F]) == 0xFF_FFFF && Hash64([0xFF, 0x0F, 0x0F, 0x0F, 0x0F]) == 0xFF_FFFF;
    assert Hash(name[..6]) == 0xFFF_FFFF && Hash64(name[..6]) == 0xFFF_FFFF;
  }
}
