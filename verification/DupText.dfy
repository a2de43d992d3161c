// The text field's sealing: zero-padded blocks under Triple DES, written in hexadecimal behind a
// fixed prefix.
module DupText {
  import opened Cbc
  import opened CbcTheorems
  import opened Des
  import opened Des3
  import opened DesTheorems
  import opened DesWords
  import opened Feistel
  import opened Fips46
  import opened Pairs

  // The fixed prefix of every result.
  function Tpl(): string { "3DES_2_000000000000000000000000000000_" }

  lemma TplIs()
    ensures |Tpl()| == 38 && Tpl()[..7] == "3DES_2_" && Tpl()[37] == '_' && forall k :: 7 <= k < 37 ==> Tpl()[k] == '0'
  {
  }

  // Bytes of a C string up to its terminator.
  function CString(s: seq<bv8>): (t: seq<bv8>)
    ensures |t| <= |s| && t == s[..|t|]
    ensures forall j :: 0 <= j < |t| ==> t[j] != 0
    ensures |t| < |s| ==> s[|t|] == 0
  {
    if s == [] || s[0] == 0 then [] else [s[0]] + CString(s[1..])
  }

  // The first block of a text, zero-padded.
  function FirstBlock(p: seq<bv8>): (b: seq<bv8>)
    ensures |b| == 8
  {
    seq(8, j requires 0 <= j < 8 => if j < |p| then p[j] else 0)
  }

  function Rest(p: seq<bv8>): seq<bv8> { if |p| <= 8 then [] else p[8..] }

  // A text zero-padded to whole blocks.
  function Padded(p: seq<bv8>): seq<bv8>
    decreases |p|
  {
    if p == [] then [] else FirstBlock(p) + Padded(Rest(p))
  }

  // Block by block under e.
  function Sealed(e: bv64 -> bv64, p: seq<bv8>): (s: seq<bv8>)
    ensures |s| == (|p| + 7) / 8 * 8
    decreases |p|
  {
    if p == [] then [] else BytesOf(e(BlockAt(FirstBlock(p), 0))) + Sealed(e, Rest(p))
  }

  // Block by block under d, on whole blocks.
  function Opened(d: bv64 -> bv64, s: seq<bv8>): seq<bv8>
    decreases |s|
  {
    if |s| < 8 then [] else BytesOf(d(BlockAt(s, 0))) + Opened(d, s[8..])
  }

  // What the field keeps of a text: at most ten blocks.
  function Kept(p: seq<bv8>): seq<bv8> { if |p| <= 80 then p else p[..80] }

  // Hexadecimal digits, upper case.
  function Digit(n: bv8): char
    requires n < 16
  {
    if n == 0 then '0' else if n == 1 then '1' else if n == 2 then '2' else if n == 3 then '3' else if n == 4
    then '4' else if n == 5 then '5' else if n == 6 then '6' else if n == 7 then '7' else if n == 8 then '8'
    else if n == 9 then '9' else if n == 10 then 'A' else if n == 11 then 'B' else if n == 12 then 'C' else if
    n == 13 then 'D' else if n == 14 then 'E' else 'F'
  }

  function Value(c: char): bv8 {
    if c == '0' then 0 else if c == '1' then 1 else if c == '2' then 2 else if c == '3' then 3 else if c ==
    '4' then 4 else if c == '5' then 5 else if c == '6' then 6 else if c == '7' then 7 else if c == '8' then 8
    else if c == '9' then 9 else if c == 'A' then 10 else if c == 'B' then 11 else if c == 'C' then 12 else if
    c == 'D' then 13 else if c == 'E' then 14 else 15
  }

  lemma ValueDigit(n: bv8)
    requires n < 16
    ensures Value(Digit(n)) == n
  {
  }

  // 0 to 9, and A to F for ten to fifteen.
  lemma DigitIs(n: bv8)
    requires n < 16
    ensures Digit(n) as int == (n as int) + (if n < 10 then '0' as int else 'A' as int - 10)
  {
  }

  // "%02X" of every byte.
  function Hex(s: seq<bv8>): (h: string)
    ensures |h| == 2 * |s|
  {
    if s == [] then [] else [Digit(s[0] >> 4), Digit(s[0] & 0xF)] + Hex(s[1..])
  }

  function Unhex2(hi: char, lo: char): bv8 { (Value(hi) << 4) | (Value(lo) & 0xF) }

  function Unhex(h: string): (s: seq<bv8>)
    ensures |s| == |h| / 2
  {
    if |h| < 2 then [] else [Unhex2(h[0], h[1])] + Unhex(h[2..])
  }

  lemma UnhexByte(b: bv8)
    ensures Unhex2(Digit(b >> 4), Digit(b & 0xF)) == b
  {
    hide Digit, Value;
    ValueDigit(b >> 4);
    ValueDigit(b & 0xF);
    NibblesJoin(b);
  }

  lemma NibblesJoin(b: bv8)
    ensures ((b >> 4) << 4) | ((b & 0xF) & 0xF) == b
  {
  }

  lemma {:induction false} UnhexHex(s: seq<bv8>)
    ensures Unhex(Hex(s)) == s
  {
    hide Digit, Unhex2;
    if s != [] {
      UnhexHex(s[1..]);
      UnhexByte(s[0]);
      assert Hex(s)[2..] == Hex(s[1..]);
    }
  }

  lemma {:induction false} HexAppend(s: seq<bv8>, b: bv8)
    ensures Hex(s + [b]) == Hex(s) + [Digit(b >> 4), Digit(b & 0xF)]
  {
    hide Digit;
    if s == [] {
      assert s + [b] == [b];
    } else {
      HexAppend(s[1..], b);
      assert (s + [b])[1..] == s[1..] + [b];
    }
  }

  lemma {:induction false} OpenedSealed(e: bv64 -> bv64, d: bv64 -> bv64, p: seq<bv8>)
    requires forall b :: d(e(b)) == b
    ensures Opened(d, Sealed(e, p)) == Padded(p)
    decreases |p|
  {
    hide BlockAt, BytesOf;
    if p != [] {
      var b := BlockAt(FirstBlock(p), 0);
      var c := BytesOf(e(b));
      OpenedSealed(e, d, Rest(p));
      var s := Sealed(e, p);
      assert s[..8] == c && s[8..] == Sealed(e, Rest(p));
      BlockAtSlice(s, 0);
      BlockBytes(e(b));
      BytesBlock(FirstBlock(p));
    }
  }

  // The subkey words of encrypting, decrypting and encrypting with three keys in turn.
  function Ede(k1: bv64, k2: bv64, k3: bv64): (w: seq<bv32>)
    ensures |w| == 96
  {
    WordsOf(Schedule(k1)) + WordsOf(Reverse(Schedule(k2))) + WordsOf(Schedule(k3))
  }

  lemma SealedNext(e: bv64 -> bv64, p: seq<bv8>)
    requires p != []
    ensures Sealed(e, p) == BytesOf(e(BlockAt(FirstBlock(p), 0))) + Sealed(e, Rest(p))
  {
    hide BlockAt, BytesOf;
  }

  // The padding loop: eight characters into the input block, zeros once the text has ended.
  method TakeBlock(text: array<bv8>, plain0: nat, input: array<bv8>, ghost n: nat) returns (plain: nat)
    requires plain0 <= n < text.Length && text[n] == 0 && forall j :: 0 <= j < n ==> text[j] != 0
    requires input.Length == 8 && input != text
    modifies input
    ensures plain == if n - plain0 <= 8 then n else plain0 + 8
    ensures input[..] == FirstBlock(text[plain0..n])
  {
    plain := plain0;
    ghost var p := text[plain0..n];
    ghost var b := FirstBlock(p);
    for i := 0 to 8
      invariant plain == if n - plain0 <= i then n else plain0 + i
      invariant forall t :: 0 <= t < i ==> input[t] == b[t]
    {
      assert text[plain] == b[i];
      input[i] := text[plain];
      if text[plain] != 0 {
        plain := plain + 1;
      }
    }
    assert input[..] == b;
  }

  // One block of the loop: encrypt the input block onto the end of what is there.
  method SealBlock(ctx: Des3Context, input: array<bv8>, dOutput: array<bv8>, output: nat, ghost e: bv64 -> bv64)
    requires ctx.Valid() && input.Length == 8 && dOutput != input && output + 8 <= dOutput.Length
    requires |ctx.esk[..]| == 96 && e == CryptOf(ctx.esk[..])
    modifies dOutput
    ensures dOutput[..output + 8] == old(dOutput[..output]) + BytesOf(e(BlockAt(input[..], 0)))
  {
    hide BytesOf, BlockAt, Cipher3, KeysOf;
    ghost var w, b := ctx.esk[..], BlockAt(input[..], 0);
    assert Cipher3(KeysOf(w[..32]), KeysOf(w[32..64]), KeysOf(w[64..]), b) == e(b);
    assert w[..32] == ctx.esk[..32] && w[32..64] == ctx.esk[32..64] && w[64..] == ctx.esk[64..];
    ctx.Encrypt(input, 0, dOutput, output);
    assert dOutput[..output] == old(dOutput[..output]);
    assert dOutput[..output + 8] == dOutput[..output] + dOutput[output..output + 8];
  }

  // What is left of the kept text after the first o characters.
  function Left(p: seq<bv8>, o: nat): seq<bv8> { if |p| <= o then [] else p[o..] }

  lemma LeftSteps(text: seq<bv8>, o: nat)
    requires o < |text| && o < 80 && o % 8 == 0
    ensures var p := Kept(text);
      && Left(p, o) != []
      && FirstBlock(text[o..]) == FirstBlock(Left(p, o))
      && Rest(Left(p, o)) == Left(p, o + 8)
  {
    assert |Kept(text)| == |text| || |Kept(text)| >= o + 8;
  }

  lemma SealedGrows(e: bv64 -> bv64, t: seq<bv8>, o: nat, done: seq<bv8>, whole: seq<bv8>)
    requires o < |t| && o < 80 && o % 8 == 0 && whole == done + Sealed(e, Left(Kept(t), o))
    ensures whole == done + BytesOf(e(BlockAt(FirstBlock(t[o..]), 0))) + Sealed(e, Left(Kept(t), o + 8))
  {
    hide BytesOf, BlockAt, Sealed, Kept, FirstBlock, Left, Rest;
    LeftSteps(t, o);
    SealedNext(e, Left(Kept(t), o));
  }

  // Where the encryption loop stands: the blocks written, and the text still to come, are the whole.
  ghost predicate Sealing(dOutput: seq<bv8>, output: nat, e: bv64 -> bv64, t: seq<bv8>)
  {
    output <= |dOutput| && Sealed(e, Kept(t)) == dOutput[..output] + Sealed(e, Left(Kept(t), output))
  }

  // One pass of it.
  method SealNext(ctx: Des3Context, text: array<bv8>, plain0: nat, input: array<bv8>, dOutput: array<bv8>, output: nat,
                  ghost n: nat, ghost e: bv64 -> bv64) returns (plain: nat)
    requires ctx.Valid() && n < text.Length && text[n] == 0 && forall j :: 0 <= j < n ==> text[j] != 0
    requires input.Length == 8 && dOutput.Length == 80 && dOutput != text && input != text && input != dOutput
    requires |ctx.esk[..]| == 96 && e == CryptOf(ctx.esk[..])
    requires plain0 == output < n && output < 80 && output % 8 == 0 && Sealing(dOutput[..], output, e, text[..n])
    modifies input, dOutput
    ensures output + 8 <= 80 && plain == (if n <= output + 8 then n else output + 8) && Sealing(dOutput[..], output + 8, e, text[..n])
  {
    hide CryptOf, BytesOf, BlockAt, FirstBlock, Sealed, Kept, Left, Rest;
    ghost var t := text[..n];
    SealedGrows(e, t, output, dOutput[..output], Sealed(e, Kept(t)));
    assert dOutput[..][..output] == dOutput[..output];
    assert text[plain0..n] == t[output..];
    plain := TakeBlock(text, plain0, input, n);
    SealBlock(ctx, input, dOutput, output, e);
    assert dOutput[..][..output + 8] == dOutput[..output + 8];
  }

  // The encryption loop of the field: whole blocks into dOutput until the text ends or it is full.
  method SealText(ctx: Des3Context, text: array<bv8>, dOutput: array<bv8>, ghost n: nat, ghost e: bv64 -> bv64) returns (cnt: nat)
    requires ctx.Valid() && n < text.Length && text[n] == 0 && forall j :: 0 <= j < n ==> text[j] != 0
    requires dOutput.Length == 80 && dOutput != text
    requires |ctx.esk[..]| == 96 && e == CryptOf(ctx.esk[..])
    modifies dOutput
    ensures cnt <= 80 && dOutput[..cnt] == Sealed(e, Kept(text[..n]))
  {
    hide CryptOf, Sealed, Kept, Left, Sealing;
    var input := new bv8[8];
    var plain, output := 0, 0;
    ghost var t := text[..n];
    SealingStarts(dOutput[..], e, t);
    while text[plain] != 0 && output < 80
      invariant 0 <= plain <= n && 0 <= output <= 80 && output % 8 == 0
      invariant plain == if n <= output then n else output
      invariant Sealing(dOutput[..], output, e, t)
      decreases 80 - output
    {
      plain := SealNext(ctx, text, plain, input, dOutput, output, n, e);
      output := output + 8;
    }
    SealingEnds(dOutput[..], output, e, t);
    cnt := output;
  }

  lemma SealingStarts(dOutput: seq<bv8>, e: bv64 -> bv64, t: seq<bv8>)
    ensures Sealing(dOutput, 0, e, t)
  {
    hide Sealed, Kept, Left;
    LeftAtStart(Kept(t));
  }

  lemma SealingEnds(dOutput: seq<bv8>, output: nat, e: bv64 -> bv64, t: seq<bv8>)
    requires Sealing(dOutput, output, e, t) && (|t| <= output || output >= 80)
    ensures dOutput[..output] == Sealed(e, Kept(t))
  {
    hide Sealed, Kept, Left;
    LeftAtEnd(t, e, output);
  }

  lemma LeftAtStart(p: seq<bv8>)
    ensures Left(p, 0) == p
  {
  }

  lemma LeftAtEnd(t: seq<bv8>, e: bv64 -> bv64, o: nat)
    requires |t| <= o || o >= 80
    ensures Sealed(e, Left(Kept(t), o)) == []
  {
  }

  // strdup of the prefix.
  method CopyPrefix() returns (cipher: array<char>)
    ensures fresh(cipher) && cipher[..] == Tpl() + ['\0']
  {
    hide Tpl;
    cipher := new char[|Tpl()| + 1];
    for i := 0 to |Tpl()|
      invariant cipher[..i] == Tpl()[..i]
    {
      cipher[i] := Tpl()[i];
    }
    cipher[|Tpl()|] := '\0';
  }

  // sprintf of one byte: two digits and a terminator at p.
  method PrintByte(cipher: array<char>, p: nat, b: bv8)
    requires p + 2 < cipher.Length
    modifies cipher
    ensures cipher[..p + 2] == old(cipher[..p]) + [Digit(b >> 4), Digit(b & 0xF)] && cipher[p + 2] == '\0'
  {
    hide Digit;
    cipher[p] := Digit(b >> 4);
    cipher[p + 1] := Digit(b & 0xF);
    cipher[p + 2] := '\0';
  }

  // strncpy: the prefix, then zeros to the end of the buffer.
  method CopyPadded(cipher: array<char>)
    requires |Tpl()| < cipher.Length
    modifies cipher
    ensures cipher[..|Tpl()|] == Tpl() && cipher[|Tpl()|] == '\0'
  {
    hide Tpl;
    for i := 0 to cipher.Length
      invariant forall j :: 0 <= j < i ==> cipher[j] == if j < |Tpl()| then Tpl()[j] else '\0'
    {
      cipher[i] := if i < |Tpl()| then Tpl()[i] else '\0';
    }
  }

  // The printing loop: the terminator moves two places on with every byte and fills the buffer exactly.
  method PrintHex(d: array<bv8>, cnt: nat) returns (cipher: array<char>)
    requires cnt <= d.Length
    ensures fresh(cipher) && cipher[..] == Tpl() + Hex(d[..cnt]) + ['\0']
  {
    hide Digit, Hex, Tpl;
    var len := cnt * 2 + |Tpl()| + 1;
    cipher := new char[len];
    CopyPadded(cipher);
    var p := |Tpl()|;
    HexNone(d[..0]);
    for i := 0 to cnt
      invariant p == |Tpl()| + 2 * i && cipher[p] == '\0'
      invariant cipher[..p] == Tpl() + Hex(d[..i])
    {
      PrintByte(cipher, p, d[i]);
      HexAppend(d[..i], d[i]);
      assert d[..i + 1] == d[..i] + [d[i]];
      p := p + 2;
    }
    assert cipher[..] == cipher[..p] + ['\0'];
  }

  lemma HexNone(s: seq<bv8>)
    requires s == []
    ensures Hex(s) == []
  {
  }

  // CPlugin::dupText, for the text of the entry field, the configured keys and the outcome of malloc.
  method DupText(text: array?<bv8>, keys: array<bv8>, mallocSucceeds: bool) returns (cipher: array<char>)
    requires text != null ==> |CString(text[..])| < text.Length
    requires keys.Length >= 24
    ensures fresh(cipher)
    ensures
      var t := if text == null then [] else CString(text[..]);
      var e := CryptOf(Ede(BlockAt(keys[..], 0), BlockAt(keys[..], 8), BlockAt(keys[..], 16)));
      cipher[..] == Tpl() + (if t == [] || !mallocSucceeds then "" else Hex(Sealed(e, Kept(t)))) + ['\0']
  {
    hide BlockAt, Hex, Sealed, Kept, CryptOf, WordsOf, Schedule;
    if text != null && text[0] != 0 {
      var ctx := new Des3Context();
      ctx.Set3Keys(keys, 0);
      ghost var k1, k2, k3 := BlockAt(keys[..], 0), BlockAt(keys[..], 8), BlockAt(keys[..], 16);
      ghost var e := CryptOf(Ede(k1, k2, k3));
      var dOutput := new bv8[80];
      var cnt := SealText(ctx, text, dOutput, |CString(text[..])|, e);
      if !mallocSucceeds {
        cipher := CopyPrefix();
        return;
      }
      cipher := PrintHex(dOutput, cnt);
      return;
    }
    cipher := CopyPrefix();
  }

  // Reading the digits back and deciphering them gives the kept text, zero-padded, whatever the 96
  // subkey words; and a text has no zero byte, so the kept text itself is what stands before the first
  // zero.
  lemma SealedTextOpens(t: seq<bv8>, w: seq<bv32>)
    requires |w| == 96 && forall j :: 0 <= j < |t| ==> t[j] != 0
    ensures
      var r := Opened(CryptOf(PairReverse(w)), Unhex(Hex(Sealed(CryptOf(w), Kept(t)))));
      r == Padded(Kept(t)) && CString(r) == Kept(t)
  {
    hide Sealed, Opened, Hex, Unhex, Padded, CryptOf;
    var e, d := CryptOf(w), CryptOf(PairReverse(w));
    UnhexHex(Sealed(e, Kept(t)));
    forall b
      ensures d(e(b)) == b
    {
      CryptUndo(w, b);
    }
    OpenedSealed(e, d, Kept(t));
    CStringPadded(Kept(t));
  }

  lemma {:induction false} CStringPadded(p: seq<bv8>)
    requires forall j :: 0 <= j < |p| ==> p[j] != 0
    ensures CString(Padded(p)) == p
    decreases |p|
  {
    PaddedExtends(p);
    var q := Padded(p);
    var c := CString(q);
    assert forall j :: 0 <= j < |c| ==> c[j] == q[j] && q[j] != 0;
    assert |p| < |q| ==> q[|p|] == 0;
    assert |c| <= |p|;
    assert c == p[..|c|];
  }

  // Padding only adds zeros.
  lemma {:induction false} PaddedExtends(p: seq<bv8>)
    ensures |Padded(p)| >= |p| && Padded(p)[..|p|] == p
    ensures forall j :: 0 <= j < |p| ==> Padded(p)[j] == p[j]
    ensures forall j :: |p| <= j < |Padded(p)| ==> Padded(p)[j] == 0
    decreases |p|
  {
    if p != [] {
      PaddedExtends(Rest(p));
      var b, q := FirstBlock(p), Padded(Rest(p));
      assert Padded(p) == b + q;
      if |p| > 8 {
        assert p == p[..8] + p[8..];
        assert b == p[..8];
      }
    }
  }
}
