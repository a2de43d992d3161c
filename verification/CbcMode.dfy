// Cipher block chaining, as in section 6.2 of NIST SP 800-38A, over any block type T, block
// functions e and d, and addition x.
module CbcMode {
  // CBC encryption of blocks ps under block function e.
  function Encrypted<T>(e: T -> T, x: (T, T) -> T, iv: T, ps: seq<T>): (cs: seq<T>)
    ensures |cs| == |ps|
    decreases |ps|
  {
    if ps == [] then []
    else
      var c := e(x(ps[0], iv));
      [c] + Encrypted(e, x, c, ps[1..])
  }

  // CBC decryption of blocks cs under block function d.
  function Decrypted<T>(d: T -> T, x: (T, T) -> T, iv: T, cs: seq<T>): (ps: seq<T>)
    ensures |ps| == |cs|
    decreases |cs|
  {
    if cs == [] then []
    else [x(d(cs[0]), iv)] + Decrypted(d, x, cs[0], cs[1..])
  }

  // The chaining value after the blocks cs.
  function Chain<T>(iv: T, cs: seq<T>): T { if cs == [] then iv else cs[|cs| - 1] }

  // Decrypting with the original chaining value restores the plaintext.
  lemma {:induction false} DecryptEncrypt<T(!new)>(e: T -> T, d: T -> T, x: (T, T) -> T, iv: T, ps: seq<T>)
    requires forall b :: d(e(b)) == b
    requires forall a, b :: x(x(a, b), b) == a
    ensures Decrypted(d, x, iv, Encrypted(e, x, iv, ps)) == ps
    decreases |ps|
  {
    if ps != [] {
      var c := e(x(ps[0], iv));
      DecryptEncrypt(e, d, x, c, ps[1..]);
      assert Encrypted(e, x, iv, ps)[1..] == Encrypted(e, x, c, ps[1..]);
    }
  }

  lemma {:induction false} EncryptDecrypt<T(!new)>(e: T -> T, d: T -> T, x: (T, T) -> T, iv: T, cs: seq<T>)
    requires forall b :: e(d(b)) == b
    requires forall a, b :: x(x(a, b), b) == a
    ensures Encrypted(e, x, iv, Decrypted(d, x, iv, cs)) == cs
    decreases |cs|
  {
    if cs != [] {
      EncryptDecrypt(e, d, x, cs[0], cs[1..]);
      assert Decrypted(d, x, iv, cs)[1..] == Decrypted(d, x, cs[0], cs[1..]);
    }
  }

  // One call over a + b equals a call over a followed by a call over b from the chaining value left behind.
  lemma {:induction false} EncryptedConcat<T>(e: T -> T, x: (T, T) -> T, iv: T, a: seq<T>, b: seq<T>)
    ensures var ca := Encrypted(e, x, iv, a);
      Encrypted(e, x, iv, a + b) == ca + Encrypted(e, x, Chain(iv, ca), b)
    decreases |a|
  {
    if a == [] {
      assert a + b == b;
    } else {
      var c := e(x(a[0], iv));
      assert (a + b)[1..] == a[1..] + b;
      EncryptedConcat(e, x, c, a[1..], b);
    }
  }

  lemma {:induction false} DecryptedConcat<T>(d: T -> T, x: (T, T) -> T, iv: T, a: seq<T>, b: seq<T>)
    ensures Decrypted(d, x, iv, a + b) == Decrypted(d, x, iv, a) + Decrypted(d, x, Chain(iv, a), b)
    decreases |a|
  {
    if a == [] {
      assert a + b == b;
    } else {
      assert (a + b)[1..] == a[1..] + b;
      DecryptedConcat(d, x, a[0], a[1..], b);
    }
  }

  lemma {:induction false} EncryptedAt<T>(e: T -> T, x: (T, T) -> T, iv: T, ps: seq<T>, j: nat)
    requires j < |ps|
    ensures var cs := Encrypted(e, x, iv, ps);
      cs[j] == e(x(ps[j], Chain(iv, cs[..j])))
    decreases |ps|
  {
    if j > 0 {
      var c := e(x(ps[0], iv));
      EncryptedAt(e, x, c, ps[1..], j - 1);
      var cs := Encrypted(e, x, iv, ps);
      assert cs[..j][1..] == cs[1..][..j - 1];
    }
  }

  lemma {:induction false} DecryptedAt<T>(d: T -> T, x: (T, T) -> T, iv: T, cs: seq<T>, j: nat)
    requires j < |cs|
    ensures Decrypted(d, x, iv, cs)[j] == x(d(cs[j]), Chain(iv, cs[..j]))
    decreases |cs|
  {
    if j > 0 {
      DecryptedAt(d, x, cs[0], cs[1..], j - 1);
      assert cs[..j][1..] == cs[1..][..j - 1];
    }
  }
}
