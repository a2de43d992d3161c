// Feistel networks over two 32-bit halves, for an arbitrary round function and arbitrary subkeys.
module Feistel {
  datatype Halves = Halves(l: bv32, r: bv32)

  function Xor(a: bv32, b: bv32): bv32 { a ^ b }

  function Not(a: bv32): bv32 { !a }

  function Swap(h: Halves): Halves { Halves(h.r, h.l) }

  function Complement(h: Halves): Halves { Halves(Not(h.l), Not(h.r)) }

  function Round<K>(f: (bv32, K) -> bv32, h: Halves, k: K): Halves
  {
    Halves(h.r, Xor(h.l, f(h.r, k)))
  }

  function Rounds<K>(f: (bv32, K) -> bv32, ks: seq<K>, h: Halves): Halves
    decreases |ks|
  {
    if ks == [] then h else Rounds(f, ks[1..], Round(f, h, ks[0]))
  }

  function Reverse<K>(ks: seq<K>): (r: seq<K>)
    ensures |r| == |ks|
    ensures forall i :: 0 <= i < |r| ==> r[i] == ks[|ks| - 1 - i]
  {
    if ks == [] then [] else Reverse(ks[1..]) + [ks[0]]
  }

  lemma XorTwice(a: bv32, b: bv32)
    ensures Xor(Xor(a, b), b) == a
  {
  }

  lemma NotXor(a: bv32, b: bv32)
    ensures Xor(Not(a), b) == Not(Xor(a, b))
  {
  }

  lemma RoundUndo<K>(f: (bv32, K) -> bv32, h: Halves, k: K)
    ensures Round(f, Swap(Round(f, h, k)), k) == Swap(h)
  {
    hide Xor;
    XorTwice(h.l, f(h.r, k));
  }

  lemma {:induction false} RoundsConcat<K>(f: (bv32, K) -> bv32, a: seq<K>, b: seq<K>, h: Halves)
    ensures Rounds(f, a + b, h) == Rounds(f, b, Rounds(f, a, h))
    decreases |a|
  {
    hide Round;
    if a == [] {
      assert a + b == b;
    } else {
      assert (a + b)[1..] == a[1..] + b;
      RoundsConcat(f, a[1..], b, Round(f, h, a[0]));
    }
  }

  lemma RoundsOfTwo<K>(f: (bv32, K) -> bv32, a: K, b: K, h: Halves)
    ensures Rounds(f, [a, b], h) == Round(f, Round(f, h, a), b)
  {
    hide Round;
    assert [a, b][1..] == [b] && [b][1..] == [];
    assert Rounds(f, [a, b], h) == Rounds(f, [b], Round(f, h, a));
    assert Rounds(f, [b], Round(f, h, a)) == Rounds(f, [], Round(f, Round(f, h, a), b));
  }

  // Running the network on the swapped output with the subkeys in reverse order undoes it.
  lemma {:induction false} RoundsUndo<K>(f: (bv32, K) -> bv32, ks: seq<K>, h: Halves)
    ensures Rounds(f, Reverse(ks), Swap(Rounds(f, ks, h))) == Swap(h)
    decreases |ks|
  {
    hide Round, Swap;
    if ks != [] {
      var h1 := Round(f, h, ks[0]);
      RoundsUndo(f, ks[1..], h1);
      RoundsConcat(f, Reverse(ks[1..]), [ks[0]], Swap(Rounds(f, ks, h)));
      RoundUndo(f, h, ks[0]);
      assert Rounds(f, [ks[0]], Swap(h1)) == Round(f, Swap(h1), ks[0]);
    }
  }

  // Complementing the half-block and replacing subkey k by n leaves the round function's value alone.
  ghost predicate Blind<K>(f: (bv32, K) -> bv32, k: K, n: K)
  {
    forall r: bv32 {:trigger f(r, k)} :: f(Not(r), n) == f(r, k)
  }

  lemma RoundComplement<K>(f: (bv32, K) -> bv32, h: Halves, k: K, n: K)
    requires Blind(f, k, n)
    ensures Round(f, Complement(h), n) == Complement(Round(f, h, k))
  {
    hide Xor, Not;
    NotXor(h.l, f(h.r, k));
  }

  // When every round is blind in this sense, complementing both halves complements the output.
  lemma {:induction false} RoundsComplement<K>(f: (bv32, K) -> bv32, ks: seq<K>, ns: seq<K>, h: Halves)
    requires |ns| == |ks|
    requires forall i :: 0 <= i < |ks| ==> Blind(f, ks[i], ns[i])
    ensures Rounds(f, ns, Complement(h)) == Complement(Rounds(f, ks, h))
    decreases |ks|
  {
    hide Blind, Complement, Round;
    if ks != [] {
      RoundComplement(f, h, ks[0], ns[0]);
      RoundsComplement(f, ks[1..], ns[1..], Round(f, h, ks[0]));
    }
  }
}
