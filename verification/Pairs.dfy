// Sequences of pairs laid out flat: interleaving and reversal by pairs.
module Pairs {
  import opened Feistel

  function Interleave<K, T>(ks: seq<K>, even: K -> T, odd: K -> T): (w: seq<T>)
    ensures |w| == 2 * |ks|
  {
    seq(2 * |ks|, i requires 0 <= i < 2 * |ks| => if i % 2 == 0 then even(ks[i / 2]) else odd(ks[i / 2]))
  }

  // Pairs in reverse order, each pair kept in its own order.
  function PairReverse<T>(w: seq<T>): (r: seq<T>)
    requires |w| % 2 == 0
    ensures |r| == |w|
  {
    seq(|w|, i requires 0 <= i < |w| => if i % 2 == 0 then w[|w| - 2 - i] else w[|w| - i])
  }

  // The inverse of interleaving: one value from each pair.
  function Pairwise<T, K>(w: seq<T>, f: (T, T) -> K): (ks: seq<K>)
    ensures |ks| == |w| / 2
  {
    seq(|w| / 2, i requires 0 <= i < |w| / 2 => f(w[2 * i], w[2 * i + 1]))
  }

  lemma InterleaveAt<K, T>(ks: seq<K>, even: K -> T, odd: K -> T, j: nat)
    requires j < |ks|
    ensures Interleave(ks, even, odd)[2 * j] == even(ks[j])
    ensures Interleave(ks, even, odd)[2 * j + 1] == odd(ks[j])
  {
  }

  lemma PairwiseInterleave<K, T>(ks: seq<K>, even: K -> T, odd: K -> T, f: (T, T) -> K)
    requires forall k :: k in ks ==> f(even(k), odd(k)) == k
    ensures Pairwise(Interleave(ks, even, odd), f) == ks
  {
    forall j | 0 <= j < |ks|
      ensures Pairwise(Interleave(ks, even, odd), f)[j] == ks[j]
    {
      InterleaveAt(ks, even, odd, j);
    }
  }

  lemma PairwiseConcat<T, K>(a: seq<T>, b: seq<T>, f: (T, T) -> K)
    requires |a| % 2 == 0
    ensures Pairwise(a + b, f) == Pairwise(a, f) + Pairwise(b, f)
  {
  }

  lemma PairReverseAt<T>(w: seq<T>, j: nat)
    requires |w| % 2 == 0 && 2 * j < |w|
    ensures PairReverse(w)[2 * j] == w[|w| - 2 - 2 * j]
    ensures PairReverse(w)[2 * j + 1] == w[|w| - 1 - 2 * j]
  {
  }

  lemma PairReverseInterleave<K, T>(ks: seq<K>, even: K -> T, odd: K -> T)
    ensures PairReverse(Interleave(ks, even, odd)) == Interleave(Reverse(ks), even, odd)
  {
    hide PairReverse, Interleave;
    var w := Interleave(ks, even, odd);
    var p, q := PairReverse(w), Interleave(Reverse(ks), even, odd);
    forall i | 0 <= i < |p|
      ensures p[i] == q[i]
    {
      var j := i / 2;
      PairReverseAt(w, j);
      InterleaveAt(ks, even, odd, |ks| - 1 - j);
      InterleaveAt(Reverse(ks), even, odd, j);
      assert i == 2 * j || i == 2 * j + 1;
    }
  }

  // Reading the pairs of a reversed layout gives the values in reverse order.
  lemma PairwiseReverse<T, K>(w: seq<T>, f: (T, T) -> K)
    requires |w| % 2 == 0
    ensures Pairwise(PairReverse(w), f) == Reverse(Pairwise(w, f))
  {
    hide PairReverse;
    forall j | 0 <= j < |w| / 2
      ensures Pairwise(PairReverse(w), f)[j] == Reverse(Pairwise(w, f))[j]
    {
      PairReverseAt(w, j);
    }
  }

  lemma PairReverseTwice<T>(w: seq<T>)
    requires |w| % 2 == 0
    ensures PairReverse(PairReverse(w)) == w
  {
  }

  lemma InterleaveAppend<K, T>(ks: seq<K>, k: K, even: K -> T, odd: K -> T)
    ensures Interleave(ks + [k], even, odd) == Interleave(ks, even, odd) + [even(k), odd(k)]
  {
  }

  // The part of a buffer from offset d on holds the first n elements of w.
  ghost predicate Starts<T>(a: seq<T>, d: nat, w: seq<T>, n: nat)
  {
    n <= |w| && d + n <= |a| && forall j :: 0 <= j < n ==> a[d + j] == w[j]
  }

  // A buffer that has w from place k0 up to k, and is otherwise as it was.
  ghost predicate Filled<T>(was: seq<T>, now: seq<T>, k0: nat, k: nat, w: seq<T>)
  {
    k0 <= k <= |was| && |w| == k - k0 && now == was[..k0] + w + was[k..]
  }

  // Two consecutive words of a buffer.
  method PutPair<T>(a: array<T>, k: nat, x: T, y: T)
    requires k + 2 <= a.Length
    modifies a
    ensures a[..] == old(a[..])[k := x][k + 1 := y]
  {
    a[k] := x;
    a[k + 1] := y;
  }

  lemma NothingStored<T>(was: seq<T>, k0: nat, w: seq<T>)
    requires k0 <= |was| && w == []
    ensures Filled(was, was, k0, k0, w)
  {
  }

  lemma PairStored<T>(was: seq<T>, now: seq<T>, k0: nat, k: nat, w: seq<T>, x: T, y: T)
    requires Filled(was, now, k0, k, w) && k + 2 <= |was|
    ensures |now| == |was| && Filled(was, now[k := x][k + 1 := y], k0, k + 2, w + [x, y])
  {
    var next := now[k := x][k + 1 := y];
    assert next[..k] == now[..k] == was[..k0] + w && next[k + 2..] == now[k + 2..] == was[k + 2..];
    assert next == next[..k] + [x, y] + next[k + 2..];
  }

  lemma FilledIs<T>(was: seq<T>, now: seq<T>, k0: nat, k: nat, w: seq<T>)
    requires Filled(was, now, k0, k, w)
    ensures |now| == |was| && now[k0..k] == w && now == was[..k0] + w + was[k..]
  {
  }

  // A buffer of three thirds, each holding the beginning of a given 32-element sequence.
  ghost predicate Laid<T>(a: seq<T>, u: seq<T>, m: nat, v: seq<T>, n: nat, w: seq<T>, k: nat)
  {
    |a| == 96 && |u| == |v| == |w| == 32 && Starts(a, 0, u, m) && Starts(a, 32, v, n) && Starts(a, 64, w, k)
  }

  lemma LaidOut<T>(a: seq<T>, u: seq<T>, v: seq<T>, w: seq<T>)
    requires Laid(a, u, 32, v, 32, w, 32)
    ensures a == u + v + w
  {
  }

  // Reading from the part, in reverse pair order.
  lemma StartsReversed<T>(a: seq<T>, d: nat, w: seq<T>, i: nat)
    requires |w| == 32 && Starts(a, d, w, 32) && i < 32 && i % 2 == 0
    ensures PairReverse(w)[i] == a[d + 30 - i] && PairReverse(w)[i + 1] == a[d + 31 - i]
  {
  }

  lemma StartsDirect<T>(a: seq<T>, d: nat, w: seq<T>, n: nat, i: nat)
    requires Starts(a, d, w, n) && i < n
    ensures w[i] == a[d + i]
  {
  }

  // Two consecutive assignments of the filling loops, as they act on the parts of the buffer: the
  // part being filled grows by one pair of w, and two others lie elsewhere.
  method StorePair<T>(a: array<T>, ghost d: nat, ghost w: seq<T>, i: nat, x: T, y: T,
                      ghost d1: nat, ghost w1: seq<T>, ghost n1: nat, ghost d2: nat, ghost w2: seq<T>, ghost n2: nat)
    requires d <= i && i + 2 <= a.Length && i - d + 2 <= |w| && x == w[i - d] && y == w[i - d + 1]
    requires Starts(a[..], d, w, i - d) && Starts(a[..], d1, w1, n1) && Starts(a[..], d2, w2, n2)
    requires (i + 2 <= d1 || d1 + n1 <= i) && (i + 2 <= d2 || d2 + n2 <= i)
    modifies a
    ensures Starts(a[..], d, w, i - d + 2) && Starts(a[..], d1, w1, n1) && Starts(a[..], d2, w2, n2)
  {
    a[i] := x;
    a[i + 1] := y;
  }

  // The subkey-reversing loop of the key setup: the pairs of src land in reverse order in dst.
  method CopyReversed<T>(src: array<T>, dst: array<T>)
    requires src != dst && src.Length == 32 && dst.Length == 32
    modifies dst
    ensures dst[..] == PairReverse(src[..])
  {
    hide PairReverse;
    ghost var r := PairReverse(src[..]);
    var i := 0;
    while i < 32
      invariant 0 <= i <= 32 && i % 2 == 0
      invariant dst[..i] == r[..i]
    {
      PairReverseAt(src[..], i / 2);
      PutPair(dst, i, src[30 - i], src[31 - i]);
      assert dst[..i] == r[..i] && dst[i] == r[i] && dst[i + 1] == r[i + 1];
      i := i + 2;
    }
  }
}
