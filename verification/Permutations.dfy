// Sequences with the same elements in different orders.
module Permutations {
  lemma {:induction false} Twice<T>(s: seq<T>, x: T) returns (a: nat, b: nat)
    requires multiset(s)[x] >= 2
    ensures a < b < |s| && s[a] == x && s[b] == x
  {
    var last := |s| - 1;
    assert s == s[..last] + [s[last]];
    if s[last] == x {
      assert x in multiset(s[..last]);
      a :| 0 <= a < last && s[..last][a] == x;
      b := last;
    } else {
      a, b := Twice(s[..last], x);
    }
  }

  lemma CountTwo<T>(s: seq<T>, i: nat, j: nat)
    requires i < j < |s| && s[i] == s[j]
    ensures multiset(s)[s[i]] >= 2
  {
    assert s == s[..j] + s[j..];
    assert s[..j][i] in multiset(s[..j]) && s[j..][0] in multiset(s[j..]);
  }

  function Without<T>(s: seq<T>, k: nat): (r: seq<T>)
    requires k < |s|
    ensures |r| == |s| - 1
  {
    s[..k] + s[k + 1..]
  }

  lemma CountWithout<T>(s: seq<T>, k: nat)
    requires k < |s|
    ensures multiset(s) == multiset(Without(s, k)) + multiset{s[k]}
    ensures multiset(Without(s, k)) == multiset(s) - multiset{s[k]}
  {
    assert s == s[..k] + ([s[k]] + s[k + 1..]);
  }

  ghost predicate Maps<A, B>(f: A -> B, s: seq<A>, t: seq<B>)
  {
    |s| == |t| && forall i :: 0 <= i < |s| ==> t[i] == f(s[i])
  }

  lemma MapsWithout<A, B>(f: A -> B, s: seq<A>, t: seq<B>, k: nat)
    requires Maps(f, s, t) && k < |s|
    ensures Maps(f, Without(s, k), Without(t, k))
  {
  }

  // Images of the same elements in another order.
  lemma {:induction false} MapPermuted<A, B>(f: A -> B, rs: seq<A>, qs: seq<A>, ps: seq<B>, ts: seq<B>)
    requires multiset(rs) == multiset(qs) && Maps(f, rs, ps) && Maps(f, qs, ts)
    ensures multiset(ps) == multiset(ts)
    decreases |rs|
  {
    if rs == [] {
      assert |qs| == |multiset(qs)|;
      assert ps == ts;
    } else {
      assert rs[0] in multiset(qs);
      var k :| 0 <= k < |qs| && qs[k] == rs[0];
      assert ps[0] == ts[k];
      MapsWithout(f, rs, ps, 0);
      MapsWithout(f, qs, ts, k);
      hide Without, Maps;
      CountWithout(rs, 0);
      CountWithout(ps, 0);
      CountWithout(qs, k);
      CountWithout(ts, k);
      MapPermuted(f, Without(rs, 0), Without(qs, k), Without(ps, 0), Without(ts, k));
    }
  }
}
