// Edits of words in a memory image: what a list of relocations does, in terms of each word alone.
module ElfEdits {
  import opened Basics
  import opened LittleEndian
  import opened ElfSymbols
  import opened Permutations

  // What becomes of one word.
  datatype Edit = Keep | Plus(n: uint32) | Set(n: uint32)

  datatype Patch = Patch(offset: nat, edit: Edit)

  function Eval(e: Edit, w: uint32): uint32
  {
    match e
    case Keep => w
    case Plus(n) => Wrap(w + n)
    case Set(n) => n
  }

  function PutWord(m: seq<byte>, o: nat, w: uint32): (r: seq<byte>)
    requires o + 4 <= |m|
    ensures |r| == |m|
  {
    m[..o] + Bytes32(w) + m[o + 4..]
  }

  function Apply(m: seq<byte>, p: Patch): (r: seq<byte>)
    requires p.offset + 4 <= |m|
    ensures |r| == |m|
  {
    PutWord(m, p.offset, Eval(p.edit, U32At(m, p.offset)))
  }

  predicate Fits(size: nat, ps: seq<Patch>)
  {
    forall i :: 0 <= i < |ps| ==> ps[i].offset + 4 <= size
  }

  // In order, from the first.
  function ApplyAll(m: seq<byte>, ps: seq<Patch>): (r: seq<byte>)
    requires Fits(|m|, ps)
    ensures |r| == |m|
  {
    if ps == [] then m else Apply(ApplyAll(m, ps[..|ps| - 1]), ps[|ps| - 1])
  }

  lemma {:induction false} ApplyAppend(m: seq<byte>, ps: seq<Patch>, qs: seq<Patch>)
    requires Fits(|m|, ps) && Fits(|m|, qs)
    ensures Fits(|m|, ps + qs) && ApplyAll(m, ps + qs) == ApplyAll(ApplyAll(m, ps), qs)
    decreases |qs|
  {
    hide Apply;
    if qs == [] {
      assert ps + qs == ps;
    } else {
      assert (ps + qs)[..|ps + qs| - 1] == ps + qs[..|qs| - 1];
      ApplyAppend(m, ps, qs[..|qs| - 1]);
    }
  }

  // Two words share no byte.
  predicate Clear(o: nat, o': nat) { o + 4 <= o' || o' + 4 <= o }

  // Two patches that do not both write a byte.
  predicate Apart(p: Patch, q: Patch) { p.edit.Keep? || q.edit.Keep? || Clear(p.offset, q.offset) }

  predicate Disjoint(ps: seq<Patch>)
  {
    forall i, j :: 0 <= i < j < |ps| ==> Apart(ps[i], ps[j])
  }

  // Byte a belongs to the word of some patch that writes.
  predicate Covered(ps: seq<Patch>, a: nat)
  {
    exists i :: 0 <= i < |ps| && Covers(ps[i], a)
  }

  predicate Covers(p: Patch, a: nat) { !p.edit.Keep? && p.offset <= a < p.offset + 4 }

  // Every word written has become what its own patch says, and no other byte has changed.
  predicate Patched(m: seq<byte>, r: seq<byte>, ps: seq<Patch>)
    requires Fits(|m|, ps)
  {
    && |r| == |m|
    && (forall i :: 0 <= i < |ps| && !ps[i].edit.Keep? ==> U32At(r, ps[i].offset) == Eval(ps[i].edit, U32At(m, ps[i].offset)))
    && (forall a :: 0 <= a < |m| && !Covered(ps, a) ==> r[a] == m[a])
  }

  lemma PutThere(m: seq<byte>, o: nat, w: uint32)
    requires o + 4 <= |m|
    ensures U32At(PutWord(m, o, w), o) == w
  {
    hide Bytes32;
    assert PutWord(m, o, w)[o..o + 4] == Bytes32(w);
    U32Bytes(PutWord(m, o, w), o, w);
  }

  lemma PutElsewhere(m: seq<byte>, o: nat, w: uint32, o': nat)
    requires o + 4 <= |m| && o' + 4 <= |m| && Clear(o, o')
    ensures U32At(PutWord(m, o, w), o') == U32At(m, o')
  {
    hide Bytes32, Word32;
  }

  lemma PutByte(m: seq<byte>, o: nat, w: uint32, a: nat)
    requires o + 4 <= |m| && a < |m| && !(o <= a < o + 4)
    ensures PutWord(m, o, w)[a] == m[a]
  {
    hide Bytes32;
  }

  lemma PatchNext(m: seq<byte>, r: seq<byte>, ps: seq<Patch>, p: Patch)
    requires Fits(|m|, ps) && Patched(m, r, ps) && p.offset + 4 <= |m|
    requires forall i :: 0 <= i < |ps| ==> Apart(ps[i], p)
    ensures Fits(|m|, ps + [p]) && Patched(m, Apply(r, p), ps + [p])
  {
    hide U32At, PutWord, Bytes32;
    var qs := ps + [p];
    assert qs[|ps|] == p && forall i :: 0 <= i < |ps| ==> qs[i] == ps[i];
    if p.edit.Keep? {
      PutSame(r, p.offset);
      assert forall a :: Covered(ps, a) ==> Covered(qs, a);
      KeepCovers(ps, p);
    } else {
      hide Eval;
      var w := Eval(p.edit, U32At(r, p.offset));
      var s := PutWord(r, p.offset, w);
      UntouchedWord(m, r, ps, p.offset);
      PutThere(r, p.offset, w);
      forall i | 0 <= i < |ps| && !ps[i].edit.Keep?
        ensures U32At(s, ps[i].offset) == Eval(ps[i].edit, U32At(m, ps[i].offset))
      {
        assert Apart(ps[i], p);
        PutElsewhere(r, p.offset, w, ps[i].offset);
      }
      forall a | 0 <= a < |m| && !Covered(qs, a)
        ensures s[a] == m[a]
      {
        assert !Covers(qs[|ps|], a);
        assert !Covered(ps, a);
        PutByte(r, p.offset, w, a);
      }
    }
  }

  lemma KeepCovers(ps: seq<Patch>, p: Patch)
    requires p.edit.Keep?
    ensures forall a :: Covered(ps + [p], a) ==> Covered(ps, a)
  {
    forall a | Covered(ps + [p], a)
      ensures Covered(ps, a)
    {
      var i :| 0 <= i < |ps + [p]| && Covers((ps + [p])[i], a);
      assert i < |ps| && Covers(ps[i], a);
    }
  }

  lemma PutSame(m: seq<byte>, o: nat)
    requires o + 4 <= |m|
    ensures PutWord(m, o, U32At(m, o)) == m
  {
    var r := PutWord(m, o, U32At(m, o));
    PutThere(m, o, U32At(m, o));
    WordInjective(m, r, o);
    hide Bytes32, U32At;
    assert m == m[..o] + m[o..o + 4] + m[o + 4..];
  }

  // Patches that share no byte act each on its own.
  lemma {:induction false} PatchedEach(m: seq<byte>, ps: seq<Patch>)
    requires Fits(|m|, ps) && Disjoint(ps)
    ensures Patched(m, ApplyAll(m, ps), ps)
    decreases |ps|
  {
    hide U32At, Eval, Apply;
    if ps != [] {
      var qs, p := ps[..|ps| - 1], ps[|ps| - 1];
      assert ps == qs + [p];
      hide Patched;
      PatchedEach(m, qs);
      PatchNext(m, ApplyAll(m, qs), qs, p);
    }
  }

  lemma UntouchedWord(m: seq<byte>, r: seq<byte>, ps: seq<Patch>, o: nat)
    requires Fits(|m|, ps) && Patched(m, r, ps) && o + 4 <= |m|
    requires forall i :: 0 <= i < |ps| ==> ps[i].edit.Keep? || Clear(ps[i].offset, o)
    ensures U32At(r, o) == U32At(m, o)
  {
    hide Word32, Eval;
    assert forall a :: o <= a < o + 4 ==> !Covered(ps, a);
  }

  lemma WordInjective(m: seq<byte>, r: seq<byte>, o: nat)
    requires o + 4 <= |m| && |r| == |m| && U32At(m, o) == U32At(r, o)
    ensures m[o] == r[o] && m[o + 1] == r[o + 1] && m[o + 2] == r[o + 2] && m[o + 3] == r[o + 3]
  {
    var m2: int, r2: int := m[o + 2] as int + 0x100 * m[o + 3] as int, r[o + 2] as int + 0x100 * r[o + 3] as int;
    var m1: int, r1: int := m[o + 1] as int + 0x100 * m2, r[o + 1] as int + 0x100 * r2;
    assert U32At(m, o) == m[o] as int + 0x100 * m1 && U32At(r, o) == r[o] as int + 0x100 * r1;
    LowByte(m[o], m1, r[o], r1);
    LowByte(m[o + 1], m2, r[o + 1], r2);
    LowByte(m[o + 2], m[o + 3], r[o + 2], r[o + 3]);
  }

  lemma LowByte(b: byte, q: int, b': byte, q': int)
    requires b + 0x100 * q == b' + 0x100 * q'
    ensures b == b' && q == q'
  {
  }

  // What each patch says about its own word, and nothing else changing, determines the result.
  lemma PatchedOnce(m: seq<byte>, r: seq<byte>, r': seq<byte>, ps: seq<Patch>)
    requires Fits(|m|, ps) && Patched(m, r, ps) && Patched(m, r', ps)
    ensures r == r'
  {
    hide U32At, Eval;
    forall a | 0 <= a < |m|
      ensures r[a] == r'[a]
    {
      if Covered(ps, a) {
        var i :| 0 <= i < |ps| && Covers(ps[i], a);
        WordInjective(r, r', ps[i].offset);
      }
    }
  }

  lemma DisjointPermuted(ps: seq<Patch>, qs: seq<Patch>)
    requires multiset(ps) == multiset(qs) && Disjoint(ps)
    ensures Disjoint(qs)
  {
    forall i, j | 0 <= i < j < |qs|
      ensures Apart(qs[i], qs[j])
    {
      if qs[i] == qs[j] {
        CountTwo(qs, i, j);
        var a, b := Twice(ps, qs[i]);
      } else {
        assert qs[i] in multiset(ps) && qs[j] in multiset(ps);
        var a :| 0 <= a < |ps| && ps[a] == qs[i];
        var b :| 0 <= b < |ps| && ps[b] == qs[j];
      }
    }
  }

  lemma PatchedPermuted(m: seq<byte>, r: seq<byte>, ps: seq<Patch>, qs: seq<Patch>)
    requires Fits(|m|, ps) && Patched(m, r, ps) && multiset(ps) == multiset(qs)
    ensures Fits(|m|, qs) && Patched(m, r, qs)
  {
    hide U32At, Eval;
    forall i | 0 <= i < |qs|
      ensures qs[i] in ps
    {
      assert qs[i] in multiset(ps);
    }
    forall a | 0 <= a < |m| && Covered(ps, a)
      ensures Covered(qs, a)
    {
      var i :| 0 <= i < |ps| && Covers(ps[i], a);
      assert ps[i] in multiset(qs);
      assert ps[i] in qs;
      var j :| 0 <= j < |qs| && qs[j] == ps[i];
      assert Covers(qs[j], a);
    }
  }

  // The order of disjoint patches does not matter.
  lemma OrderFree(m: seq<byte>, ps: seq<Patch>, qs: seq<Patch>)
    requires Fits(|m|, ps) && Disjoint(ps) && multiset(ps) == multiset(qs)
    ensures Fits(|m|, qs) && ApplyAll(m, ps) == ApplyAll(m, qs)
  {
    hide Patched;
    DisjointPermuted(ps, qs);
    PatchedEach(m, ps);
    PatchedPermuted(m, ApplyAll(m, ps), ps, qs);
    PatchedEach(m, qs);
    PatchedOnce(m, ApplyAll(m, ps), ApplyAll(m, qs), qs);
  }
}
