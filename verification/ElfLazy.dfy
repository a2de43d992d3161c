// Binding PLT slots at first call refines binding them all at load time.
module ElfLazy {
  import opened Basics
  import opened LittleEndian
  import opened ElfSymbols
  import opened ElfEdits
  import opened ElfReloc

  predicate PltDisjoint(es: seq<Plt>)
  {
    forall i, j :: 0 <= i < j < |es| ==> Clear(es[i].offset, es[j].offset)
  }

  predicate NoAddends(es: seq<Plt>)
  {
    forall i :: 0 <= i < |es| ==> es[i].addend == 0
  }

  // The slot's own stub, moved to where the object is, given the image m before PLT relocation.
  function Stub(c: Context, m: seq<byte>, e: Plt): uint32
    requires e.offset + 4 <= |m|
  {
    Wrap(U32At(m, e.offset) + c.base)
  }

  // What the load-time loops leave in the slot.
  function Eager(c: Context, m: seq<byte>, e: Plt): uint32
    requires Sound(c) && e.offset + 4 <= |m|
  {
    var s := Symbol(c, e.sym, true);
    if s.Address? then Wrap(s.address + e.addend) else Stub(c, m, e)
  }

  // The images after the first loop and after both.
  function LazyImage(c: Context, m: seq<byte>, es: seq<Plt>): (r: seq<byte>)
    requires Within(|m|, es)
    ensures |r| == |m|
  {
    ApplyAll(m, RebasePatches(c.base, es))
  }

  function EagerImage(c: Context, m: seq<byte>, es: seq<Plt>): (r: seq<byte>)
    requires Sound(c) && Within(|m|, es)
    ensures |r| == |m|
  {
    ApplyAll(LazyImage(c, m, es), BindPatches(c, es))
  }

  predicate InSlot(es: seq<Plt>, a: nat)
  {
    exists i :: 0 <= i < |es| && es[i].offset <= a < es[i].offset + 4
  }

  // The slots in bound hold the eager value, the others their stubs, and all else is as in m.
  predicate Slots(c: Context, m: seq<byte>, es: seq<Plt>, r: seq<byte>, bound: set<nat>)
    requires Sound(c) && Within(|m|, es)
  {
    && |r| == |m|
    && (forall i :: 0 <= i < |es| ==> U32At(r, es[i].offset) == if i in bound then Eager(c, m, es[i]) else Stub(c, m, es[i]))
    && (forall a :: 0 <= a < |m| && !InSlot(es, a) ==> r[a] == m[a])
  }

  function Below(n: nat): (s: set<nat>)
    ensures forall i: nat :: i in s <==> i < n
  {
    if n == 0 then {} else Below(n - 1) + {n - 1}
  }

  lemma LazySlots(c: Context, m: seq<byte>, es: seq<Plt>)
    requires Sound(c) && Within(|m|, es) && PltDisjoint(es)
    ensures Slots(c, m, es, LazyImage(c, m, es), {})
  {
    hide Sound, U32At, ApplyAll, Eager;
    var ps := RebasePatches(c.base, es);
    PatchedEach(m, ps);
    var r := LazyImage(c, m, es);
    forall i | 0 <= i < |es|
      ensures U32At(r, es[i].offset) == Stub(c, m, es[i])
    {
      assert U32At(r, ps[i].offset) == Eval(ps[i].edit, U32At(m, ps[i].offset));
    }
    forall a | 0 <= a < |m| && !InSlot(es, a)
      ensures r[a] == m[a]
    {
      assert !Covered(ps, a);
    }
  }

  // The second loop, on any image.
  predicate BoundEach(c: Context, n: seq<byte>, es: seq<Plt>, r: seq<byte>)
    requires Sound(c) && Within(|n|, es)
  {
    && |r| == |n|
    && (forall i :: 0 <= i < |es| ==>
         U32At(r, es[i].offset) == if Missing(c, es[i]) then U32At(n, es[i].offset) else Target(c, es[i]))
    && (forall a :: 0 <= a < |n| && !InSlot(es, a) ==> r[a] == n[a])
  }

  function Target(c: Context, e: Plt): uint32
    requires Sound(c) && !Missing(c, e)
  {
    Wrap(Symbol(c, e.sym, true).address + e.addend)
  }

  lemma OthersClear(es: seq<Plt>, ps: seq<Patch>, i: nat)
    requires PltDisjoint(es) && |ps| == |es| && i < |es| && ps[i].edit.Keep?
    requires forall j :: 0 <= j < |es| ==> ps[j].offset == es[j].offset
    ensures forall j :: 0 <= j < |ps| ==> ps[j].edit.Keep? || Clear(ps[j].offset, es[i].offset)
  {
    forall j | 0 <= j < |ps|
      ensures ps[j].edit.Keep? || Clear(ps[j].offset, es[i].offset)
    {
      assert j == i || (if j < i then Clear(es[j].offset, es[i].offset) else Clear(es[i].offset, es[j].offset));
    }
  }

  lemma BindEach(c: Context, n: seq<byte>, es: seq<Plt>)
    requires Sound(c) && Within(|n|, es) && PltDisjoint(es)
    ensures BoundEach(c, n, es, ApplyAll(n, BindPatches(c, es)))
  {
    hide Sound, U32At, ApplyAll, Symbol;
    var ps := BindPatches(c, es);
    PatchedEach(n, ps);
    var r := ApplyAll(n, ps);
    hide PltDisjoint;
    forall i | 0 <= i < |es|
      ensures U32At(r, es[i].offset) == if Missing(c, es[i]) then U32At(n, es[i].offset) else Target(c, es[i])
    {
      assert ps[i] == PatchOf(es[i].offset, BindEdit(c, es[i]));
      if Missing(c, es[i]) {
        OthersClear(es, ps, i);
        UntouchedWord(n, r, ps, es[i].offset);
      } else {
        assert U32At(r, ps[i].offset) == Eval(ps[i].edit, U32At(n, ps[i].offset));
      }
    }
    forall a | 0 <= a < |n| && !InSlot(es, a)
      ensures r[a] == n[a]
    {
      assert !Covered(ps, a);
    }
  }

  lemma EagerSlots(c: Context, m: seq<byte>, es: seq<Plt>)
    requires Sound(c) && Within(|m|, es) && PltDisjoint(es)
    ensures Slots(c, m, es, EagerImage(c, m, es), Below(|es|))
  {
    hide Sound, ApplyAll, LazyImage, BindPatches, BoundEach, Slots, PltDisjoint, Below, Within;
    LazySlots(c, m, es);
    BindEach(c, LazyImage(c, m, es), es);
    BoundSlots(c, m, es, LazyImage(c, m, es), EagerImage(c, m, es));
  }

  lemma BoundSlots(c: Context, m: seq<byte>, es: seq<Plt>, n: seq<byte>, r: seq<byte>)
    requires Sound(c) && Within(|m|, es) && Slots(c, m, es, n, {}) && BoundEach(c, n, es, r)
    ensures Slots(c, m, es, r, Below(|es|))
  {
    hide Sound, U32At, Symbol, Stub, InSlot, Below;
  }

  // A first call binds its own slot and leaves the others.
  lemma FixupBinds(c: Context, m: seq<byte>, es: seq<Plt>, r: seq<byte>, bound: set<nat>, k: nat)
    requires Sound(c) && Within(|m|, es) && PltDisjoint(es) && NoAddends(es) && k < |es|
    requires Slots(c, m, es, r, bound)
    ensures Slots(c, m, es, Fixup(c, r, es[k]), bound + {k})
  {
    hide Sound, U32At, PutWord, Resolve, Stub;
    var s := Symbol(c, es[k].sym, true);
    if s.Address? {
      var q := PutWord(r, es[k].offset, s.address);
      PutThere(r, es[k].offset, s.address);
      forall i | 0 <= i < |es| && i != k
        ensures U32At(q, es[i].offset) == U32At(r, es[i].offset)
      {
        PutElsewhere(r, es[k].offset, s.address, es[i].offset);
      }
      forall a | 0 <= a < |m| && !InSlot(es, a)
        ensures q[a] == m[a]
      {
        PutByte(r, es[k].offset, s.address, a);
      }
    }
  }

  // A run of first calls, of the entries with these numbers, in any order and any number of times.
  function Fixups(c: Context, r: seq<byte>, es: seq<Plt>, ks: seq<nat>): (q: seq<byte>)
    requires Sound(c) && Within(|r|, es) && forall j :: 0 <= j < |ks| ==> ks[j] < |es|
    ensures |q| == |r|
  {
    if ks == [] then r else Fixup(c, Fixups(c, r, es, ks[..|ks| - 1]), es[ks[|ks| - 1]])
  }

  function Called(ks: seq<nat>): set<nat> { set j | 0 <= j < |ks| :: ks[j] }

  lemma {:induction false} FixupsBind(c: Context, m: seq<byte>, es: seq<Plt>, r: seq<byte>, bound: set<nat>, ks: seq<nat>)
    requires Sound(c) && Within(|m|, es) && PltDisjoint(es) && NoAddends(es)
    requires Slots(c, m, es, r, bound) && forall j :: 0 <= j < |ks| ==> ks[j] < |es|
    ensures Slots(c, m, es, Fixups(c, r, es, ks), bound + Called(ks))
    decreases |ks|
  {
    hide Sound, Fixup, Slots;
    if ks == [] {
      assert bound + Called(ks) == bound;
    } else {
      var front, k := ks[..|ks| - 1], ks[|ks| - 1];
      SameLength(c, m, es, r, bound);
      FixupsBind(c, m, es, r, bound, front);
      FixupBinds(c, m, es, Fixups(c, r, es, front), bound + Called(front), k);
      assert ks == front + [k];
      assert bound + Called(ks) == bound + Called(front) + {k};
    }
  }

  lemma SameLength(c: Context, m: seq<byte>, es: seq<Plt>, r: seq<byte>, bound: set<nat>)
    requires Sound(c) && Within(|m|, es) && Slots(c, m, es, r, bound)
    ensures |r| == |m|
  {
  }

  // A slot whose symbol is missing keeps its stub either way.
  predicate Missing(c: Context, e: Plt)
    requires Sound(c)
  {
    !Symbol(c, e.sym, true).Address?
  }

  // Once every slot that has an address is bound, the image is the eager one.
  lemma AllBound(c: Context, m: seq<byte>, es: seq<Plt>, r: seq<byte>, bound: set<nat>)
    requires Sound(c) && Within(|m|, es) && PltDisjoint(es) && Slots(c, m, es, r, bound)
    requires forall i :: 0 <= i < |es| ==> i in bound || Missing(c, es[i])
    ensures r == EagerImage(c, m, es)
  {
    EagerSlots(c, m, es);
    hide Sound, EagerImage, Slots, Missing, PltDisjoint;
    SlotsOnce(c, m, es, r, EagerImage(c, m, es), bound, Below(|es|));
  }

  lemma SlotsOnce(c: Context, m: seq<byte>, es: seq<Plt>, r: seq<byte>, q: seq<byte>, bound: set<nat>, bound': set<nat>)
    requires Sound(c) && Within(|m|, es) && Slots(c, m, es, r, bound) && Slots(c, m, es, q, bound')
    requires forall i :: 0 <= i < |es| ==> (i in bound <==> i in bound') || Missing(c, es[i])
    ensures r == q
  {
    hide Sound, U32At, Symbol, Stub;
    forall a | 0 <= a < |m|
      ensures r[a] == q[a]
    {
      if InSlot(es, a) {
        var i :| 0 <= i < |es| && es[i].offset <= a < es[i].offset + 4;
        assert U32At(r, es[i].offset) == U32At(q, es[i].offset);
        WordInjective(r, q, es[i].offset);
      }
    }
  }

  // Loading without binding, then calling entries in any order: each slot holds its stub or what eager
  // binding stores, by whether it was called; nothing else changes; and when every entry with an
  // address has been called, the image is the one eager binding makes.
  lemma LazyRefinesEager(c: Context, m: seq<byte>, es: seq<Plt>, ks: seq<nat>)
    requires Sound(c) && Within(|m|, es) && PltDisjoint(es) && NoAddends(es)
    requires forall j :: 0 <= j < |ks| ==> ks[j] < |es|
    ensures var r := Fixups(c, LazyImage(c, m, es), es, ks);
      && Slots(c, m, es, r, Called(ks))
      && ((forall i :: 0 <= i < |es| ==> i in Called(ks) || Missing(c, es[i])) ==> r == EagerImage(c, m, es))
  {
    hide Sound, Slots, LazyImage, EagerImage, Fixups, Missing;
    LazySlots(c, m, es);
    FixupsBind(c, m, es, LazyImage(c, m, es), {}, ks);
    assert {} + Called(ks) == Called(ks);
    if forall i :: 0 <= i < |es| ==> i in Called(ks) || Missing(c, es[i]) {
      AllBound(c, m, es, Fixups(c, LazyImage(c, m, es), es, ks), Called(ks));
    }
  }

  // After eager binding, calls change nothing.
  lemma EagerIsStable(c: Context, m: seq<byte>, es: seq<Plt>, ks: seq<nat>)
    requires Sound(c) && Within(|m|, es) && PltDisjoint(es) && NoAddends(es)
    requires forall j :: 0 <= j < |ks| ==> ks[j] < |es|
    ensures Fixups(c, EagerImage(c, m, es), es, ks) == EagerImage(c, m, es)
  {
    hide Sound, Slots, EagerImage, Fixups, Missing;
    EagerSlots(c, m, es);
    FixupsBind(c, m, es, EagerImage(c, m, es), Below(|es|), ks);
    AllBound(c, m, es, Fixups(c, EagerImage(c, m, es), es, ks), Below(|es|) + Called(ks));
  }

  // With addends the two ways of binding agree on a slot exactly if its addend is 0: a call stores the
  // bare address.
  lemma AddendLost(c: Context, m: seq<byte>, es: seq<Plt>, k: nat)
    requires Sound(c) && Within(|m|, es) && PltDisjoint(es) && k < |es| && !Missing(c, es[k])
    ensures Fixup(c, EagerImage(c, m, es), es[k]) == EagerImage(c, m, es) <==> es[k].addend == 0
  {
    EagerSlots(c, m, es);
    SlotIs(c, m, es, EagerImage(c, m, es), Below(|es|), k);
    hide *;
    CallAfterEager(c, EagerImage(c, m, es), m, es[k]);
  }

  lemma CallAfterEager(c: Context, r: seq<byte>, m: seq<byte>, e: Plt)
    requires Sound(c) && |r| == |m| && e.offset + 4 <= |m| && !Missing(c, e) && U32At(r, e.offset) == Eager(c, m, e)
    ensures Fixup(c, r, e) == r <==> e.addend == 0
  {
    hide Sound, Symbol, PutWord, U32At, Wrap;
    var s := Symbol(c, e.sym, true).address;
    PutFixed(r, e.offset, s);
    AddendZero(s, e.addend);
  }

  lemma SlotIs(c: Context, m: seq<byte>, es: seq<Plt>, r: seq<byte>, bound: set<nat>, k: nat)
    requires Sound(c) && Within(|m|, es) && Slots(c, m, es, r, bound) && k < |es| && k in bound
    ensures |r| == |m| && es[k].offset + 4 <= |m| && U32At(r, es[k].offset) == Eager(c, m, es[k])
  {
  }

  lemma AddendZero(s: uint32, a: uint32)
    ensures Wrap(s as int + a as int) == s <==> a == 0
  {
  }

  lemma PutFixed(r: seq<byte>, o: nat, s: uint32)
    requires o + 4 <= |r|
    ensures PutWord(r, o, s) == r <==> U32At(r, o) == s
  {
    hide PutWord, U32At;
    PutThere(r, o, s);
    PutSame(r, o);
  }
}
