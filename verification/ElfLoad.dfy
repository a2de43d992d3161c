// The image of a loaded object as a whole: relocation, PLT binding and global offset table together.
module ElfLoad {
  import opened Basics
  import opened LittleEndian
  import opened ElfSymbols
  import opened ElfEdits
  import opened ElfReloc
  import opened Permutations

  import L = ElfLazy
  import R = ElfRelocTheorems

  // Both PLT loops as one edit of the slot.
  function EagerEdit(c: Context, e: Plt): Edit
    requires Sound(c)
  {
    if L.Missing(c, e) then Plus(c.base) else Set(L.Target(c, e))
  }

  function EagerPatches(c: Context, es: seq<Plt>): (ps: seq<Patch>)
    requires Sound(c)
    ensures |ps| == |es| && forall i :: 0 <= i < |es| ==> ps[i] == Patch(es[i].offset, EagerEdit(c, es[i]))
  {
    seq(|es|, i requires 0 <= i < |es| => Patch(es[i].offset, EagerEdit(c, es[i])))
  }

  // Whatever the loader stores a word for: an entry of one of the tables, or a word of the global offset table.
  datatype Entry = OfRela(rela: Rela) | OfRel(rel: Rel) | OfPlt(plt: Plt) | OfGot(offset: nat, word: uint32)

  function Place(e: Entry): nat
  {
    match e
    case OfRela(r) => r.offset
    case OfRel(r) => r.offset
    case OfPlt(p) => p.offset
    case OfGot(o, _) => o
  }

  // An entry that changes its word.
  predicate Changes(e: Entry)
  {
    match e
    case OfRela(r) => !r.kind.X64Other?
    case OfRel(r) => R.Writes(r)
    case _ => true
  }

  function EntryEdit(c: Context, e: Entry): Edit
    requires Sound(c)
  {
    match e
    case OfRela(r) => PatchOf(r.offset, RelaEdit(c, r)).edit
    case OfRel(r) => PatchOf(r.offset, RelEdit(c, r)).edit
    case OfPlt(p) => EagerEdit(c, p)
    case OfGot(_, w) => Set(w)
  }

  function RelaEntries(rs: seq<Rela>): (es: seq<Entry>)
    ensures |es| == |rs| && forall i :: 0 <= i < |rs| ==> es[i] == OfRela(rs[i])
  {
    seq(|rs|, i requires 0 <= i < |rs| => OfRela(rs[i]))
  }

  function RelEntries(rs: seq<Rel>): (es: seq<Entry>)
    ensures |es| == |rs| && forall i :: 0 <= i < |rs| ==> es[i] == OfRel(rs[i])
  {
    seq(|rs|, i requires 0 <= i < |rs| => OfRel(rs[i]))
  }

  function PltEntries(ps: seq<Plt>): (es: seq<Entry>)
    ensures |es| == |ps| && forall i :: 0 <= i < |ps| ==> es[i] == OfPlt(ps[i])
  {
    seq(|ps|, i requires 0 <= i < |ps| => OfPlt(ps[i]))
  }

  function GotEntries(t: Relocs, self: uint32, start: uint32): seq<Entry>
  {
    if t.pltgot.None? then [] else [OfGot(t.pltgot.value + 8, start), OfGot(t.pltgot.value + 4, self)]
  }

  function Entries(t: Relocs, self: uint32, start: uint32): seq<Entry>
  {
    RelaEntries(t.rela) + PltEntries(t.pltrela) + RelEntries(t.rel) + PltEntries(PltRel(t)) + GotEntries(t, self, start)
  }

  // Nothing of any table is left out.
  lemma {:induction false} EveryEntry(t: Relocs, self: uint32, start: uint32)
    ensures forall i :: 0 <= i < |t.rel| ==> OfRel(t.rel[i]) in Entries(t, self, start)
    ensures forall i :: 0 <= i < |t.rela| ==> OfRela(t.rela[i]) in Entries(t, self, start)
    ensures forall i :: 0 <= i < |t.pltrela| ==> OfPlt(t.pltrela[i]) in Entries(t, self, start)
    ensures t.pltrel.Some? ==> forall i :: 0 <= i < |t.pltrel.value| ==> OfPlt(t.pltrel.value[i]) in Entries(t, self, start)
    ensures |Entries(t, self, start)| == |t.rel| + |t.rela| + |t.pltrela| + |PltRel(t)| + if t.pltgot.Some? then 2 else 0
  {
    var a, b, d, e := RelaEntries(t.rela), PltEntries(t.pltrela), RelEntries(t.rel), PltEntries(PltRel(t));
    forall i | 0 <= i < |t.rel|
      ensures OfRel(t.rel[i]) in Entries(t, self, start)
    {
      assert d[i] == OfRel(t.rel[i]);
    }
    forall i | 0 <= i < |t.rela|
      ensures OfRela(t.rela[i]) in Entries(t, self, start)
    {
      assert a[i] == OfRela(t.rela[i]);
    }
    forall i | 0 <= i < |t.pltrela|
      ensures OfPlt(t.pltrela[i]) in Entries(t, self, start)
    {
      assert b[i] == OfPlt(t.pltrela[i]);
    }
    forall i | 0 <= i < |PltRel(t)|
      ensures OfPlt(PltRel(t)[i]) in Entries(t, self, start)
    {
      assert e[i] == OfPlt(PltRel(t)[i]);
    }
  }

  // No two entries change the same byte.
  predicate EntriesDisjoint(es: seq<Entry>)
  {
    forall i, j :: 0 <= i < j < |es| && Changes(es[i]) && Changes(es[j]) ==> Clear(Place(es[i]), Place(es[j]))
  }

  // One patch an entry.
  function Flat(c: Context, es: seq<Entry>): (ps: seq<Patch>)
    requires Sound(c)
    ensures |ps| == |es| && forall i :: 0 <= i < |es| ==> ps[i] == Patch(Place(es[i]), EntryEdit(c, es[i]))
  {
    seq(|es|, i requires 0 <= i < |es| => Patch(Place(es[i]), EntryEdit(c, es[i])))
  }

  lemma FlatTables(c: Context, t: Relocs, self: uint32, start: uint32)
    requires Sound(c)
    ensures Flat(c, Entries(t, self, start))
         == RelaPatches(c, t.rela) + EagerPatches(c, t.pltrela) + RelPatches(c, t.rel) + EagerPatches(c, PltRel(t)) + GotPatches(t, self, start)
  {
    var es1, es2, es3, es4, es5 := RelaEntries(t.rela), PltEntries(t.pltrela), RelEntries(t.rel), PltEntries(PltRel(t)), GotEntries(t, self, start);
    FlatTable(c, t.rela, t.rel, t.pltrela);
    FlatTable(c, t.rela, t.rel, PltRel(t));
    assert Flat(c, es5) == GotPatches(t, self, start);
    hide Sound, EntryEdit, Flat, RelaEntries, RelEntries, PltEntries, GotEntries, GotPatches, RelaPatches, RelPatches, EagerPatches;
    FlatAppend(c, es1, es2);
    FlatAppend(c, es1 + es2, es3);
    FlatAppend(c, es1 + es2 + es3, es4);
    FlatAppend(c, es1 + es2 + es3 + es4, es5);
  }

  lemma FlatAppend(c: Context, es: seq<Entry>, fs: seq<Entry>)
    requires Sound(c)
    ensures Flat(c, es + fs) == Flat(c, es) + Flat(c, fs)
  {
    hide Sound, EntryEdit;
  }

  lemma {:induction false} FlatTable(c: Context, rela: seq<Rela>, rel: seq<Rel>, plt: seq<Plt>)
    requires Sound(c)
    ensures Flat(c, RelaEntries(rela)) == RelaPatches(c, rela)
    ensures Flat(c, RelEntries(rel)) == RelPatches(c, rel)
    ensures Flat(c, PltEntries(plt)) == EagerPatches(c, plt)
  {
    hide Sound, RelaEdit, RelEdit, EagerEdit;
  }

  lemma {:induction false} FlatDisjoint(c: Context, es: seq<Entry>)
    requires Sound(c) && EntriesDisjoint(es)
    ensures Disjoint(Flat(c, es))
  {
    hide Sound, Symbol;
    var ps := Flat(c, es);
    forall i, j | 0 <= i < j < |ps|
      ensures Apart(ps[i], ps[j])
    {
      assert ps[i].edit == EntryEdit(c, es[i]) && ps[j].edit == EntryEdit(c, es[j]);
    }
  }

  // The image that loading leaves of m.
  function Loaded(c: Context, m: seq<byte>, t: Relocs, self: uint32, start: uint32): (r: seq<byte>)
    requires Sound(c) && RelocsFit(|m|, t)
    ensures |r| == |m|
  {
    LoadFits(c, |m|, t, self, start);
    ApplyAll(m, LoadPatches(c, t, self, start))
  }

  lemma FitsAppend(size: nat, ps: seq<Patch>, qs: seq<Patch>)
    requires Fits(size, ps) && Fits(size, qs)
    ensures Fits(size, ps + qs)
  {
  }

  lemma LoadFits(c: Context, size: nat, t: Relocs, self: uint32, start: uint32)
    requires Sound(c) && RelocsFit(size, t)
    ensures Fits(size, LoadPatches(c, t, self, start)) && Fits(size, Flat(c, Entries(t, self, start)))
  {
    var rela, rel, got := RelaPatches(c, t.rela), RelPatches(c, t.rel), GotPatches(t, self, start);
    AllFit(c, size, t, self, start);
    FlatTables(c, t, self, start);
    var a1, a2, a3 := RebasePatches(c.base, t.pltrela), BindPatches(c, t.pltrela), EagerPatches(c, t.pltrela);
    var b1, b2, b3 := RebasePatches(c.base, PltRel(t)), BindPatches(c, PltRel(t)), EagerPatches(c, PltRel(t));
    hide Fits, RelPatches, RelaPatches, RebasePatches, BindPatches, EagerPatches, GotPatches, Sound, Flat, Entries;
    FitsAppend(size, rela, a1);
    FitsAppend(size, rela + a1, a2);
    FitsAppend(size, rela + a1 + a2, rel);
    FitsAppend(size, rela + a1 + a2 + rel, b1);
    FitsAppend(size, rela + a1 + a2 + rel + b1, b2);
    FitsAppend(size, rela + a1 + a2 + rel + b1 + b2, got);
    FitsAppend(size, rela, a3);
    FitsAppend(size, rela + a3, rel);
    FitsAppend(size, rela + a3 + rel, b3);
    FitsAppend(size, rela + a3 + rel + b3, got);
  }

  lemma TablesFit(c: Context, size: nat, t: Relocs)
    requires Sound(c) && RelocsFit(size, t)
    ensures Fits(size, RelaPatches(c, t.rela)) && Fits(size, RelPatches(c, t.rel))
  {
    hide Sound, RelEdit, RelaEdit;
  }

  lemma PltFits(c: Context, size: nat, es: seq<Plt>)
    requires Sound(c) && Within(size, es)
    ensures Fits(size, RebasePatches(c.base, es)) && Fits(size, BindPatches(c, es)) && Fits(size, EagerPatches(c, es))
  {
    hide Sound, BindEdit, EagerEdit;
  }

  // The two PLT loops do to each slot what its one edit says.
  lemma EagerFused(c: Context, m: seq<byte>, es: seq<Plt>)
    requires Sound(c) && Within(|m|, es) && Disjoint(EagerPatches(c, es))
    ensures Fits(|m|, RebasePatches(c.base, es)) && Fits(|m|, BindPatches(c, es)) && Fits(|m|, EagerPatches(c, es))
    ensures ApplyAll(ApplyAll(m, RebasePatches(c.base, es)), BindPatches(c, es)) == ApplyAll(m, EagerPatches(c, es))
  {
    SlotsApart(c, es);
    PltFits(c, |m|, es);
    L.EagerSlots(c, m, es);
    PatchedEach(m, EagerPatches(c, es));
    SlotsPatched(c, m, es, L.EagerImage(c, m, es));
    hide *;
    PatchedOnce(m, L.EagerImage(c, m, es), ApplyAll(m, EagerPatches(c, es)), EagerPatches(c, es));
  }

  lemma EagerIsEdit(c: Context, m: seq<byte>, e: Plt)
    requires Sound(c) && e.offset + 4 <= |m|
    ensures L.Eager(c, m, e) == Eval(EagerEdit(c, e), U32At(m, e.offset))
  {
    hide Sound, Symbol, U32At, Wrap;
  }

  lemma {:induction false} SlotsPatched(c: Context, m: seq<byte>, es: seq<Plt>, r: seq<byte>)
    requires Sound(c) && Within(|m|, es) && L.Slots(c, m, es, r, L.Below(|es|))
    ensures Fits(|m|, EagerPatches(c, es)) && Patched(m, r, EagerPatches(c, es))
  {
    PltFits(c, |m|, es);
    hide Sound, U32At, L.Below, L.Eager, L.Stub, EagerEdit, Eval;
    var ps := EagerPatches(c, es);
    forall i | 0 <= i < |ps|
      ensures U32At(r, ps[i].offset) == Eval(ps[i].edit, U32At(m, ps[i].offset))
    {
      assert i in L.Below(|es|);
      EagerIsEdit(c, m, es[i]);
    }
    forall a | 0 <= a < |m| && !Covered(ps, a)
      ensures r[a] == m[a]
    {
      EagerCovers(c, es, a);
    }
  }

  lemma {:induction false} EagerCovers(c: Context, es: seq<Plt>, a: nat)
    requires Sound(c)
    ensures Covered(EagerPatches(c, es), a) <==> L.InSlot(es, a)
  {
    hide Sound, Symbol;
    var ps := EagerPatches(c, es);
    if L.InSlot(es, a) {
      var i :| 0 <= i < |es| && es[i].offset <= a < es[i].offset + 4;
      assert Covers(ps[i], a);
    }
  }

  lemma SlotsApart(c: Context, es: seq<Plt>)
    requires Sound(c) && Disjoint(EagerPatches(c, es))
    ensures L.PltDisjoint(es)
  {
    hide Sound, L.Missing, L.Target;
    var ps := EagerPatches(c, es);
    forall i, j | 0 <= i < j < |es|
      ensures Clear(es[i].offset, es[j].offset)
    {
      assert Apart(ps[i], ps[j]);
    }
  }

  lemma PartDisjoint(a: seq<Patch>, b: seq<Patch>, d: seq<Patch>)
    requires Disjoint(a + b + d)
    ensures Disjoint(b)
  {
    forall i, j | 0 <= i < j < |b|
      ensures Apart(b[i], b[j])
    {
      var s := a + b + d;
      assert s[|a| + i] == b[i] && s[|a| + j] == b[j];
    }
  }

  lemma AllFit(c: Context, size: nat, t: Relocs, self: uint32, start: uint32)
    requires Sound(c) && RelocsFit(size, t)
    ensures Fits(size, RelaPatches(c, t.rela)) && Fits(size, RelPatches(c, t.rel)) && Fits(size, GotPatches(t, self, start))
    ensures Within(size, t.pltrela) && Within(size, PltRel(t))
    ensures Fits(size, RebasePatches(c.base, t.pltrela)) && Fits(size, BindPatches(c, t.pltrela)) && Fits(size, EagerPatches(c, t.pltrela))
    ensures Fits(size, RebasePatches(c.base, PltRel(t))) && Fits(size, BindPatches(c, PltRel(t))) && Fits(size, EagerPatches(c, PltRel(t)))
  {
    hide Sound, Fits, Within;
    TablesFit(c, size, t);
    PltFits(c, size, t.pltrela);
    PltFits(c, size, PltRel(t));
    GotFits(size, t, self, start);
  }

  lemma PltDisjointParts(rela: seq<Patch>, a: seq<Patch>, rel: seq<Patch>, b: seq<Patch>, got: seq<Patch>)
    requires Disjoint(rela + a + rel + b + got)
    ensures Disjoint(a) && Disjoint(b)
  {
    hide Disjoint;
    assert rela + a + rel + b + got == rela + a + (rel + b + got);
    PartDisjoint(rela, a, rel + b + got);
    PartDisjoint(rela + a + rel, b, got);
  }

  // If no two entries change the same byte, loading does to each word what the one patch of its entry says.
  lemma LoadIsFlat(c: Context, m: seq<byte>, t: Relocs, self: uint32, start: uint32)
    requires Sound(c) && RelocsFit(|m|, t) && EntriesDisjoint(Entries(t, self, start))
    ensures Fits(|m|, Flat(c, Entries(t, self, start)))
    ensures Loaded(c, m, t, self, start) == ApplyAll(m, Flat(c, Entries(t, self, start)))
  {
    hide Fits, Disjoint, Sound, RelPatches, RelaPatches, RebasePatches, BindPatches, EagerPatches, GotPatches, ApplyAll, Within,
         Flat, Entries, EntriesDisjoint, RelocsFit, PltRel;
    LoadFits(c, |m|, t, self, start);
    AllFit(c, |m|, t, self, start);
    FlatTables(c, t, self, start);
    FlatDisjoint(c, Entries(t, self, start));
    var rela, rel, got := RelaPatches(c, t.rela), RelPatches(c, t.rel), GotPatches(t, self, start);
    var a3, b3 := EagerPatches(c, t.pltrela), EagerPatches(c, PltRel(t));
    PltDisjointParts(rela, a3, rel, b3, got);
    EagerFused(c, ApplyAll(m, rela), t.pltrela);
    EagerFused(c, ApplyAll(ApplyAll(ApplyAll(m, rela), a3), rel), PltRel(t));
    Chains(m, rela, RebasePatches(c.base, t.pltrela), BindPatches(c, t.pltrela), a3, rel,
           RebasePatches(c.base, PltRel(t)), BindPatches(c, PltRel(t)), b3, got);
  }

  lemma Chains(m: seq<byte>, rela: seq<Patch>, a1: seq<Patch>, a2: seq<Patch>, a3: seq<Patch>, rel: seq<Patch>,
               b1: seq<Patch>, b2: seq<Patch>, b3: seq<Patch>, got: seq<Patch>)
    requires Fits(|m|, rela) && Fits(|m|, a1) && Fits(|m|, a2) && Fits(|m|, a3) && Fits(|m|, rel)
    requires Fits(|m|, b1) && Fits(|m|, b2) && Fits(|m|, b3) && Fits(|m|, got)
    requires ApplyAll(ApplyAll(ApplyAll(m, rela), a1), a2) == ApplyAll(ApplyAll(m, rela), a3)
    requires var q := ApplyAll(ApplyAll(ApplyAll(m, rela), a3), rel);
      ApplyAll(ApplyAll(q, b1), b2) == ApplyAll(q, b3)
    ensures Fits(|m|, rela + a1 + a2 + rel + b1 + b2 + got) && Fits(|m|, rela + a3 + rel + b3 + got)
    ensures ApplyAll(m, rela + a1 + a2 + rel + b1 + b2 + got) == ApplyAll(m, rela + a3 + rel + b3 + got)
  {
    hide Fits, ApplyAll;
    Middle(m, rela, a1, a2, rel, b1, b2, got);
    ApplyAppend(m, rela, a3);
    ApplyAppend(m, rela + a3, rel);
    ApplyAppend(m, rela + a3 + rel, b3);
    ApplyAppend(m, rela + a3 + rel + b3, got);
  }

  // Byte a belongs to the word of some entry that changes it.
  predicate InEntry(es: seq<Entry>, a: nat)
  {
    exists i :: 0 <= i < |es| && EntryHas(es[i], a)
  }

  predicate EntryHas(e: Entry, a: nat) { Changes(e) && Place(e) <= a < Place(e) + 4 }

  // Loading does not stop at this entry.
  predicate EntryGood(c: Context, e: Entry)
    requires Sound(c)
  {
    match e
    case OfRela(r) => RelaEdit(c, r).Some?
    case OfRel(r) => RelEdit(c, r).Some?
    case OfPlt(p) => BindEdit(c, p).Some?
    case OfGot(_, _) => true
  }

  predicate EntriesGood(c: Context, es: seq<Entry>)
    requires Sound(c)
  {
    forall i :: 0 <= i < |es| ==> EntryGood(c, es[i])
  }

  lemma {:induction false} GoodAppend(c: Context, es: seq<Entry>, fs: seq<Entry>)
    requires Sound(c)
    ensures EntriesGood(c, es + fs) <==> EntriesGood(c, es) && EntriesGood(c, fs)
  {
    hide Sound, EntryGood;
    assert forall i :: 0 <= i < |fs| ==> (es + fs)[|es| + i] == fs[i];
    assert forall i :: 0 <= i < |es| ==> (es + fs)[i] == es[i];
  }

  lemma {:induction false} GoodTable(c: Context, rela: seq<Rela>, rel: seq<Rel>, plt: seq<Plt>)
    requires Sound(c)
    ensures EntriesGood(c, RelaEntries(rela)) <==> RelasGood(c, rela)
    ensures EntriesGood(c, RelEntries(rel)) <==> RelsGood(c, rel)
    ensures EntriesGood(c, PltEntries(plt)) <==> BindsGood(c, plt)
  {
    hide Sound, RelaEdit, RelEdit, BindEdit;
    var es1, es2, es3 := RelaEntries(rela), RelEntries(rel), PltEntries(plt);
    assert forall i :: 0 <= i < |rela| ==> EntryGood(c, es1[i]) == RelaEdit(c, rela[i]).Some?;
    assert forall i :: 0 <= i < |rel| ==> EntryGood(c, es2[i]) == RelEdit(c, rel[i]).Some?;
    assert forall i :: 0 <= i < |plt| ==> EntryGood(c, es3[i]) == BindEdit(c, plt[i]).Some?;
  }

  lemma LoadGoodEach(c: Context, t: Relocs, self: uint32, start: uint32)
    requires Sound(c)
    ensures LoadGood(c, t) <==> EntriesGood(c, Entries(t, self, start))
  {
    var es1, es2, es3, es4, es5 := RelaEntries(t.rela), PltEntries(t.pltrela), RelEntries(t.rel), PltEntries(PltRel(t)), GotEntries(t, self, start);
    GoodTable(c, t.rela, t.rel, t.pltrela);
    GoodTable(c, t.rela, t.rel, PltRel(t));
    assert EntriesGood(c, es5);
    hide Sound, EntryGood, EntriesGood, RelaEntries, RelEntries, PltEntries, GotEntries, RelasGood, RelsGood, BindsGood;
    GoodAppend(c, es1, es2);
    GoodAppend(c, es1 + es2, es3);
    GoodAppend(c, es1 + es2 + es3, es4);
    GoodAppend(c, es1 + es2 + es3 + es4, es5);
  }

  // The word that should be there after loading, for the word a before: what the i386 ABI has for REL
  // entries; S, or B + A, for RELA entries, whose addend is in the entry (that of a 64-bit word is lost,
  // see Abs64LosesAddend); for a PLT slot the symbol's address, or its own stub where there is none.
  predicate AsLoaded(c: Context, e: Entry, a: uint32, w: uint32)
    requires Sound(c)
  {
    match e
    case OfRel(r) => R.AsAbiSays(c, r, a, w)
    case OfRela(r) => if r.kind.X64Relative? then w == Wrap(c.base + r.addend) else Symbol(c, r.sym, false) == Address(w)
    case OfPlt(p) =>
      var s := Symbol(c, p.sym, true);
      if s.Address? then w == Wrap(s.address + p.addend) else s.Null? && w == Wrap(a + c.base)
    case OfGot(_, g) => w == g
  }

  lemma EntryLoads(c: Context, e: Entry, a: uint32)
    requires Sound(c) && EntryGood(c, e) && Changes(e)
    ensures AsLoaded(c, e, a, Eval(EntryEdit(c, e), a)) && !EntryEdit(c, e).Keep?
  {
    hide Sound, Symbol, Wrap, R.AsAbiSays;
    if e.OfRel? {
      R.EntryMatchesAbi(c, e.rel, a);
    }
  }

  // What loading leaves, entry by entry: its word is what its table says, and the bytes of no entry are
  // as they were.
  lemma {:induction false} LoadedMatchesAbi(c: Context, m: seq<byte>, t: Relocs, self: uint32, start: uint32)
    requires Sound(c) && RelocsFit(|m|, t) && LoadGood(c, t) && EntriesDisjoint(Entries(t, self, start))
    ensures var es, r := Entries(t, self, start), Loaded(c, m, t, self, start);
      && (forall i :: 0 <= i < |es| ==> Place(es[i]) + 4 <= |m|)
      && (forall i :: 0 <= i < |es| && Changes(es[i]) ==> AsLoaded(c, es[i], U32At(m, Place(es[i])), U32At(r, Place(es[i]))))
      && (forall a :: 0 <= a < |m| && !InEntry(es, a) ==> r[a] == m[a])
  {
    LoadIsFlat(c, m, t, self, start);
    LoadGoodEach(c, t, self, start);
    hide Entries, LoadGood, RelocsFit, Sound, Loaded;
    FlatLoads(c, m, Entries(t, self, start));
  }

  lemma {:induction false} FlatLoads(c: Context, m: seq<byte>, es: seq<Entry>)
    requires Sound(c) && EntriesDisjoint(es) && EntriesGood(c, es) && Fits(|m|, Flat(c, es))
    ensures forall i :: 0 <= i < |es| ==> Place(es[i]) + 4 <= |m|
    ensures var r := ApplyAll(m, Flat(c, es));
      && (forall i :: 0 <= i < |es| && Changes(es[i]) ==> AsLoaded(c, es[i], U32At(m, Place(es[i])), U32At(r, Place(es[i]))))
      && (forall a :: 0 <= a < |m| && !InEntry(es, a) ==> r[a] == m[a])
  {
    var r := ApplyAll(m, Flat(c, es));
    FlatEach(c, m, es);
    hide Sound, U32At, Eval, EntryEdit, AsLoaded, EntryGood, Changes, ApplyAll, EntriesDisjoint, Disjoint, Flat, InEntry, Place;
    forall i | 0 <= i < |es| && Changes(es[i])
      ensures AsLoaded(c, es[i], U32At(m, Place(es[i])), U32At(r, Place(es[i])))
    {
      assert EntryGood(c, es[i]);
      EntryLoads(c, es[i], U32At(m, Place(es[i])));
    }
  }

  // The word for a reference by a name in the fixup table: the address that is there, with the word
  // before, A, or the addend added where the type says so.
  predicate FixupStored(c: Context, e: Entry, a: uint32, w: uint32)
    requires Sound(c)
  {
    match e
    case OfRel(r) => HasFixup(c, r.sym, false) ==>
      var f := c.env.fixup(c.tables.symtab[r.sym].name, false);
      (r.kind.R386GlobDat? ==> w == f) && (r.kind.R386Abs32? ==> w == (a + f) % 0x1_0000_0000)
    case OfRela(r) => HasFixup(c, r.sym, false) && (r.kind.X64Abs64? || r.kind.X64GlobDat?) ==>
      w == c.env.fixup(c.tables.symtab[r.sym].name, false)
    case OfPlt(p) => HasFixup(c, p.sym, true) ==> w == (c.env.fixup(c.tables.symtab[p.sym].name, true) + p.addend) % 0x1_0000_0000
    case OfGot(_, _) => true
  }

  lemma FixupWord(c: Context, e: Entry, a: uint32, w: uint32)
    requires Sound(c) && Changes(e) && AsLoaded(c, e, a, w)
    ensures FixupStored(c, e, a, w)
  {
    hide Symbol, HasFixup, Sound;
    match e
    case OfRel(r) =>
      if HasFixup(c, r.sym, false) {
        FixupFirst(c, r.sym, false);
        SumIs(a, w, Wrap(w - a));
      }
    case OfRela(r) =>
      if HasFixup(c, r.sym, false) {
        FixupFirst(c, r.sym, false);
      }
    case OfPlt(p) =>
      if HasFixup(c, p.sym, true) {
        FixupFirst(c, p.sym, true);
      }
    case OfGot(_, _) =>
  }

  lemma SumIs(a: uint32, w: uint32, f: uint32)
    requires Wrap(w - a) == f
    ensures w == (a + f) % 0x1_0000_0000
  {
  }

  // After loading that is so for every entry, whatever the object and the process have under the name.
  lemma {:induction false} LoadedFixups(c: Context, m: seq<byte>, t: Relocs, self: uint32, start: uint32)
    requires Sound(c) && RelocsFit(|m|, t) && LoadGood(c, t) && EntriesDisjoint(Entries(t, self, start))
    ensures var es, r := Entries(t, self, start), Loaded(c, m, t, self, start);
      forall i :: 0 <= i < |es| && Changes(es[i]) ==>
        Place(es[i]) + 4 <= |m| && FixupStored(c, es[i], U32At(m, Place(es[i])), U32At(r, Place(es[i])))
  {
    hide Loaded, LoadGood, EntriesDisjoint, Entries, U32At, InEntry, Sound, RelocsFit, AsLoaded, FixupStored, Changes, Place;
    LoadedMatchesAbi(c, m, t, self, start);
    var es, r := Entries(t, self, start), Loaded(c, m, t, self, start);
    forall i | 0 <= i < |es| && Changes(es[i])
      ensures Place(es[i]) + 4 <= |m| && FixupStored(c, es[i], U32At(m, Place(es[i])), U32At(r, Place(es[i])))
    {
      FixupWord(c, es[i], U32At(m, Place(es[i])), U32At(r, Place(es[i])));
    }
  }

  // The two words of the global offset table after loading.
  lemma {:induction false} LoadedGot(c: Context, m: seq<byte>, t: Relocs, self: uint32, start: uint32)
    requires Sound(c) && RelocsFit(|m|, t) && LoadGood(c, t) && EntriesDisjoint(Entries(t, self, start)) && t.pltgot.Some?
    ensures var g, r := t.pltgot.value, Loaded(c, m, t, self, start);
      U32At(r, g + 4) == self && U32At(r, g + 8) == start
  {
    LoadedMatchesAbi(c, m, t, self, start);
    var es, r := Entries(t, self, start), Loaded(c, m, t, self, start);
    var n := |es|;
    assert es[n - 2] == OfGot(t.pltgot.value + 8, start) && es[n - 1] == OfGot(t.pltgot.value + 4, self);
    hide Loaded, LoadGood, EntriesDisjoint, Entries, U32At, InEntry, Sound, RelocsFit;
    assert AsLoaded(c, es[n - 2], U32At(m, Place(es[n - 2])), U32At(r, Place(es[n - 2])));
    assert AsLoaded(c, es[n - 1], U32At(m, Place(es[n - 1])), U32At(r, Place(es[n - 1])));
  }

  // A first call through a slot of a loaded object stores what loading has stored there.
  lemma {:induction false} CallAfterLoad(c: Context, m: seq<byte>, t: Relocs, self: uint32, start: uint32, k: nat)
    requires Sound(c) && RelocsFit(|m|, t) && LoadGood(c, t) && EntriesDisjoint(Entries(t, self, start))
    requires L.NoAddends(PltRel(t)) && k < |PltRel(t)|
    ensures Fixup(c, Loaded(c, m, t, self, start), PltRel(t)[k]) == Loaded(c, m, t, self, start)
  {
    hide Loaded, LoadGood, EntriesDisjoint, Entries, RelocsFit, InEntry, Sound, Fixup, AsLoaded;
    LoadedMatchesAbi(c, m, t, self, start);
    PltEntryIn(t, self, start, k);
    CallSame(c, m, Loaded(c, m, t, self, start), PltRel(t)[k]);
  }

  lemma CallSame(c: Context, m: seq<byte>, r: seq<byte>, e: Plt)
    requires Sound(c) && |r| == |m| && e.offset + 4 <= |m| && e.addend == 0
    requires AsLoaded(c, OfPlt(e), U32At(m, e.offset), U32At(r, e.offset))
    ensures Fixup(c, r, e) == r
  {
    hide Symbol, PutWord, U32At, Sound;
    if Symbol(c, e.sym, true).Address? {
      L.PutFixed(r, e.offset, Symbol(c, e.sym, true).address);
    }
  }

  lemma PltEntryIn(t: Relocs, self: uint32, start: uint32, k: nat)
    requires k < |PltRel(t)|
    ensures var i := |t.rela| + |t.pltrela| + |t.rel| + k;
      i < |Entries(t, self, start)| && Entries(t, self, start)[i] == OfPlt(PltRel(t)[k])
  {
  }

  // After loading, first calls in any order change nothing.
  lemma {:induction false} LoadIsStable(c: Context, m: seq<byte>, t: Relocs, self: uint32, start: uint32, ks: seq<nat>)
    requires Sound(c) && RelocsFit(|m|, t) && LoadGood(c, t) && EntriesDisjoint(Entries(t, self, start))
    requires L.NoAddends(PltRel(t)) && forall j :: 0 <= j < |ks| ==> ks[j] < |PltRel(t)|
    ensures L.Fixups(c, Loaded(c, m, t, self, start), PltRel(t), ks) == Loaded(c, m, t, self, start)
    decreases |ks|
  {
    hide Loaded, LoadGood, EntriesDisjoint, Entries, Sound, Fixup;
    if ks != [] {
      LoadIsStable(c, m, t, self, start, ks[..|ks| - 1]);
      CallAfterLoad(c, m, t, self, start, ks[|ks| - 1]);
    }
  }

  lemma {:induction false} FlatPlaces(c: Context, size: nat, es: seq<Entry>)
    requires Sound(c) && Fits(size, Flat(c, es))
    ensures forall i :: 0 <= i < |es| ==> Place(es[i]) + 4 <= size
  {
    hide Sound, EntryEdit;
    var ps := Flat(c, es);
    forall i | 0 <= i < |es|
      ensures Place(es[i]) + 4 <= size
    {
      assert ps[i].offset == Place(es[i]);
    }
  }

  lemma {:induction false} FlatEach(c: Context, m: seq<byte>, es: seq<Entry>)
    requires Sound(c) && EntriesDisjoint(es) && EntriesGood(c, es) && Fits(|m|, Flat(c, es))
    ensures forall i :: 0 <= i < |es| ==> Place(es[i]) + 4 <= |m|
    ensures var r := ApplyAll(m, Flat(c, es));
      && (forall i :: 0 <= i < |es| && Changes(es[i]) ==>
           U32At(r, Place(es[i])) == Eval(EntryEdit(c, es[i]), U32At(m, Place(es[i]))))
      && (forall a :: 0 <= a < |m| && !InEntry(es, a) ==> r[a] == m[a])
  {
    hide Sound, U32At, Eval, EntryEdit, AsLoaded, EntryGood, Changes, ApplyAll, EntriesDisjoint, Disjoint, Flat, InEntry, Place, Covered;
    FlatPlaces(c, |m|, es);
    FlatDisjoint(c, es);
    var ps := Flat(c, es);
    PatchedEach(m, ps);
    var r := ApplyAll(m, ps);
    forall i | 0 <= i < |es| && Changes(es[i])
      ensures U32At(r, Place(es[i])) == Eval(EntryEdit(c, es[i]), U32At(m, Place(es[i])))
    {
      assert EntryGood(c, es[i]);
      EntryLoads(c, es[i], 0);
      assert ps[i].offset == Place(es[i]) && ps[i].edit == EntryEdit(c, es[i]);
    }
    forall a | 0 <= a < |m| && !InEntry(es, a)
      ensures r[a] == m[a]
    {
      if Covered(ps, a) {
        CoveredIsIn(c, es, a);
      }
    }
  }

  lemma {:induction false} CoveredIsIn(c: Context, es: seq<Entry>, a: nat)
    requires Sound(c) && Covered(Flat(c, es), a)
    ensures InEntry(es, a)
  {
    hide Sound, Symbol;
    var ps := Flat(c, es);
    var i :| 0 <= i < |ps| && Covers(ps[i], a);
    assert ps[i].edit == EntryEdit(c, es[i]);
    assert EntryHas(es[i], a);
  }

  // An entry whose word moves with the object.
  predicate EntryMoves(c: Context, e: Entry)
    requires Sound(c)
  {
    match e
    case OfRel(r) => R.Moves(c, r)
    case OfRela(r) => r.kind.X64Relative? || R.SymbolMoves(c, r.sym, false)
    case OfPlt(p) => !Symbol(c, p.sym, true).Address? || R.SymbolMoves(c, p.sym, true)
    case OfGot(_, _) => false
  }

  // The same object and process, loaded at another address.
  ghost predicate Elsewhere(c: Context, d: Context)
  {
    d.tables == c.tables && d.env == c.env && NoneAtZero(c.tables, c.base) && NoneAtZero(d.tables, d.base)
  }

  lemma ElsewhereIs(c: Context, d: Context)
    requires Sound(c) && Elsewhere(c, d)
    ensures Sound(d) && d == c.(base := d.base)
  {
  }

  lemma SymbolAnywhere(c: Context, d: Context, sym: nat, inPlt: bool)
    requires Sound(c) && Sound(d) && Elsewhere(c, d)
    ensures Symbol(d, sym, inPlt).Null? <==> Symbol(c, sym, inPlt).Null?
    ensures Symbol(d, sym, inPlt).Asserted? <==> Symbol(c, sym, inPlt).Asserted?
  {
    ResolveAnywhere(c.tables, c.base, d.base, c.env, sym, inPlt);
    hide Resolve;
  }

  // The word of entry e at the other address, by the word at this one.
  lemma EntryAt(c: Context, d: Context, e: Entry, a: uint32)
    requires Sound(c) && Sound(d) && Elsewhere(c, d) && EntryGood(c, e)
    ensures EntryGood(d, e)
    ensures Changes(e) ==> Eval(EntryEdit(d, e), a) == Wrap(Eval(EntryEdit(c, e), a) + R.Shift(EntryMoves(c, e), c.base, d.base))
  {
    hide Resolve, Wrap, NoneAtZero, Symbol, R.SymbolMoves, Sound;
    ElsewhereIs(c, d);
    match e
    case OfRel(r) => R.EditMoves(c, d.base, r, a);
    case OfRela(r) =>
      if r.kind.X64Relative? {
        R.WrapSame(d.base);
        R.SumMoves(r.addend, c.base, d.base - c.base);
      } else if Changes(e) {
        R.SymbolAt(c, d.base, r.sym, false);
      }
    case OfPlt(p) =>
      SymbolAnywhere(c, d, p.sym, true);
      if Symbol(c, p.sym, true).Address? {
        R.SymbolAt(c, d.base, p.sym, true);
        R.SumMoves(p.addend, Symbol(c, p.sym, true).address, R.Shift(R.SymbolMoves(c, p.sym, true), c.base, d.base));
      } else {
        R.WrapSame(d.base);
        R.SumMoves(a, c.base, d.base - c.base);
      }
    case OfGot(_, w) => R.WrapSame(w);
  }

  // Each word of entries moves as EntryMoves says, and nothing else differs.
  predicate Shifted(c: Context, d: Context, es: seq<Entry>, r: seq<byte>, r': seq<byte>)
    requires Sound(c) && forall i :: 0 <= i < |es| ==> Place(es[i]) + 4 <= |r|
  {
    && |r'| == |r|
    && (forall i :: 0 <= i < |es| && Changes(es[i]) ==>
         U32At(r', Place(es[i])) == Wrap(U32At(r, Place(es[i])) + R.Shift(EntryMoves(c, es[i]), c.base, d.base)))
    && (forall a :: 0 <= a < |r| && !InEntry(es, a) ==> r'[a] == r[a])
  }

  // The images of an object at two load addresses differ by the difference of the addresses in exactly
  // the words that depend on it, and in nothing else.
  lemma {:induction false} TwoBases(c: Context, d: Context, m: seq<byte>, t: Relocs, self: uint32, start: uint32)
    requires Sound(c) && Elsewhere(c, d)
    requires RelocsFit(|m|, t) && LoadGood(c, t) && EntriesDisjoint(Entries(t, self, start))
    ensures Sound(d) && LoadGood(d, t)
    ensures forall i :: 0 <= i < |Entries(t, self, start)| ==> Place(Entries(t, self, start)[i]) + 4 <= |m|
    ensures Shifted(c, d, Entries(t, self, start), Loaded(c, m, t, self, start), Loaded(d, m, t, self, start))
  {
    hide Entries, LoadGood, RelocsFit, Sound, Loaded, Elsewhere, EntriesGood, EntriesDisjoint, Fits, Flat, ApplyAll, Shifted, Place;
    ElsewhereIs(c, d);
    LoadIsFlat(c, m, t, self, start);
    LoadIsFlat(d, m, t, self, start);
    LoadGoodEach(c, t, self, start);
    LoadGoodEach(d, t, self, start);
    FlatTwoBases(c, d, m, Entries(t, self, start));
  }

  lemma {:induction false} FlatTwoBases(c: Context, d: Context, m: seq<byte>, es: seq<Entry>)
    requires Sound(c) && Sound(d) && Elsewhere(c, d) && EntriesDisjoint(es) && EntriesGood(c, es)
    requires Fits(|m|, Flat(c, es)) && Fits(|m|, Flat(d, es))
    ensures EntriesGood(d, es) && forall i :: 0 <= i < |es| ==> Place(es[i]) + 4 <= |m|
    ensures Shifted(c, d, es, ApplyAll(m, Flat(c, es)), ApplyAll(m, Flat(d, es)))
  {
    hide Sound, U32At, Eval, EntryEdit, EntryGood, Changes, ApplyAll, EntriesDisjoint, Flat, InEntry, Place, Elsewhere, Wrap, EntryMoves,
         R.Shift, Fits;
    forall i | 0 <= i < |es|
      ensures EntryGood(d, es[i])
    {
      EntryAt(c, d, es[i], 0);
    }
    FlatEach(c, m, es);
    FlatEach(d, m, es);
    var r, r' := ApplyAll(m, Flat(c, es)), ApplyAll(m, Flat(d, es));
    forall i | 0 <= i < |es| && Changes(es[i])
      ensures U32At(r', Place(es[i])) == Wrap(U32At(r, Place(es[i])) + R.Shift(EntryMoves(c, es[i]), c.base, d.base))
    {
      EntryAt(c, d, es[i], U32At(m, Place(es[i])));
    }
  }

  // The order of a REL table whose entries change no common byte does not matter to the loaded object.
  lemma {:induction false} LoadOrderFree(c: Context, m: seq<byte>, t: Relocs, rel: seq<Rel>, self: uint32, start: uint32)
    requires Sound(c) && RelocsFit(|m|, t) && R.RelsDisjoint(t.rel) && multiset(t.rel) == multiset(rel)
    ensures RelocsFit(|m|, t.(rel := rel))
    ensures Loaded(c, m, t.(rel := rel), self, start) == Loaded(c, m, t, self, start)
    ensures LoadGood(c, t.(rel := rel)) <==> LoadGood(c, t)
  {
    hide Sound, RelPatches, RelaPatches, RebasePatches, BindPatches, GotPatches, ApplyAll, Fits, RelsGood, RelasGood, BindsGood,
         R.RelsDisjoint, Within, RelsFit, RelasFit;
    R.RelocationOrderFree(c, m, t.rel, rel);
    var u := t.(rel := rel);
    var rela, plta, pltb := RelaPatches(c, t.rela), t.pltrela, PltRel(t);
    var got := GotPatches(t, self, start);
    GotSame(t, u, self, start);
    LoadFits(c, |m|, t, self, start);
    AllFit(c, |m|, t, self, start);
    LoadFits(c, |m|, u, self, start);
    AllFit(c, |m|, u, self, start);
    var a1, a2, b1, b2 := RebasePatches(c.base, plta), BindPatches(c, plta), RebasePatches(c.base, pltb), BindPatches(c, pltb);
    Middle(m, rela, a1, a2, RelPatches(c, t.rel), b1, b2, got);
    Middle(m, rela, a1, a2, RelPatches(c, rel), b1, b2, got);
    R.RelocationOrderFree(c, ApplyAll(ApplyAll(ApplyAll(m, rela), a1), a2), t.rel, rel);
  }

  lemma GotSame(t: Relocs, u: Relocs, self: uint32, start: uint32)
    requires t.pltgot == u.pltgot
    ensures GotPatches(t, self, start) == GotPatches(u, self, start)
  {
  }

  lemma Middle(m: seq<byte>, rela: seq<Patch>, a1: seq<Patch>, a2: seq<Patch>, rel: seq<Patch>,
               b1: seq<Patch>, b2: seq<Patch>, got: seq<Patch>)
    requires Fits(|m|, rela) && Fits(|m|, a1) && Fits(|m|, a2) && Fits(|m|, rel) && Fits(|m|, b1) && Fits(|m|, b2) && Fits(|m|, got)
    ensures Fits(|m|, rela + a1 + a2 + rel + b1 + b2 + got)
    ensures ApplyAll(m, rela + a1 + a2 + rel + b1 + b2 + got)
         == ApplyAll(ApplyAll(ApplyAll(ApplyAll(ApplyAll(ApplyAll(ApplyAll(m, rela), a1), a2), rel), b1), b2), got)
  {
    hide Fits, ApplyAll;
    ApplyAppend(m, rela, a1);
    ApplyAppend(m, rela + a1, a2);
    ApplyAppend(m, rela + a1 + a2, rel);
    ApplyAppend(m, rela + a1 + a2 + rel, b1);
    ApplyAppend(m, rela + a1 + a2 + rel + b1, b2);
    ApplyAppend(m, rela + a1 + a2 + rel + b1 + b2, got);
  }
}
