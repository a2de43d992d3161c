// The REL loop: what each entry computes, the order of the entries, and the load address.
module ElfRelocTheorems {
  import opened Basics
  import opened LittleEndian
  import opened ElfSymbols
  import opened ElfEdits
  import opened ElfReloc
  import opened Permutations

  // An entry that changes its word; the others share offset 0, or any.
  predicate Writes(r: Rel) { !r.kind.R386None? && !r.kind.R386DtpMod32? }

  // No two entries write the same byte.
  predicate RelsDisjoint(rs: seq<Rel>)
  {
    forall i, j :: 0 <= i < j < |rs| && Writes(rs[i]) && Writes(rs[j]) ==> Clear(rs[i].offset, rs[j].offset)
  }

  // The image after the REL table of the context.
  function Relocated(c: Context, m: seq<byte>, rs: seq<Rel>): seq<byte>
    requires Sound(c) && RelsFit(|m|, rs)
  {
    ApplyAll(m, RelPatches(c, rs))
  }

  // The word the i386 ABI computes for an entry from the word there, A, the load address, B, and the
  // symbol's address, S.
  predicate AsAbiSays(c: Context, r: Rel, a: uint32, w: uint32)
    requires Sound(c)
  {
    match r.kind
    case R386Relative => w == Wrap(c.base + a)
    case R386Abs32 => Symbol(c, r.sym, false) == Address(Wrap(w - a))
    case R386GlobDat => Symbol(c, r.sym, false) == Address(w)
    case _ => true
  }

  lemma EntryMatchesAbi(c: Context, r: Rel, a: uint32)
    requires Sound(c) && RelEdit(c, r).Some?
    ensures AsAbiSays(c, r, a, Eval(RelEdit(c, r).value, a))
  {
    if r.kind.R386Abs32? {
      var s := Symbol(c, r.sym, false).address;
      WrapPlus(a as int + s as int, -(a as int));
      hide Wrap, Symbol;
      WrapSame(s);
    }
  }

  lemma WrapSame(s: uint32)
    ensures Wrap(s) == s
  {
  }

  lemma RelsApart(c: Context, rs: seq<Rel>)
    requires Sound(c) && RelsDisjoint(rs)
    ensures Disjoint(RelPatches(c, rs))
  {
    hide Sound, Symbol;
    var ps := RelPatches(c, rs);
    forall i, j | 0 <= i < j < |ps|
      ensures Apart(ps[i], ps[j])
    {
      assert ps[i] == PatchOf(rs[i].offset, RelEdit(c, rs[i])) && ps[j] == PatchOf(rs[j].offset, RelEdit(c, rs[j]));
    }
  }

  lemma PatchesPermuted(c: Context, rs: seq<Rel>, qs: seq<Rel>)
    requires Sound(c) && multiset(rs) == multiset(qs)
    ensures multiset(RelPatches(c, rs)) == multiset(RelPatches(c, qs))
  {
    var f := (r: Rel) => if Sound(c) then PatchOf(r.offset, RelEdit(c, r)) else Patch(r.offset, Keep);
    MapPermuted(f, rs, qs, RelPatches(c, rs), RelPatches(c, qs));
  }

  // The order of a REL table whose slots share no byte does not matter.
  lemma RelocationOrderFree(c: Context, m: seq<byte>, rs: seq<Rel>, qs: seq<Rel>)
    requires Sound(c) && RelsFit(|m|, rs) && RelsDisjoint(rs) && multiset(rs) == multiset(qs)
    ensures RelsFit(|m|, qs) && Relocated(c, m, rs) == Relocated(c, m, qs)
    ensures RelsGood(c, rs) <==> RelsGood(c, qs)
  {
    hide Sound, RelEdit, ApplyAll;
    forall i | 0 <= i < |qs|
      ensures qs[i] in rs
    {
      assert qs[i] in multiset(qs);
    }
    forall i | 0 <= i < |rs|
      ensures rs[i] in qs
    {
      assert rs[i] in multiset(rs);
    }
    PatchesPermuted(c, rs, qs);
    RelsApart(c, rs);
    OrderFree(m, RelPatches(c, rs), RelPatches(c, qs));
  }

  // A symbol that moves with the object.
  predicate SymbolMoves(c: Context, sym: nat, inPlt: bool)
    requires Sound(c)
  {
    var f := Resolve(c.tables, c.base, c.env, sym, inPlt);
    f.Def? && f.target.InObject?
  }

  // An entry whose word moves with it.
  predicate Moves(c: Context, r: Rel)
    requires Sound(c)
  {
    r.kind.R386Relative? || ((r.kind.R386Abs32? || r.kind.R386GlobDat?) && SymbolMoves(c, r.sym, false))
  }

  function Shift(moves: bool, from: uint32, to: uint32): int { if moves then to - from else 0 }

  lemma SymbolAt(c: Context, base: uint32, sym: nat, inPlt: bool)
    requires Sound(c) && NoneAtZero(c.tables, c.base) && NoneAtZero(c.tables, base) && Symbol(c, sym, inPlt).Address?
    ensures Symbol(c.(base := base), sym, inPlt)
      == Address(Wrap(Symbol(c, sym, inPlt).address + Shift(SymbolMoves(c, sym, inPlt), c.base, base)))
  {
    ResolveAnywhere(c.tables, c.base, base, c.env, sym, inPlt);
    hide Resolve;
    var f := Resolve(c.tables, c.base, c.env, sym, inPlt);
    match f.target
    case InObject(v) => WrapPlus(c.base as int + v as int, base - c.base);
    case Outside(s) => WrapSame(s);
  }

  // Adding a moved word to another moves the sum as much.
  lemma SumMoves(a: uint32, s: uint32, d: int)
    ensures Wrap(a as int + Wrap(s as int + d) as int) == Wrap(Wrap(a as int + s as int) as int + d)
  {
    var x: int, y: int := a, s;
    WrapPlus(y + d, x);
    WrapPlus(x + y, d);
    hide Wrap;
    assert x + (y + d) == x + y + d;
  }

  lemma EditMoves(c: Context, base: uint32, r: Rel, a: uint32)
    requires Sound(c) && NoneAtZero(c.tables, c.base) && NoneAtZero(c.tables, base) && RelEdit(c, r).Some?
    ensures RelEdit(c.(base := base), r).Some?
    ensures Eval(RelEdit(c.(base := base), r).value, a) == Wrap(Eval(RelEdit(c, r).value, a) + Shift(Moves(c, r), c.base, base))
  {
    hide Resolve, Wrap, NoneAtZero, Symbol, SymbolMoves;
    match r.kind
    case R386None | R386DtpMod32 => WrapSame(a);
    case R386Relative =>
      WrapSame(base);
      SumMoves(a, c.base, base - c.base);
    case R386GlobDat => SymbolAt(c, base, r.sym, false);
    case R386Abs32 =>
      SymbolAt(c, base, r.sym, false);
      SumMoves(a, Symbol(c, r.sym, false).address, Shift(SymbolMoves(c, r.sym, false), c.base, base));
  }

  // A 64-bit absolute RELA entry should store S + A; what it stores is that exactly if A is 0.
  lemma Abs64LosesAddend(c: Context, r: Rela, m: seq<byte>)
    requires Sound(c) && r.kind.X64Abs64? && r.offset + 4 <= |m| && RelaEdit(c, r).Some?
    ensures var s := Symbol(c, r.sym, false).address;
      U32At(Apply(m, PatchOf(r.offset, RelaEdit(c, r))), r.offset) == Wrap(s + r.addend) <==> r.addend == 0
  {
    hide Resolve, PutWord, U32At;
    PutThere(m, r.offset, Symbol(c, r.sym, false).address);
  }
}
