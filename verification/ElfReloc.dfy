// Relocation of a loaded object, and the binding of its PLT slots at load time and at first call.
module ElfReloc {
  import opened Basics
  import opened LittleEndian
  import opened ElfSymbols
  import opened ElfEdits

  datatype RelType = R386None | R386GlobDat | R386Relative | R386Abs32 | R386DtpMod32 | R386Other

  datatype Rel = Rel(offset: nat, kind: RelType, sym: nat)

  datatype RelaType = X64Abs64 | X64GlobDat | X64Relative | X64Other

  datatype Rela = Rela(offset: nat, kind: RelaType, sym: nat, addend: uint32)

  // An entry of either PLT table; one without an addend counts as having addend 0.
  datatype Plt = Plt(offset: nat, sym: nat, addend: uint32)

  // What the loader goes by: the object's tables, where it is loaded, and the rest of the process.
  datatype Context = Context(tables: Tables, base: uint32, env: Env)

  predicate Sound(c: Context)
  {
    Shaped(c.tables) && (c.tables.hashed ==> Acyclic(c.tables))
  }

  function Symbol(c: Context, sym: nat, inPlt: bool): Symdef
    requires Sound(c)
  {
    Meaning(Resolve(c.tables, c.base, c.env, sym, inPlt), c.base)
  }

  // The fixup table has something under the name of a symbol.
  predicate HasFixup(c: Context, sym: nat, inPlt: bool)
    requires Sound(c)
  {
    ByName(c.tables, sym) && c.env.fixup(c.tables.symtab[sym].name, inPlt) != 0
  }

  lemma FixupFirst(c: Context, sym: nat, inPlt: bool)
    requires Sound(c) && HasFixup(c, sym, inPlt)
    ensures Symbol(c, sym, inPlt) == Address(c.env.fixup(c.tables.symtab[sym].name, inPlt))
  {
    ResolvedInOrder(c.tables, c.base, c.env, sym, inPlt);
    hide Resolve;
  }

  // The edit an entry asks for; none when loading stops there.
  function RelEdit(c: Context, r: Rel): Option<Edit>
    requires Sound(c)
  {
    match r.kind
    case R386None | R386DtpMod32 => Some(Keep)
    case R386Relative => Some(Plus(c.base))
    case R386GlobDat =>
      var s := Symbol(c, r.sym, false);
      if s.Address? then Some(Set(s.address)) else None
    case R386Abs32 =>
      var s := Symbol(c, r.sym, false);
      if s.Address? then Some(Plus(s.address)) else None
    case R386Other => None
  }

  function RelaEdit(c: Context, r: Rela): Option<Edit>
    requires Sound(c)
  {
    match r.kind
    case X64Abs64 | X64GlobDat =>
      var s := Symbol(c, r.sym, false);
      if s.Address? then Some(Set(s.address)) else None
    case X64Relative => Some(Set(Wrap(c.base + r.addend)))
    case X64Other => Some(Keep)
  }

  function BindEdit(c: Context, p: Plt): Option<Edit>
    requires Sound(c)
  {
    match Symbol(c, p.sym, true)
    case Address(s) => Some(Set(Wrap(s + p.addend)))
    case Null => Some(Keep)
    case Asserted => None
  }

  function PatchOf(offset: nat, e: Option<Edit>): Patch
  {
    Patch(offset, if e.Some? then e.value else Keep)
  }

  function RelPatches(c: Context, rs: seq<Rel>): (ps: seq<Patch>)
    requires Sound(c)
    ensures |ps| == |rs| && forall i :: 0 <= i < |rs| ==> ps[i] == PatchOf(rs[i].offset, RelEdit(c, rs[i]))
  {
    seq(|rs|, i requires 0 <= i < |rs| => PatchOf(rs[i].offset, RelEdit(c, rs[i])))
  }

  function RelaPatches(c: Context, rs: seq<Rela>): (ps: seq<Patch>)
    requires Sound(c)
    ensures |ps| == |rs| && forall i :: 0 <= i < |rs| ==> ps[i] == PatchOf(rs[i].offset, RelaEdit(c, rs[i]))
  {
    seq(|rs|, i requires 0 <= i < |rs| => PatchOf(rs[i].offset, RelaEdit(c, rs[i])))
  }

  function RebasePatches(base: uint32, es: seq<Plt>): (ps: seq<Patch>)
    ensures |ps| == |es| && forall i :: 0 <= i < |es| ==> ps[i] == Patch(es[i].offset, Plus(base))
  {
    seq(|es|, i requires 0 <= i < |es| => Patch(es[i].offset, Plus(base)))
  }

  function BindPatches(c: Context, es: seq<Plt>): (ps: seq<Patch>)
    requires Sound(c)
    ensures |ps| == |es| && forall i :: 0 <= i < |es| ==> ps[i] == PatchOf(es[i].offset, BindEdit(c, es[i]))
  {
    seq(|es|, i requires 0 <= i < |es| => PatchOf(es[i].offset, BindEdit(c, es[i])))
  }

  predicate RelsGood(c: Context, rs: seq<Rel>)
    requires Sound(c)
  {
    forall i :: 0 <= i < |rs| ==> RelEdit(c, rs[i]).Some?
  }

  predicate RelasGood(c: Context, rs: seq<Rela>)
    requires Sound(c)
  {
    forall i :: 0 <= i < |rs| ==> RelaEdit(c, rs[i]).Some?
  }

  predicate BindsGood(c: Context, es: seq<Plt>)
    requires Sound(c)
  {
    forall i :: 0 <= i < |es| ==> BindEdit(c, es[i]).Some?
  }

  // What a first call does to the image: it stores the address and no addend.
  function Fixup(c: Context, m: seq<byte>, e: Plt): (r: seq<byte>)
    requires Sound(c) && e.offset + 4 <= |m|
    ensures |r| == |m|
  {
    var s := Symbol(c, e.sym, true);
    if s.Address? then PutWord(m, e.offset, s.address) else m
  }

  predicate Within(size: nat, es: seq<Plt>)
  {
    forall i :: 0 <= i < |es| ==> es[i].offset + 4 <= size
  }

  // An object's relocation tables, and the offset of its global offset table if it has one.
  datatype Relocs = Relocs(rela: seq<Rela>, pltrela: seq<Plt>, rel: seq<Rel>, pltrel: Option<seq<Plt>>, pltgot: Option<nat>)

  function PltRel(t: Relocs): seq<Plt> { if t.pltrel.Some? then t.pltrel.value else [] }

  predicate RelsFit(size: nat, rs: seq<Rel>)
  {
    forall i :: 0 <= i < |rs| ==> rs[i].offset + 4 <= size
  }

  predicate RelasFit(size: nat, rs: seq<Rela>)
  {
    forall i :: 0 <= i < |rs| ==> rs[i].offset + 4 <= size
  }

  // Every word named lies in the reservation.
  predicate RelocsFit(size: nat, t: Relocs)
  {
    && RelsFit(size, t.rel) && RelasFit(size, t.rela) && Within(size, t.pltrela) && Within(size, PltRel(t))
    && (t.pltgot.Some? ==> t.pltgot.value + 12 <= size)
  }

  // The words the PLT's first entry goes through.
  function GotPatches(t: Relocs, self: uint32, start: uint32): seq<Patch>
  {
    if t.pltgot.None? then []
    else [Patch(t.pltgot.value + 8, Set(start)), Patch(t.pltgot.value + 4, Set(self))]
  }

  // The loader's whole pass over the image.
  function LoadPatches(c: Context, t: Relocs, self: uint32, start: uint32): seq<Patch>
    requires Sound(c)
  {
    RelaPatches(c, t.rela) + RebasePatches(c.base, t.pltrela) + BindPatches(c, t.pltrela)
    + RelPatches(c, t.rel) + RebasePatches(c.base, PltRel(t)) + BindPatches(c, PltRel(t))
    + GotPatches(t, self, start)
  }

  // No entry stops loading.
  predicate LoadGood(c: Context, t: Relocs)
    requires Sound(c)
  {
    RelasGood(c, t.rela) && BindsGood(c, t.pltrela) && RelsGood(c, t.rel) && BindsGood(c, PltRel(t))
  }

  predicate Stands(c: Context, sym: nat, inPlt: bool)
    requires Sound(c)
  {
    Symbol(c, sym, inPlt).Address?
  }

  // What stops loading: a REL type not known, a symbol without an address, and for a PLT slot one that
  // the lookup asserts about.
  lemma StopsExactly(c: Context, t: Relocs)
    requires Sound(c)
    ensures LoadGood(c, t) <==>
      && (forall i :: 0 <= i < |t.rel| ==> !t.rel[i].kind.R386Other?)
      && (forall i :: 0 <= i < |t.rel| && (t.rel[i].kind.R386GlobDat? || t.rel[i].kind.R386Abs32?) ==> Stands(c, t.rel[i].sym, false))
      && (forall i :: 0 <= i < |t.rela| && (t.rela[i].kind.X64GlobDat? || t.rela[i].kind.X64Abs64?) ==> Stands(c, t.rela[i].sym, false))
      && (forall i :: 0 <= i < |t.pltrela| ==> !Symbol(c, t.pltrela[i].sym, true).Asserted?)
      && (t.pltrel.Some? ==> forall i :: 0 <= i < |t.pltrel.value| ==> !Symbol(c, t.pltrel.value[i].sym, true).Asserted?)
  {
    hide Sound, Symbol;
    assert PltRel(t) == if t.pltrel.Some? then t.pltrel.value else [];
  }

  lemma GotFits(size: nat, t: Relocs, self: uint32, start: uint32)
    requires RelocsFit(size, t)
    ensures Fits(size, GotPatches(t, self, start))
  {
  }

  class ElfObject {
    // The reservation the object is loaded in; offsets count from relocbase.
    const mem: array<byte>
    const context: Context
    const relocs: Relocs

    constructor (mem: array<byte>, context: Context, relocs: Relocs)
      ensures this.mem == mem && this.context == context && this.relocs == relocs
    {
      this.mem, this.context, this.relocs := mem, context, relocs;
    }

    // The tables are fit for lookups, and name only words of the reservation.
    predicate Valid() { Sound(context) && RelocsFit(mem.Length, relocs) }

    // *where
    method Get(o: nat) returns (w: uint32)
      requires o + 4 <= mem.Length
      ensures w == U32At(mem[..], o)
    {
      w := Word32(mem[o], mem[o + 1], mem[o + 2], mem[o + 3]);
    }

    // *where = w
    method Put(o: nat, w: uint32)
      requires o + 4 <= mem.Length
      modifies mem
      ensures mem[..] == PutWord(old(mem[..]), o, w)
    {
      hide Byte0, Byte1, Byte2, Byte3;
      mem[o] := Byte0(w);
      mem[o + 1] := Byte1(w);
      mem[o + 2] := Byte2(w);
      mem[o + 3] := Byte3(w);
      assert mem[..o] == old(mem[..o]) && mem[o + 4..] == old(mem[o + 4..]);
      assert mem[..] == mem[..o] + mem[o..o + 4] + mem[o + 4..];
      assert mem[o..o + 4] == Bytes32(w);
    }

    // One REL entry.
    method DoRel(r: Rel) returns (done: Outcome)
      requires Sound(context) && r.offset + 4 <= mem.Length
      modifies mem
      ensures done.Done? <==> RelEdit(context, r).Some?
      ensures done.Done? ==> mem[..] == Apply(old(mem[..]), PatchOf(r.offset, RelEdit(context, r)))
    {
      hide Resolve, Bytes32, Word32;
      match r.kind {
        case R386None | R386DtpMod32 =>
          PutSame(mem[..], r.offset);
        case R386GlobDat =>
          var def := FindSymdef(context.tables, context.base, context.env, r.sym, false);
          if !def.Address? { return Aborted; }
          Put(r.offset, def.address);
        case R386Relative =>
          var w := Get(r.offset);
          Put(r.offset, Wrap(w + context.base));
        case R386Abs32 =>
          var def := FindSymdef(context.tables, context.base, context.env, r.sym, false);
          if !def.Address? { return Aborted; }
          var w := Get(r.offset);
          Put(r.offset, Wrap(w + def.address));
        case R386Other =>
          return Aborted;
      }
      return Done;
    }

    // One RELA entry; R_X86_64_64 runs on into R_X86_64_GLOB_DAT.
    method DoRela(r: Rela) returns (done: Outcome)
      requires Sound(context) && r.offset + 4 <= mem.Length
      modifies mem
      ensures done.Done? <==> RelaEdit(context, r).Some?
      ensures done.Done? ==> mem[..] == Apply(old(mem[..]), PatchOf(r.offset, RelaEdit(context, r)))
    {
      hide Resolve, Bytes32, Word32;
      ghost var m := mem[..];
      if r.kind.X64Abs64? {
        var def := FindSymdef(context.tables, context.base, context.env, r.sym, false);
        if !def.Address? { return Aborted; }
        Put(r.offset, Wrap(def.address + r.addend));
        PutTwice(m, r.offset, Wrap(def.address + r.addend), def.address);
      }
      if r.kind.X64Abs64? || r.kind.X64GlobDat? {
        var def := FindSymdef(context.tables, context.base, context.env, r.sym, false);
        if !def.Address? { return Aborted; }
        Put(r.offset, def.address);
      } else if r.kind.X64Relative? {
        Put(r.offset, Wrap(context.base + r.addend));
      } else {
        PutSame(mem[..], r.offset);
      }
      return Done;
    }

    method LoadRela() returns (done: Outcome)
      requires Valid()
      modifies mem
      ensures done.Done? <==> RelasGood(context, relocs.rela)
      ensures done.Done? ==> mem[..] == ApplyAll(old(mem[..]), RelaPatches(context, relocs.rela))
    {
      hide RelaEdit, Apply, Sound;
      ghost var ps := RelaPatches(context, relocs.rela);
      for i := 0 to |relocs.rela|
        invariant mem[..] == ApplyAll(old(mem[..]), ps[..i])
        invariant RelasGood(context, relocs.rela[..i])
      {
        ghost var m := mem[..];
        done := DoRela(relocs.rela[i]);
        if done.Aborted? { return; }
        ApplyNext(old(mem[..]), ps, i);
      }
      assert ps[..|relocs.rela|] == ps && relocs.rela[..|relocs.rela|] == relocs.rela;
      return Done;
    }

    method LoadRel() returns (done: Outcome)
      requires Valid()
      modifies mem
      ensures done.Done? <==> RelsGood(context, relocs.rel)
      ensures done.Done? ==> mem[..] == ApplyAll(old(mem[..]), RelPatches(context, relocs.rel))
    {
      hide RelEdit, Apply, Sound;
      ghost var ps := RelPatches(context, relocs.rel);
      for i := 0 to |relocs.rel|
        invariant mem[..] == ApplyAll(old(mem[..]), ps[..i])
        invariant RelsGood(context, relocs.rel[..i])
      {
        done := DoRel(relocs.rel[i]);
        if done.Aborted? { return; }
        ApplyNext(old(mem[..]), ps, i);
      }
      assert ps[..|relocs.rel|] == ps && relocs.rel[..|relocs.rel|] == relocs.rel;
      return Done;
    }

    // Adds the load address to every stub address of a PLT table.
    method RebasePlt(es: seq<Plt>)
      requires Within(mem.Length, es)
      modifies mem
      ensures mem[..] == ApplyAll(old(mem[..]), RebasePatches(context.base, es))
    {
      hide Bytes32, Word32, PutWord;
      ghost var ps := RebasePatches(context.base, es);
      for i := 0 to |es|
        invariant mem[..] == ApplyAll(old(mem[..]), ps[..i])
      {
        ghost var m := mem[..];
        var w := Get(es[i].offset);
        Put(es[i].offset, Wrap(w + context.base));
        assert mem[..] == Apply(m, ps[i]);
        ApplyNext(old(mem[..]), ps, i);
      }
      assert ps[..|es|] == ps;
    }

    // Stores the address of every symbol of a PLT table that has one.
    method BindPlt(es: seq<Plt>) returns (done: Outcome)
      requires Sound(context) && Within(mem.Length, es)
      modifies mem
      ensures done.Done? <==> BindsGood(context, es)
      ensures done.Done? ==> mem[..] == ApplyAll(old(mem[..]), BindPatches(context, es))
    {
      hide Bytes32, Word32, PutWord, Resolve, U32At;
      ghost var ps := BindPatches(context, es);
      for i := 0 to |es|
        invariant mem[..] == ApplyAll(old(mem[..]), ps[..i])
        invariant BindsGood(context, es[..i])
      {
        ghost var m := mem[..];
        PutSame(m, es[i].offset);
        var def := FindSymdef(context.tables, context.base, context.env, es[i].sym, true);
        if def.Asserted? { return Aborted; }
        if def.Address? {
          Put(es[i].offset, Wrap(def.address + es[i].addend));
        }
        assert mem[..] == Apply(m, ps[i]);
        ApplyNext(old(mem[..]), ps, i);
      }
      assert ps[..|es|] == ps && es[..|es|] == es;
      return Done;
    }

    // The words the PLT's first entry goes through.
    method SetGot(self: uint32, start: uint32)
      requires Valid()
      modifies mem
      ensures mem[..] == ApplyAll(old(mem[..]), GotPatches(relocs, self, start))
      ensures relocs.pltgot.Some? ==> U32At(mem[..], relocs.pltgot.value + 4) == self && U32At(mem[..], relocs.pltgot.value + 8) == start
    {
      hide PutWord, U32At;
      ghost var ps := GotPatches(relocs, self, start);
      ghost var m := mem[..];
      if relocs.pltgot.Some? {
        Put(relocs.pltgot.value + 8, start);
        PutThere(m, relocs.pltgot.value + 8, start);
        ghost var half := mem[..];
        Put(relocs.pltgot.value + 4, self);
        PutThere(half, relocs.pltgot.value + 4, self);
        PutElsewhere(half, relocs.pltgot.value + 4, self, relocs.pltgot.value + 8);
        assert ps == [ps[0], ps[1]] && ps[..1] == [ps[0]] && ps[..1][..0] == [];
        assert ApplyAll(m, ps[..1]) == Apply(m, ps[0]);
      }
    }

    method DlReloc(self: uint32, start: uint32) returns (done: Outcome)
      requires Valid()
      modifies mem
      ensures done.Done? <==> LoadGood(context, relocs)
      ensures done.Done? ==> Fits(mem.Length, LoadPatches(context, relocs, self, start))
      ensures done.Done? ==> mem[..] == ApplyAll(old(mem[..]), LoadPatches(context, relocs, self, start))
    {
      hide RelasGood, BindsGood, RelsGood, RelaPatches, RelPatches, BindPatches, RebasePatches, GotPatches, Sound, ApplyAll;
      ghost var m := mem[..];
      done := LoadRela();
      if done.Aborted? { return; }
      ghost var ps := RelaPatches(context, relocs.rela);
      RebasePlt(relocs.pltrela);
      ApplyAppend(m, ps, RebasePatches(context.base, relocs.pltrela));
      ps := ps + RebasePatches(context.base, relocs.pltrela);
      done := BindPlt(relocs.pltrela);
      if done.Aborted? { return; }
      ApplyAppend(m, ps, BindPatches(context, relocs.pltrela));
      ps := ps + BindPatches(context, relocs.pltrela);
      done := LoadRel();
      if done.Aborted? { return; }
      ApplyAppend(m, ps, RelPatches(context, relocs.rel));
      ps := ps + RelPatches(context, relocs.rel);
      RebasePlt(PltRel(relocs));
      ApplyAppend(m, ps, RebasePatches(context.base, PltRel(relocs)));
      ps := ps + RebasePatches(context.base, PltRel(relocs));
      done := BindPlt(PltRel(relocs));
      if done.Aborted? { return; }
      ApplyAppend(m, ps, BindPatches(context, PltRel(relocs)));
      ps := ps + BindPatches(context, PltRel(relocs));
      SetGot(self, start);
      GotFits(mem.Length, relocs, self, start);
      ApplyAppend(m, ps, GotPatches(relocs, self, start));
    }

    // _rtld_fixup: called through the stub of the PLT entry at byte reloff of its table, of 8-byte REL or
    // 12-byte RELA entries.  Anything but an address ends the program.
    method RtldFixup(reloff: nat) returns (r: Symdef)
      requires Valid()
      requires if relocs.pltrel.Some? then reloff % 8 == 0 && reloff / 8 < |relocs.pltrel.value| else reloff % 12 == 0 && reloff / 12 < |relocs.pltrela|
      modifies mem
      ensures var e := if relocs.pltrel.Some? then relocs.pltrel.value[reloff / 8] else relocs.pltrela[reloff / 12];
        && r == Symbol(context, e.sym, true)
        && e.offset + 4 <= mem.Length
        && mem[..] == Fixup(context, old(mem[..]), e)
        && (r.Address? ==> U32At(mem[..], e.offset) == r.address)
        && (HasFixup(context, e.sym, true) ==> r == Address(context.env.fixup(context.tables.symtab[e.sym].name, true)))
    {
      hide Resolve, Bytes32, U32At;
      var rel: Plt;
      if relocs.pltrel.Some? {
        rel := relocs.pltrel.value[reloff / 8];
        assert rel in PltRel(relocs);
      } else {
        rel := relocs.pltrela[reloff / 12];
      }
      r := FindSymdef(context.tables, context.base, context.env, rel.sym, true);
      if r.Address? {
        PutThere(mem[..], rel.offset, r.address);
        Put(rel.offset, r.address);
      }
    }
  }

  lemma ApplyNext(m: seq<byte>, ps: seq<Patch>, i: nat)
    requires Fits(|m|, ps) && i < |ps|
    ensures ApplyAll(m, ps[..i + 1]) == Apply(ApplyAll(m, ps[..i]), ps[i])
  {
    hide Apply;
    var qs := ps[..i + 1];
    assert qs[..|qs| - 1] == ps[..i] && qs[|qs| - 1] == ps[i];
  }

  lemma PutTwice(m: seq<byte>, o: nat, v: uint32, w: uint32)
    requires o + 4 <= |m|
    ensures PutWord(PutWord(m, o, v), o, w) == PutWord(m, o, w)
  {
    hide Bytes32;
  }
}
