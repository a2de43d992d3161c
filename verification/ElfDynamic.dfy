// Digesting the dynamic section: one pass for the tables, one for the needed libraries.
module ElfDynamic {
  import opened Basics
  import opened LittleEndian
  import opened ElfSymbols
  import opened Permutations

  datatype Tag =
    | Needed | Soname | PltRelSz | PltGot | HashTab | StrTab | SymTab | StrSz | SymEnt | Init | Fini
    | RelTab | RelSz | RelaTab | RelaSz | RelaEnt | PltRelType | JmpRel | OtherTag

  // An entry before the terminating DT_NULL.
  datatype Dyn = Dyn(tag: Tag, val: uint32)

  const DT_RELA: uint32 := 7
  const DT_REL: uint32 := 17
  const SIZEOF_SYM: uint32 := 16
  const SIZEOF_RELA: uint32 := 12

  // Value of the last entry with a tag.
  function ValueOf(es: seq<Dyn>, tag: Tag): Option<uint32>
  {
    if es == [] then None
    else if es[|es| - 1].tag == tag then Some(es[|es| - 1].val)
    else ValueOf(es[..|es| - 1], tag)
  }

  function Val(es: seq<Dyn>, tag: Tag): uint32
  {
    match ValueOf(es, tag)
    case None => 0
    case Some(v) => v
  }

  // The same as an address in the loaded object; 0 stands for NULL.
  function Addr(es: seq<Dyn>, tag: Tag, base: uint32): uint32
  {
    match ValueOf(es, tag)
    case None => 0
    case Some(v) => Wrap(base + v)
  }

  // The entries of needed libraries, in order.
  function NeededOf(es: seq<Dyn>): (r: seq<uint32>)
    ensures |r| <= |es|
  {
    if es == [] then []
    else NeededOf(es[..|es| - 1]) + (if es[|es| - 1].tag.Needed? then [es[|es| - 1].val] else [])
  }

  // What the first pass leaves in an object: the fields of elf_object that locate its tables.
  datatype HashPart = HashPart(hashed: bool, nbuckets: uint32, nchains: uint32, buckets: uint32, chains: uint32)

  datatype Table = Table(address: uint32, size: uint32)

  datatype Fields = Fields(
    hash: HashPart, str: Table, rel: Table, rela: Table, pltrel: Table,
    symtab: uint32, init: uint32, fini: uint32, pltgot: uint32)

  const NO_TABLE := Table(0, 0)
  const ALL_ZERO := Fields(HashPart(false, 0, 0, 0, 0), NO_TABLE, NO_TABLE, NO_TABLE, NO_TABLE, 0, 0, 0, 0)

  // The image's words, and the handle dlopen gives for a name at an address; 0 stands for NULL.
  datatype World = World(word: uint32 -> uint32, open: uint32 -> uint32)

  // The hash table at an address: bucket and chain counts, then the buckets, then the chains.
  function HashAt(address: uint32, w: World): HashPart
  {
    var nbuckets := w.word(address);
    var buckets := Wrap(address as int + 8);
    HashPart(true, nbuckets, w.word(Wrap(address as int + 4)), buckets, Wrap(buckets + 4 * nbuckets as int))
  }

  function HashOf(es: seq<Dyn>, base: uint32, w: World): HashPart
  {
    match ValueOf(es, HashTab)
    case None => HashPart(false, 0, 0, 0, 0)
    case Some(v) => HashAt(Wrap(base + v), w)
  }

  function TableOf(es: seq<Dyn>, address: Tag, size: Tag, base: uint32): Table
  {
    Table(Addr(es, address, base), Val(es, size))
  }

  // Each field by its own tags alone.
  function FieldsOf(es: seq<Dyn>, base: uint32, w: World): Fields
  {
    Fields(HashOf(es, base, w), TableOf(es, StrTab, StrSz, base), TableOf(es, RelTab, RelSz, base),
           TableOf(es, RelaTab, RelaSz, base), TableOf(es, JmpRel, PltRelSz, base),
           Addr(es, SymTab, base), Addr(es, Init, base), Addr(es, Fini, base), Addr(es, PltGot, base))
  }

  // Tags whose repetition is asserted against.  The flag of DT_STRTAB is tested but never set.
  predicate Checked(t: Tag)
  {
    !t.Needed? && !t.Soname? && !t.StrTab? && !t.OtherTag?
  }

  predicate SizesGood(e: Dyn)
  {
    (e.tag.SymEnt? ==> e.val == SIZEOF_SYM) && (e.tag.RelaEnt? ==> e.val == SIZEOF_RELA)
  }

  predicate NoneRepeated(es: seq<Dyn>)
  {
    && (forall i, j :: 0 <= i < j < |es| && Checked(es[i].tag) ==> es[i].tag != es[j].tag)
    && (forall i :: 0 <= i < |es| ==> SizesGood(es[i]))
  }

  class ObjEntry {
    const relocbase: uint32
    const dynamic: seq<Dyn>
    var flags: set<Tag>
    var fields: Fields
    var pltrela: Table
    var dlHandles: array?<uint32>

    constructor (relocbase: uint32, dynamic: seq<Dyn>)
      ensures this.relocbase == relocbase && this.dynamic == dynamic && Fresh()
    {
      this.relocbase, this.dynamic, flags, fields := relocbase, dynamic, {}, ALL_ZERO;
      pltrela, dlHandles := NO_TABLE, null;
    }

    // All zero, as after memset.
    predicate Fresh()
      reads this
    {
      flags == {} && fields == ALL_ZERO && pltrela == NO_TABLE && dlHandles == null
    }

    // The assertions on an entry.
    method Check(e: Dyn) returns (done: Outcome)
      modifies this`flags
      ensures done.Done? <==> !(Checked(e.tag) && e.tag in old(flags)) && SizesGood(e)
      ensures done.Done? ==> flags == old(flags) + (if Checked(e.tag) then {e.tag} else {})
    {
      if Checked(e.tag) {
        if e.tag in flags { return Aborted; }
        if !SizesGood(e) { return Aborted; }
        flags := flags + {e.tag};
      }
      return Done;
    }

    // The field an entry fills.
    method Store(e: Dyn, w: World)
      modifies this`fields
      ensures fields == After(old(fields), e, relocbase, w)
    {
      hide Wrap;
      var address := Wrap(relocbase + e.val);
      var f := fields;
      match e.tag {
        case PltRelSz => f := f.(pltrel := f.pltrel.(size := e.val));
        case PltGot => f := f.(pltgot := address);
        case HashTab =>
          var nbuckets, nchains := w.word(address), w.word(Wrap(address as int + 4));
          var buckets := Wrap(address as int + 8);
          f := f.(hash := HashPart(true, nbuckets, nchains, buckets, Wrap(buckets + 4 * nbuckets as int)));
        case StrTab => f := f.(str := f.str.(address := address));
        case SymTab => f := f.(symtab := address);
        case StrSz => f := f.(str := f.str.(size := e.val));
        case Init => f := f.(init := address);
        case Fini => f := f.(fini := address);
        case RelTab => f := f.(rel := f.rel.(address := address));
        case RelSz => f := f.(rel := f.rel.(size := e.val));
        case RelaTab => f := f.(rela := f.rela.(address := address));
        case RelaSz => f := f.(rela := f.rela.(size := e.val));
        case JmpRel => f := f.(pltrel := f.pltrel.(address := address));
        case _ =>
      }
      fields := f;
    }

    // One entry of the first pass.  pltType is the local that remembers DT_PLTREL, count the one that
    // counts needed libraries.
    method Take(e: Dyn, w: World, pltType0: uint32, count0: nat) returns (done: Outcome, pltType: uint32, count: nat)
      modifies this`flags, this`fields
      ensures done.Done? <==> !(Checked(e.tag) && e.tag in old(flags)) && SizesGood(e)
      ensures done.Done? ==> flags == old(flags) + (if Checked(e.tag) then {e.tag} else {})
      ensures done.Done? ==> fields == After(old(fields), e, relocbase, w)
      ensures done.Done? ==> pltType == (if e.tag.PltRelType? then e.val else pltType0)
      ensures done.Done? ==> count == count0 + (if e.tag.Needed? then 1 else 0)
    {
      hide After, Checked, SizesGood;
      pltType, count := pltType0, count0;
      done := Check(e);
      if done.Aborted? { return; }
      match e.tag {
        case Needed => count := count + 1;
        case PltRelType => pltType := e.val;
        case _ => Store(e, w);
      }
      Other(fields, e, relocbase, w);
    }

    // The first pass.
    method FirstPass(w: World) returns (done: Outcome, pltType: uint32, count: nat)
      requires flags == {} && fields == ALL_ZERO
      modifies this`flags, this`fields
      ensures done.Done? <==> NoneRepeated(dynamic)
      ensures done.Done? ==> fields == FieldsOf(dynamic, relocbase, w)
      ensures done.Done? ==> pltType == PltTypeOf(dynamic) && count == |NeededOf(dynamic)|
    {
      hide FieldsOf, After, Checked, SizesGood, NeededOf;
      pltType, count := DT_REL, 0;
      NothingTaken(relocbase, w);
      for i := 0 to |dynamic|
        invariant NoneRepeated(dynamic[..i])
        invariant forall t :: t in flags <==> Checked(t) && exists j :: 0 <= j < i && dynamic[j].tag == t
        invariant fields == FieldsOf(dynamic[..i], relocbase, w)
        invariant pltType == PltTypeOf(dynamic[..i]) && count == |NeededOf(dynamic[..i])|
      {
        done, pltType, count := Take(dynamic[i], w, pltType, count);
        Repetition(dynamic, i);
        if done.Aborted? { return; }
        assert dynamic[..i + 1] == dynamic[..i] + [dynamic[i]];
        AfterIs(dynamic[..i], dynamic[i], relocbase, w);
        NeededNext(dynamic, i);
      }
      assert dynamic[..|dynamic|] == dynamic;
      done := Done;
    }

    // The second pass: a handle for each needed library, of which count were counted.
    method SecondPass(w: World, count: nat)
      requires count == |NeededOf(dynamic)| && dlHandles == null
      modifies this`dlHandles
      ensures if count == 0 then dlHandles == null
              else dlHandles != null && fresh(dlHandles) && dlHandles[..] == HandlesOf(NeededOf(dynamic), fields.str.address, w)
    {
      hide NeededOf, Wrap;
      if count == 0 { return; }
      var handles := new uint32[count](_ => 0);
      var k := 0;
      NothingTaken(relocbase, w);
      for i := 0 to |dynamic|
        invariant k == |NeededOf(dynamic[..i])| <= count
        invariant handles[..k] == HandlesOf(NeededOf(dynamic[..i]), fields.str.address, w)
      {
        NeededNext(dynamic, i);
        if dynamic[i].tag.Needed? {
          HandlesNext(NeededOf(dynamic[..i]), dynamic[i].val, fields.str.address, w);
          handles[k] := w.open(Wrap(fields.str.address + dynamic[i].val));
          k := k + 1;
        }
      }
      assert dynamic[..|dynamic|] == dynamic;
      dlHandles := handles;
    }

    // The object holds everything that its dynamic section says.
    ghost predicate Digested(w: World)
      reads this, dlHandles
    {
      var o := DigestOf(dynamic, relocbase, w);
      && fields == o.fields && pltrela == o.pltrela
      && (if o.handles == [] then dlHandles == null else dlHandles != null && dlHandles[..] == o.handles)
    }

    method DigestDynamic(w: World) returns (done: Outcome)
      requires Fresh()
      modifies this
      ensures done.Done? <==> NoneRepeated(dynamic)
      ensures done.Done? ==> Digested(w)
    {
      hide FieldsOf, NeededOf, NoneRepeated, HandlesOf, PltTypeOf;
      var pltType, count;
      done, pltType, count := FirstPass(w);
      if done.Aborted? { return; }
      SecondPass(w, count);
      if pltType == DT_RELA {
        pltrela := fields.pltrel;
        fields := fields.(pltrel := NO_TABLE);
      }
    }
  }

  // All fields of an object, from its dynamic section.
  datatype Digest = Digest(fields: Fields, pltrela: Table, handles: seq<uint32>)

  // With DT_PLTREL saying so, the PLT's table is of the other kind.
  function DigestOf(es: seq<Dyn>, base: uint32, w: World): Digest
  {
    var f := FieldsOf(es, base, w);
    var handles := HandlesOf(NeededOf(es), f.str.address, w);
    if PltTypeOf(es) == DT_RELA then Digest(f.(pltrel := NO_TABLE), f.pltrel, handles) else Digest(f, NO_TABLE, handles)
  }

  function HandlesOf(needed: seq<uint32>, strtab: uint32, w: World): (r: seq<uint32>)
    ensures |r| == |needed|
  {
    seq(|needed|, i requires 0 <= i < |needed| => w.open(Wrap(strtab + needed[i])))
  }

  lemma HandlesNext(needed: seq<uint32>, v: uint32, strtab: uint32, w: World)
    ensures HandlesOf(needed + [v], strtab, w) == HandlesOf(needed, strtab, w) + [w.open(Wrap(strtab + v))]
  {
    hide Wrap;
  }

  lemma NeededAppend(es: seq<Dyn>, e: Dyn)
    ensures NeededOf(es + [e]) == NeededOf(es) + (if e.tag.Needed? then [e.val] else [])
  {
    assert (es + [e])[..|es|] == es;
  }

  lemma NeededNext(es: seq<Dyn>, i: nat)
    requires i < |es|
    ensures NeededOf(es[..i + 1]) == NeededOf(es[..i]) + (if es[i].tag.Needed? then [es[i].val] else [])
    ensures |NeededOf(es[..i + 1])| <= |NeededOf(es)|
  {
    hide NeededOf;
    assert es[..i + 1] == es[..i] + [es[i]];
    NeededAppend(es[..i], es[i]);
    NeededPrefix(es, i + 1);
  }

  lemma {:induction false} NeededPrefix(es: seq<Dyn>, n: nat)
    requires n <= |es|
    ensures NeededOf(es[..n]) <= NeededOf(es)
    decreases |es|
  {
    if n < |es| {
      NeededPrefix(es[..|es| - 1], n);
      assert es[..|es| - 1][..n] == es[..n];
    } else {
      assert es[..n] == es;
    }
  }

  function PltTypeOf(es: seq<Dyn>): uint32
  {
    match ValueOf(es, PltRelType)
    case None => DT_REL
    case Some(v) => v
  }

  lemma NothingTaken(base: uint32, w: World)
    ensures FieldsOf([], base, w) == ALL_ZERO && PltTypeOf([]) == DT_REL && NeededOf([]) == []
  {
  }

  // Entries that fill no field.
  lemma Other(f: Fields, e: Dyn, base: uint32, w: World)
    ensures e.tag.Needed? || e.tag.PltRelType? ==> After(f, e, base, w) == f
  {
  }

  // Whether an entry repeats an earlier one.
  lemma Repetition(es: seq<Dyn>, i: nat)
    requires i < |es| && NoneRepeated(es[..i])
    ensures NoneRepeated(es[..i + 1]) <==>
      SizesGood(es[i]) && !(Checked(es[i].tag) && exists j :: 0 <= j < i && es[j].tag == es[i].tag)
    ensures !NoneRepeated(es[..i + 1]) ==> !NoneRepeated(es)
  {
  }

  function TableAfter(t: Table, e: Dyn, address: Tag, size: Tag, base: uint32): Table
  {
    if e.tag == address then t.(address := Wrap(base + e.val))
    else if e.tag == size then t.(size := e.val)
    else t
  }

  function AddrAfter(a: uint32, e: Dyn, tag: Tag, base: uint32): uint32
  {
    if e.tag == tag then Wrap(base + e.val) else a
  }

  // The fields after one more entry.
  function After(f: Fields, e: Dyn, base: uint32, w: World): Fields
  {
    Fields(if e.tag.HashTab? then HashAt(Wrap(base + e.val), w) else f.hash,
           TableAfter(f.str, e, StrTab, StrSz, base), TableAfter(f.rel, e, RelTab, RelSz, base),
           TableAfter(f.rela, e, RelaTab, RelaSz, base), TableAfter(f.pltrel, e, JmpRel, PltRelSz, base),
           AddrAfter(f.symtab, e, SymTab, base), AddrAfter(f.init, e, Init, base), AddrAfter(f.fini, e, Fini, base),
           AddrAfter(f.pltgot, e, PltGot, base))
  }

  lemma ValueAfter(es: seq<Dyn>, e: Dyn, t: Tag)
    ensures ValueOf(es + [e], t) == if e.tag == t then Some(e.val) else ValueOf(es, t)
  {
    assert (es + [e])[..|es|] == es;
  }

  lemma TagAfter(es: seq<Dyn>, e: Dyn, t: Tag, base: uint32)
    ensures ValueOf(es + [e], t) == if e.tag == t then Some(e.val) else ValueOf(es, t)
    ensures Addr(es + [e], t, base) == AddrAfter(Addr(es, t, base), e, t, base)
    ensures Val(es + [e], t) == if e.tag == t then e.val else Val(es, t)
  {
    hide Wrap, ValueOf;
    ValueAfter(es, e, t);
  }

  lemma TablePart(es: seq<Dyn>, e: Dyn, address: Tag, size: Tag, base: uint32)
    requires address != size
    ensures TableOf(es + [e], address, size, base) == TableAfter(TableOf(es, address, size, base), e, address, size, base)
  {
    hide Wrap, Addr, Val, ValueOf;
    TagAfter(es, e, address, base);
    TagAfter(es, e, size, base);
  }

  // Taking the entries one by one gives each field by its own tags.
  lemma AfterIs(es: seq<Dyn>, e: Dyn, base: uint32, w: World)
    ensures FieldsOf(es + [e], base, w) == After(FieldsOf(es, base, w), e, base, w)
  {
    TagAfter(es, e, HashTab, base);
    assert HashOf(es + [e], base, w) == if e.tag.HashTab? then HashAt(Wrap(base + e.val), w) else HashOf(es, base, w);
    hide Wrap, Addr, Val, ValueOf, TableOf, TableAfter, AddrAfter, HashOf, HashAt;
    TablePart(es, e, StrTab, StrSz, base);
    TablePart(es, e, RelTab, RelSz, base);
    TablePart(es, e, RelaTab, RelaSz, base);
    TablePart(es, e, JmpRel, PltRelSz, base);
    TagAfter(es, e, SymTab, base);
    TagAfter(es, e, Init, base);
    TagAfter(es, e, Fini, base);
    TagAfter(es, e, PltGot, base);
  }

  // Tags that may be repeated: that of needed libraries, and all that neither pass takes anything from.
  predicate Repeatable(t: Tag) { t.Needed? || t.Soname? || t.OtherTag? }

  // No two entries that fill a field share a tag.
  predicate Distinct(es: seq<Dyn>)
  {
    forall i, j :: 0 <= i < j < |es| && es[i].tag == es[j].tag ==> Repeatable(es[i].tag)
  }

  lemma {:induction false} ValueFound(es: seq<Dyn>, t: Tag)
    ensures ValueOf(es, t).Some? ==> Dyn(t, ValueOf(es, t).value) in es
    ensures ValueOf(es, t).None? ==> forall e :: e in es ==> e.tag != t
    decreases |es|
  {
    if es != [] && es[|es| - 1].tag != t {
      ValueFound(es[..|es| - 1], t);
    }
  }

  lemma ValuePermuted(es: seq<Dyn>, ds: seq<Dyn>, t: Tag)
    requires Distinct(es) && multiset(es) == multiset(ds) && !Repeatable(t)
    ensures ValueOf(ds, t) == ValueOf(es, t)
  {
    hide ValueOf;
    ValueFound(es, t);
    ValueFound(ds, t);
    if ValueOf(ds, t).Some? {
      assert Dyn(t, ValueOf(ds, t).value) in multiset(ds);
      assert Dyn(t, ValueOf(ds, t).value) in es;
    }
    if ValueOf(es, t).Some? {
      assert Dyn(t, ValueOf(es, t).value) in multiset(es);
      assert Dyn(t, ValueOf(es, t).value) in ds;
    }
  }

  lemma DistinctPermuted(es: seq<Dyn>, ds: seq<Dyn>)
    requires Distinct(es) && multiset(es) == multiset(ds)
    ensures Distinct(ds)
  {
    forall i, j | 0 <= i < j < |ds| && ds[i].tag == ds[j].tag
      ensures Repeatable(ds[i].tag)
    {
      if ds[i] == ds[j] {
        CountTwo(ds, i, j);
        var a, b := Twice(es, ds[i]);
      } else {
        assert ds[i] in multiset(es) && ds[j] in multiset(es);
        var a :| 0 <= a < |es| && es[a] == ds[i];
        var b :| 0 <= b < |es| && es[b] == ds[j];
      }
    }
  }

  // The order of the dynamic section does not matter, but for that of the needed libraries: loading
  // stops for both orders or for neither, and every field of the object is the same.
  lemma DigestOrderFree(es: seq<Dyn>, ds: seq<Dyn>, base: uint32, w: World)
    requires Distinct(es) && multiset(es) == multiset(ds) && NeededOf(es) == NeededOf(ds)
    ensures NoneRepeated(es) <==> NoneRepeated(ds)
    ensures DigestOf(es, base, w) == DigestOf(ds, base, w)
  {
    FieldsPermuted(es, ds, base, w);
    DistinctPermuted(es, ds);
    SizesPermuted(es, ds);
    hide SizesGood, FieldsOf, PltTypeOf, HandlesOf, NeededOf;
  }

  lemma FieldsPermuted(es: seq<Dyn>, ds: seq<Dyn>, base: uint32, w: World)
    requires Distinct(es) && multiset(es) == multiset(ds)
    ensures FieldsOf(es, base, w) == FieldsOf(ds, base, w) && PltTypeOf(es) == PltTypeOf(ds)
  {
    hide ValueOf, Wrap, HashAt, Distinct;
    forall t: Tag | !Repeatable(t)
      ensures ValueOf(ds, t) == ValueOf(es, t)
    {
      ValuePermuted(es, ds, t);
    }
  }

  lemma SizesPermuted(es: seq<Dyn>, ds: seq<Dyn>)
    requires multiset(es) == multiset(ds)
    ensures (forall i :: 0 <= i < |es| ==> SizesGood(es[i])) <==> (forall i :: 0 <= i < |ds| ==> SizesGood(ds[i]))
  {
    hide SizesGood;
    forall i | 0 <= i < |es|
      ensures es[i] in ds
    {
      assert es[i] in multiset(es);
    }
    forall i | 0 <= i < |ds|
      ensures ds[i] in es
    {
      assert ds[i] in multiset(ds);
    }
  }

  // The words of a hash table as the System V ABI lays it out: the number of buckets, the number of chain
  // entries, the buckets, the chain entries.
  function HashWords(buckets: seq<uint32>, chains: seq<uint32>): seq<uint32>
    requires |buckets| < 0x1_0000_0000 && |chains| < 0x1_0000_0000
  {
    [|buckets|, |chains|] + buckets + chains
  }

  // The image has these words one after another.
  predicate WordsAt(w: World, address: uint32, words: seq<uint32>)
  {
    forall k :: 0 <= k < |words| ==> w.word((address + 4 * k) % 0x1_0000_0000) == words[k]
  }

  function WordsFrom(w: World, address: uint32, n: nat): (r: seq<uint32>)
    ensures |r| == n && forall k :: 0 <= k < n ==> r[k] == w.word((address + 4 * k) % 0x1_0000_0000)
  {
    seq(n, k requires 0 <= k < n => w.word((address + 4 * k) % 0x1_0000_0000))
  }

  // What a lookup has of an object: the buckets and chains that the hash part locates.
  function TablesOf(h: HashPart, w: World, symtab: seq<Sym>): Tables
  {
    if h.hashed then Tables(true, WordsFrom(w, h.buckets, h.nbuckets), WordsFrom(w, h.chains, h.nchains), symtab)
    else Tables(false, [], [], symtab)
  }

  lemma WordBehind(w: World, address: uint32, words: seq<uint32>, from: nat, k: nat)
    requires WordsAt(w, address, words) && from + k < |words|
    ensures w.word(((address + 4 * from) % 0x1_0000_0000 + 4 * k) % 0x1_0000_0000) == words[from + k]
  {
    WrapPlus(address + 4 * from, 4 * k);
    assert address + 4 * from + 4 * k == address + 4 * (from + k);
  }

  // A hash table written like that is read back, bucket by bucket and chain entry by chain entry.
  lemma HashReadBack(w: World, address: uint32, buckets: seq<uint32>, chains: seq<uint32>, symtab: seq<Sym>)
    requires |buckets| < 0x1_0000_0000 && |chains| < 0x1_0000_0000 && WordsAt(w, address, HashWords(buckets, chains))
    ensures TablesOf(HashAt(address, w), w, symtab) == Tables(true, buckets, chains, symtab)
  {
    hide WordsAt;
    var words, n := HashWords(buckets, chains), |buckets|;
    var h := HashAt(address, w);
    WordBehind(w, address, words, 0, 0);
    WordBehind(w, address, words, 0, 1);
    assert h.nbuckets == n && h.nchains == |chains|;
    forall k | 0 <= k < n
      ensures WordsFrom(w, h.buckets, n)[k] == buckets[k]
    {
      WordBehind(w, address, words, 2, k);
    }
    WrapPlus(address + 8, 4 * n);
    forall k | 0 <= k < |chains|
      ensures WordsFrom(w, h.chains, |chains|)[k] == chains[k]
    {
      WordBehind(w, address, words, 2 + n, k);
    }
  }

  lemma ValueOnly(es: seq<Dyn>, e: Dyn)
    requires Distinct(es) && e in es && !Repeatable(e.tag)
    ensures ValueOf(es, e.tag) == Some(e.val)
  {
    hide ValueOf, Repeatable;
    ValueFound(es, e.tag);
    var d := Dyn(e.tag, ValueOf(es, e.tag).value);
    assert d in es;
    var i :| 0 <= i < |es| && es[i] == e;
    var j :| 0 <= j < |es| && es[j] == d;
  }

  // Where the value of an entry goes: an address in the loaded object, or a size.
  predicate Filled(d: Digest, e: Dyn, at: uint32, w: World)
  {
    match e.tag
    case StrTab => d.fields.str.address == at
    case StrSz => d.fields.str.size == e.val
    case SymTab => d.fields.symtab == at
    case RelTab => d.fields.rel.address == at
    case RelSz => d.fields.rel.size == e.val
    case RelaTab => d.fields.rela.address == at
    case RelaSz => d.fields.rela.size == e.val
    case JmpRel => (d.fields.pltrel.address == at && d.pltrela == NO_TABLE) || (d.pltrela.address == at && d.fields.pltrel == NO_TABLE)
    case PltRelSz => (d.fields.pltrel.size == e.val && d.pltrela == NO_TABLE) || (d.pltrela.size == e.val && d.fields.pltrel == NO_TABLE)
    case PltGot => d.fields.pltgot == at
    case Init => d.fields.init == at
    case Fini => d.fields.fini == at
    case HashTab => d.fields.hash == HashAt(at, w) && d.fields.hash.hashed
    case PltRelType => (e.val == 7 ==> d.fields.pltrel == NO_TABLE) && (e.val != 7 ==> d.pltrela == NO_TABLE)
    case _ => true
  }

  // Every entry of a section whose tags do not repeat fills its own field; and entries of other sizes than
  // those of the i386 ABI stop loading.
  lemma EachFills(es: seq<Dyn>, base: uint32, w: World, e: Dyn)
    requires Distinct(es) && e in es
    ensures Filled(DigestOf(es, base, w), e, (base + e.val) % 0x1_0000_0000, w)
    ensures NoneRepeated(es) ==> (e.tag.SymEnt? ==> e.val == 16) && (e.tag.RelaEnt? ==> e.val == 12)
  {
    hide Filled, DigestOf, Addr, Val, HashOf, PltTypeOf, HashAt;
    if !Repeatable(e.tag) {
      ValueOnly(es, e);
      ValueGives(es, e, base, w);
      FieldFilled(es, base, w, e);
    } else {
      NothingFilled(DigestOf(es, base, w), e, (base + e.val) % 0x1_0000_0000, w);
    }
  }

  lemma ValueGives(es: seq<Dyn>, e: Dyn, base: uint32, w: World)
    requires ValueOf(es, e.tag) == Some(e.val)
    ensures var at := (base + e.val) % 0x1_0000_0000;
      && Addr(es, e.tag, base) == at && Val(es, e.tag) == e.val
      && (e.tag.HashTab? ==> HashOf(es, base, w) == HashAt(at, w) && HashAt(at, w).hashed)
      && (e.tag.PltRelType? ==> PltTypeOf(es) == e.val)
  {
    hide ValueOf;
  }

  lemma FieldFilled(es: seq<Dyn>, base: uint32, w: World, e: Dyn)
    requires var at := (base + e.val) % 0x1_0000_0000;
      && Addr(es, e.tag, base) == at && Val(es, e.tag) == e.val
      && (e.tag.HashTab? ==> HashOf(es, base, w) == HashAt(at, w) && HashAt(at, w).hashed)
      && (e.tag.PltRelType? ==> PltTypeOf(es) == e.val)
    ensures Filled(DigestOf(es, base, w), e, (base + e.val) % 0x1_0000_0000, w)
  {
    hide Addr, Val, HashOf, PltTypeOf, HashAt, NeededOf, HandlesOf;
  }

  lemma NothingFilled(d: Digest, e: Dyn, at: uint32, w: World)
    requires Repeatable(e.tag)
    ensures Filled(d, e, at, w)
  {
  }

  // A repeated DT_STRTAB goes through, and the last one counts.
  lemma StrTabTwice(v: uint32, w: uint32)
    ensures var es := [Dyn(StrTab, v), Dyn(StrTab, w)];
      NoneRepeated(es) && ValueOf(es, StrTab) == Some(w)
  {
  }
}
