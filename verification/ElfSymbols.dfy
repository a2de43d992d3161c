// Symbol lookup through the hash table of the System V ABI, and the resolution of a reference.
module ElfSymbols {
  import opened Basics
  import opened LittleEndian
  import opened ElfHash

  datatype SymType = NoType | Object | Func | Section | Tls | OtherType
  datatype Bind = Local | Global | Weak | OtherBind

  datatype Sym = Sym(name: Name, kind: SymType, bind: Bind, shndx: nat, value: uint32)

  const SHN_UNDEF := 0

  // What digest_dynamic found of an object; hashed stands for the flag TF_HASH.
  datatype Tables = Tables(hashed: bool, buckets: seq<uint32>, chains: seq<uint32>, symtab: seq<Sym>)

  // A hash table has a bucket, and a chain entry for each symbol; without one no chain length is known.
  predicate Shaped(t: Tables)
  {
    if t.hashed then |t.chains| == |t.symtab| && |t.buckets| > 0 else t.chains == []
  }

  function Wrap(x: int): uint32 { x % 0x1_0000_0000 }

  lemma WrapPlus(x: int, y: int)
    ensures Wrap(Wrap(x) + y) == Wrap(x + y)
  {
  }

  // A symbol that a lookup may return.
  predicate Eligible(s: Sym)
  {
    s.shndx != SHN_UNDEF && (s.kind.Tls? || ((s.kind.Func? || s.kind.NoType? || s.kind.Object?) && s.value != 0))
  }

  predicate Stops(t: Tables, i: nat) { i == 0 || i >= |t.chains| }

  // The chain from i on ends after at most fuel symbols.
  predicate Ends(t: Tables, i: nat, fuel: nat)
    decreases fuel
  {
    Stops(t, i) || (fuel > 0 && Ends(t, t.chains[i], fuel - 1))
  }

  // The symbols on it.
  function Chain(t: Tables, i: nat, fuel: nat): (c: seq<nat>)
    ensures forall k :: 0 <= k < |c| ==> 0 < c[k] < |t.chains|
    decreases fuel
  {
    if Stops(t, i) || fuel == 0 then [] else [i] + Chain(t, t.chains[i], fuel - 1)
  }

  lemma {:induction false} ChainEnds(t: Tables, i: nat, fuel: nat, more: nat)
    requires Ends(t, i, fuel) && fuel <= more
    ensures Ends(t, i, more) && Chain(t, i, more) == Chain(t, i, fuel)
    decreases fuel
  {
    if !Stops(t, i) {
      ChainEnds(t, t.chains[i], fuel - 1, more - 1);
    }
  }

  // The k-th symbol number along a chain.
  function Node(t: Tables, i: nat, k: nat): nat
    decreases k
  {
    if k == 0 || Stops(t, i) then i else Node(t, t.chains[i], k - 1)
  }

  lemma {:induction false} EndsFrom(t: Tables, i: nat, k: nat, m: nat)
    requires !Ends(t, i, k)
    ensures 0 < Node(t, i, k) < |t.chains|
    ensures Ends(t, i, k + m) <==> Ends(t, Node(t, i, k), m)
    decreases k
  {
    if k > 0 {
      EndsFrom(t, t.chains[i], k - 1, m);
    }
  }

  lemma {:induction false} NoEndBefore(t: Tables, i: nat, k: nat, n: nat)
    requires !Ends(t, i, n) && k <= n
    ensures !Ends(t, i, k)
  {
    if Ends(t, i, k) {
      ChainEnds(t, i, k, n);
    }
  }

  // Among more numbers below n than there are, two are equal.
  lemma {:induction false} Pigeonhole(s: seq<nat>, n: nat) returns (a: nat, b: nat)
    requires |s| > n && forall k :: 0 <= k < |s| ==> s[k] < n
    ensures a < b < |s| && s[a] == s[b]
    decreases n
  {
    var last := |s| - 1;
    if k :| 0 <= k < last && s[k] == s[last] {
      return k, last;
    }
    // No other equals the last, so the largest value may take its number.
    var t := seq(last, k requires 0 <= k < last => if s[k] == n - 1 then s[last] else s[k]);
    forall k | 0 <= k < last
      ensures t[k] < n - 1
    {
    }
    a, b := Pigeonhole(t, n - 1);
  }

  lemma {:induction false} Descends(t: Tables, i: nat, a: nat, b: nat, m: nat)
    requires a < b && !Ends(t, i, b) && Node(t, i, a) == Node(t, i, b)
    ensures !Ends(t, i, m)
    decreases m
  {
    if m <= b {
      NoEndBefore(t, i, m, b);
    } else {
      NoEndBefore(t, i, a, b);
      EndsFrom(t, i, b, m - b);
      EndsFrom(t, i, a, m - b);
      Descends(t, i, a, b, m - b + a);
    }
  }

  // A chain that has not ended after as many symbols as there are never does.
  lemma {:induction false} EndsOrNever(t: Tables, i: nat, m: nat)
    requires !Ends(t, i, |t.chains|)
    ensures !Ends(t, i, m)
  {
    var n := |t.chains|;
    var nodes: seq<nat> := seq(n + 1, k requires 0 <= k <= n => Node(t, i, k));
    forall k | 0 <= k <= n
      ensures nodes[k] < n
    {
      NoEndBefore(t, i, k, n);
      EndsFrom(t, i, k, 0);
    }
    var a, b := Pigeonhole(nodes, n);
    NoEndBefore(t, i, b, n);
    Descends(t, i, a, b, m);
  }

  // No chain comes back to itself: with as many steps as there are symbols each reaches its end.
  predicate Acyclic(t: Tables)
  {
    forall b :: 0 <= b < |t.buckets| ==> Ends(t, t.buckets[b], |t.chains|)
  }

  function Bucket(t: Tables, name: Name): uint32
    requires t.hashed && Shaped(t)
  {
    t.buckets[Hash(name) as int % |t.buckets|]
  }

  function ChainOf(t: Tables, name: Name): seq<nat>
    requires t.hashed && Shaped(t)
  {
    Chain(t, Bucket(t, name), |t.chains|)
  }

  // Each eligible symbol is on the chain of its own name.
  predicate WellHashed(t: Tables)
    requires Shaped(t)
  {
    && t.hashed && Acyclic(t)
    && forall i :: 0 < i < |t.symtab| && Eligible(t.symtab[i]) ==> i in ChainOf(t, t.symtab[i].name)
  }

  predicate Answers(t: Tables, i: nat, name: Name)
  {
    0 < i < |t.symtab| && Eligible(t.symtab[i]) && t.symtab[i].name == name
  }

  // The first symbol of a chain that answers to name.
  function FirstOn(t: Tables, chain: seq<nat>, name: Name): (r: Option<nat>)
    ensures r.Some? ==> r.value in chain && Answers(t, r.value, name)
    ensures r.None? ==> forall i :: i in chain ==> !Answers(t, i, name)
  {
    if chain == [] then None
    else if Answers(t, chain[0], name) then Some(chain[0])
    else FirstOn(t, chain[1..], name)
  }

  function OwnSymbol(t: Tables, name: Name): Option<nat>
    requires Shaped(t)
  {
    if !t.hashed then None else FirstOn(t, ChainOf(t, name), name)
  }

  // The address of the first symbol found, rebased; 0 stands for NULL.
  function OwnAddress(t: Tables, base: uint32, name: Name): uint32
    requires Shaped(t)
  {
    match OwnSymbol(t, name)
    case None => 0
    case Some(i) => Wrap(base + t.symtab[i].value)
  }

  // A lookup finds a symbol exactly if any symbol of the whole table answers to the name.
  lemma LookupFindsAll(t: Tables, name: Name)
    requires Shaped(t) && WellHashed(t)
    ensures OwnSymbol(t, name).Some? <==> exists i :: Answers(t, i, name)
    ensures OwnSymbol(t, name).Some? ==> Answers(t, OwnSymbol(t, name).value, name)
  {
    hide Hash;
    if exists i :: Answers(t, i, name) {
      var i :| Answers(t, i, name);
      assert i in ChainOf(t, name);
    }
  }

  // If only one symbol answers to the name, it is the one found.
  lemma LookupFindsTheOne(t: Tables, name: Name, i: nat)
    requires Shaped(t) && WellHashed(t) && Answers(t, i, name)
    requires forall j :: Answers(t, j, name) ==> j == i
    ensures OwnSymbol(t, name) == Some(i)
  {
    hide Hash, OwnSymbol, WellHashed;
    LookupFindsAll(t, name);
  }

  // A function, an object or an untyped symbol that is defined and has an address, or a thread-local one
  // that is defined.
  predicate Defined(s: Sym)
  {
    match s.kind
    case Func | NoType | Object => s.shndx != 0 && s.value != 0
    case Tls => s.shndx != 0
    case Section | OtherType => false
  }

  // A symbol that following the chains from its own bucket comes to is found at its address, if no other
  // has its name.
  lemma LookupReaches(t: Tables, base: uint32, i: nat, k: nat)
    requires Shaped(t) && t.hashed && Acyclic(t) && 0 < i < |t.symtab| && Defined(t.symtab[i])
    requires forall j :: 0 <= j < |t.symtab| && t.symtab[j].name == t.symtab[i].name ==> j == i
    requires Node(t, t.buckets[Hash(t.symtab[i].name) as int % |t.buckets|], k) == i
    ensures OwnAddress(t, base, t.symtab[i].name) == (base + t.symtab[i].value) % 0x1_0000_0000
  {
    var name := t.symtab[i].name;
    hide Hash;
    BucketIs(t, name);
    NodeOnChain(t, Bucket(t, name), k, |t.chains|, i);
    assert Answers(t, i, name) && i in ChainOf(t, name);
    hide ChainOf, Bucket;
  }

  lemma {:induction false} NodeOnChain(t: Tables, b: nat, k: nat, fuel: nat, i: nat)
    requires Ends(t, b, fuel) && Node(t, b, k) == i && !Stops(t, i)
    ensures i in Chain(t, b, fuel)
    decreases fuel
  {
    if k > 0 && !Stops(t, b) {
      NodeOnChain(t, t.chains[b], k - 1, fuel - 1, i);
    }
  }

  // The symbol loop's switch: a symbol with an address, or a thread-local one, must have a section.
  method IsCandidate(symp: Sym) returns (candidate: bool)
    ensures candidate <==> Eligible(symp)
    ensures symp.shndx == 0 || symp.kind.Section? || symp.kind.OtherType? ==> !candidate
    ensures symp.shndx != 0 && symp.kind.Tls? ==> candidate
    ensures symp.shndx != 0 && (symp.kind.Func? || symp.kind.NoType? || symp.kind.Object?) ==> (candidate <==> symp.value != 0)
  {
    match symp.kind {
      case Func | NoType | Object =>
        if symp.value == 0 { return false; }
        return symp.shndx != SHN_UNDEF;
      case Tls =>
        return symp.shndx != SHN_UNDEF;
      case _ =>
        return false;
    }
  }

  // From the next symbol of a chain the lookup has the same answer, if this one does not give it.
  lemma NextOnChain(t: Tables, i: nat, left: nat, name: Name)
    requires Ends(t, i, left) && 0 < i < |t.chains|
    ensures left > 0 && Ends(t, t.chains[i], left - 1)
    ensures FirstOn(t, Chain(t, i, left), name)
         == if Answers(t, i, name) then Some(i) else FirstOn(t, Chain(t, t.chains[i], left - 1), name)
  {
    hide Answers;
    var chain := Chain(t, i, left);
    assert chain[0] == i && chain[1..] == Chain(t, t.chains[i], left - 1);
  }

  lemma ChainOver(t: Tables, i: nat, left: nat, name: Name)
    requires Stops(t, i)
    ensures FirstOn(t, Chain(t, i, left), name) == None
  {
  }

  method DlSym(t: Tables, base: uint32, name: Name) returns (r: uint32)
    requires Shaped(t) && (t.hashed ==> Acyclic(t))
    ensures r == OwnAddress(t, base, name)
  {
    hide Hash, Step, Eligible, WellHashed, Chain, Ends, FirstOn, Wrap, Bucket;
    if !t.hashed { return 0; }
    var hash := HashName(name);
    var symnum: nat := t.buckets[hash as int % |t.buckets|];
    ghost var left: nat := |t.chains|;
    BucketIs(t, name);
    while symnum != 0
      invariant Ends(t, symnum, left)
      invariant FirstOn(t, Chain(t, symnum, left), name) == OwnSymbol(t, name)
      decreases left
    {
      if symnum >= |t.chains| {
        ChainOver(t, symnum, left, name);
        return 0;
      }
      NextOnChain(t, symnum, left, name);
      var symp := t.symtab[symnum];
      var candidate := IsCandidate(symp);
      if candidate && name == symp.name {
        return Wrap(base + symp.value);
      }
      symnum := t.chains[symnum];
      left := left - 1;
    }
    ChainOver(t, symnum, left, name);
    return 0;
  }

  lemma BucketIs(t: Tables, name: Name)
    requires Shaped(t) && t.hashed && Acyclic(t)
    ensures Bucket(t, name) == t.buckets[Hash(name) as int % |t.buckets|] && Ends(t, Bucket(t, name), |t.chains|)
  {
    hide Hash, Ends;
    var b := Hash(name) as int % |t.buckets|;
    assert Ends(t, t.buckets[b], |t.chains|);
  }

  // The rest of the process: what the fixup table and the dynamic linker have under a name, 0 for
  // nothing.  The flag is set for a function called through the PLT.
  datatype Env = Env(fixup: (Name, bool) -> uint32, process: (Name, bool) -> uint32)

  // What a reference stands for.
  datatype Target = InObject(value: uint32) | Outside(address: uint32)

  datatype Found = Def(target: Target) | NoDef | Abort

  function AddressOf(target: Target, base: uint32): uint32
  {
    match target
    case InObject(v) => Wrap(base + v)
    case Outside(a) => a
  }

  // Local symbols are the object's own; for the others the fixup table comes first, then the object,
  // then the process; a weak one may stay undefined, and one called through the PLT may be missing.
  function Resolve(t: Tables, base: uint32, env: Env, symnum: nat, inPlt: bool): Found
    requires Shaped(t)
  {
    if symnum >= |t.chains| then NoDef
    else
      var ref := t.symtab[symnum];
      if ref.kind.Section? then Abort
      else if ref.bind.Local? then if ref.value == 0 then Abort else Def(InObject(ref.value))
      else if env.fixup(ref.name, inPlt) != 0 then Def(Outside(env.fixup(ref.name, inPlt)))
      else if OwnAddress(t, base, ref.name) != 0 then Def(InObject(t.symtab[OwnSymbol(t, ref.name).value].value))
      else if env.process(ref.name, inPlt) != 0 then Def(Outside(env.process(ref.name, inPlt)))
      else if ref.bind.Weak? then Def(Outside(0))
      else if inPlt then NoDef
      else Abort
  }

  // Address of the definition found: defobj->relocbase + def->st_value.
  datatype Symdef = Address(address: uint32) | Null | Asserted

  function Meaning(f: Found, base: uint32): Symdef
  {
    match f
    case Def(target) => Address(AddressOf(target, base))
    case NoDef => Null
    case Abort => Asserted
  }

  // A symbol of the object's table, of which it is asked what it stands for by name.
  predicate ByName(t: Tables, symnum: nat)
    requires Shaped(t)
  {
    symnum < |t.chains| && !t.symtab[symnum].kind.Section? && !t.symtab[symnum].bind.Local?
  }

  // Where an address comes from, source by source: for a name first the fixup table, whatever the object
  // and the process have; then the object; then the process; else only a weak reference has one.
  predicate InOrder(t: Tables, base: uint32, env: Env, symnum: nat, inPlt: bool, r: Symdef)
    requires Shaped(t)
  {
    && (symnum >= |t.chains| ==> r == Null)
    && (symnum < |t.chains| && !ByName(t, symnum) ==>
         r == if t.symtab[symnum].kind.Section? || t.symtab[symnum].value == 0 then Asserted
              else Address((base + t.symtab[symnum].value) % 0x1_0000_0000))
    && (ByName(t, symnum) ==>
         var name := t.symtab[symnum].name;
         var fixup, own, process := env.fixup(name, inPlt), OwnAddress(t, base, name), env.process(name, inPlt);
         && (fixup != 0 ==> r == Address(fixup))
         && (fixup == 0 && own != 0 ==> r == Address(own))
         && (fixup == 0 && own == 0 && process != 0 ==> r == Address(process))
         && (fixup == 0 && own == 0 && process == 0 && t.symtab[symnum].bind.Weak? ==> r == Address(0))
         && (fixup == 0 && own == 0 && process == 0 && !t.symtab[symnum].bind.Weak? ==> r == if inPlt then Null else Asserted))
  }

  lemma ResolvedInOrder(t: Tables, base: uint32, env: Env, symnum: nat, inPlt: bool)
    requires Shaped(t)
    ensures InOrder(t, base, env, symnum, inPlt, Meaning(Resolve(t, base, env, symnum, inPlt), base))
  {
    hide OwnSymbol;
  }

  method FindSymdef(t: Tables, base: uint32, env: Env, symnum: nat, inPlt: bool) returns (r: Symdef)
    requires Shaped(t) && (t.hashed ==> Acyclic(t))
    ensures r == Meaning(Resolve(t, base, env, symnum, inPlt), base) && InOrder(t, base, env, symnum, inPlt, r)
    ensures ByName(t, symnum) && env.fixup(t.symtab[symnum].name, inPlt) != 0 ==>
      r == Address(env.fixup(t.symtab[symnum].name, inPlt))
  {
    ResolvedInOrder(t, base, env, symnum, inPlt);
    if symnum >= |t.chains| { return Null; }
    var ref := t.symtab[symnum];
    if ref.kind.Section? { return Asserted; }
    r := Null;
    if ref.bind.Local? {
      if ref.value == 0 { return Asserted; }
      r := Address(Wrap(base + ref.value));
    } else {
      var symval := env.fixup(ref.name, inPlt);
      if symval == 0 {
        symval := DlSym(t, base, ref.name);
      }
      if symval == 0 {
        symval := env.process(ref.name, inPlt);
      }
      if symval != 0 {
        r := Address(symval);
      }
    }
    if r.Null? && ref.bind.Weak? {
      r := Address(0);
    }
    if r.Null? && !inPlt { return Asserted; }
  }

  // No own symbol is found at address 0, which would read as not found.
  predicate NoneAtZero(t: Tables, base: uint32)
  {
    forall i :: 0 < i < |t.symtab| && Eligible(t.symtab[i]) ==> Wrap(base + t.symtab[i].value) != 0
  }

  // What a reference stands for does not depend on where the object is loaded.
  lemma ResolveAnywhere(t: Tables, base: uint32, base': uint32, env: Env, symnum: nat, inPlt: bool)
    requires Shaped(t) && NoneAtZero(t, base) && NoneAtZero(t, base')
    ensures Resolve(t, base, env, symnum, inPlt) == Resolve(t, base', env, symnum, inPlt)
  {
    if symnum < |t.chains| {
      var name := t.symtab[symnum].name;
      OwnAnywhere(t, base, name);
      OwnAnywhere(t, base', name);
    }
  }

  lemma OwnAnywhere(t: Tables, base: uint32, name: Name)
    requires Shaped(t) && NoneAtZero(t, base)
    ensures OwnAddress(t, base, name) != 0 <==> OwnSymbol(t, name).Some?
  {
    hide ChainOf;
    var r := OwnSymbol(t, name);
    assert r.Some? ==> Answers(t, r.value, name);
  }

  // The pointer a lookup returns is not NULL exactly if any symbol of the whole table answers to the name.
  lemma LookupGivesAddress(t: Tables, base: uint32, name: Name)
    requires Shaped(t) && WellHashed(t) && NoneAtZero(t, base)
    ensures OwnAddress(t, base, name) != 0 <==> exists i :: Answers(t, i, name)
  {
    hide OwnSymbol, OwnAddress, WellHashed, Answers;
    OwnAnywhere(t, base, name);
    LookupFindsAll(t, name);
  }
}
