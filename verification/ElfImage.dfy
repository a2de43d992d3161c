// Building an object's memory image from the loadable segments of its file.
module ElfImage {
  import opened Basics
  import opened LittleEndian
  import opened ElfSymbols

  const PAGESIZE := 4096

  function TruncPage(a: nat): (r: nat)
    ensures r % 4096 == 0 && r <= a < r + 4096
  {
    a - a % PAGESIZE
  }

  function RoundPage(a: nat): (r: nat)
    ensures r % 4096 == 0 && a <= r < a + 4096
  {
    TruncPage(a + PAGESIZE - 1)
  }

  datatype SegType = Load | Dynamic | OtherSeg

  datatype Phdr = Phdr(ptype: SegType, offset: nat, vaddr: nat, filesz: nat, memsz: nat)

  // Where the pages of a segment begin and end, in the file's own addresses.
  function Begin(p: Phdr): (r: nat)
    ensures r <= p.vaddr
  {
    TruncPage(p.vaddr)
  }

  function End(p: Phdr): (r: nat)
    ensures p.vaddr + p.memsz <= r
  {
    RoundPage(p.vaddr + p.memsz)
  }

  // A loadable segment that fits its file and the address space.
  predicate SegmentGood(p: Phdr, file: seq<byte>)
  {
    && p.filesz <= p.memsz && p.offset + p.filesz <= |file|
    && p.offset % PAGESIZE == p.vaddr % PAGESIZE
    && End(p) < 0x1_0000_0000
  }

  // As the System V ABI has it: loadable segments in ascending order, here with no page in common.
  predicate Ascending(ps: seq<Phdr>, file: seq<byte>)
  {
    && (forall i :: 0 <= i < |ps| && ps[i].ptype.Load? ==> SegmentGood(ps[i], file))
    && (forall i, j :: 0 <= i < j < |ps| && ps[i].ptype.Load? && ps[j].ptype.Load? ==> End(ps[i]) <= Begin(ps[j]))
  }

  predicate WellFormed(ps: seq<Phdr>, file: seq<byte>)
  {
    Ascending(ps, file) && !NoLoad(ps) && exists i :: 0 <= i < |ps| && ps[i].ptype.Dynamic?
  }

  predicate NoLoad(ps: seq<Phdr>)
  {
    forall i :: 0 <= i < |ps| ==> !ps[i].ptype.Load?
  }

  // First page of the first loadable segment, and end of the last.
  function Lowest(ps: seq<Phdr>): nat
    requires !NoLoad(ps)
  {
    if ps[0].ptype.Load? then Begin(ps[0]) else Lowest(ps[1..])
  }

  function Highest(ps: seq<Phdr>): nat
    requires !NoLoad(ps)
    decreases |ps|
  {
    if ps[|ps| - 1].ptype.Load? then End(ps[|ps| - 1]) else Highest(ps[..|ps| - 1])
  }

  lemma {:induction false} LowestBelow(ps: seq<Phdr>, file: seq<byte>, i: nat)
    requires Ascending(ps, file) && i < |ps| && ps[i].ptype.Load?
    ensures Lowest(ps) <= Begin(ps[i])
    decreases |ps|
  {
    if !ps[0].ptype.Load? {
      LowestBelow(ps[1..], file, i - 1);
    }
  }

  lemma {:induction false} HighestAbove(ps: seq<Phdr>, file: seq<byte>, i: nat)
    requires Ascending(ps, file) && i < |ps| && ps[i].ptype.Load?
    ensures End(ps[i]) <= Highest(ps)
    decreases |ps|
  {
    var n := |ps| - 1;
    if ps[n].ptype.Load? {
      if i < n {
        assert End(ps[i]) <= Begin(ps[n]);
      }
    } else {
      HighestAbove(ps[..n], file, i);
    }
  }

  // The program header the dynamic section is taken from: the last of its type.
  function DynamicOf(ps: seq<Phdr>): (p: Phdr)
    requires exists i :: 0 <= i < |ps| && ps[i].ptype.Dynamic?
    ensures p in ps && p.ptype.Dynamic?
    decreases |ps|
  {
    var n := |ps| - 1;
    if ps[n].ptype.Dynamic? then ps[n] else DynamicOf(ps[..n])
  }

  // From the first page of the first loadable segment to the end of the last page of the last.
  predicate Spans(ps: seq<Phdr>, low: nat, high: nat)
  {
    exists i, j :: 0 <= i <= j < |ps| && OnlyLoads(ps, i, j)
      && low % 4096 == 0 && low <= ps[i].vaddr < low + 4096
      && high % 4096 == 0 && high < ps[j].vaddr + ps[j].memsz + 4096 <= high + 4096
  }

  // Segments i and j are loadable, and none before i or after j is.
  predicate OnlyLoads(ps: seq<Phdr>, i: nat, j: nat)
    requires i < |ps| && j < |ps|
  {
    && ps[i].ptype.Load? && ps[j].ptype.Load?
    && forall k :: 0 <= k < |ps| && ps[k].ptype.Load? ==> i <= k <= j
  }

  predicate IsLastDynamic(ps: seq<Phdr>, p: Phdr)
  {
    exists i :: 0 <= i < |ps| && ps[i] == p && p.ptype.Dynamic? && forall j :: i < j < |ps| ==> !ps[j].ptype.Dynamic?
  }

  lemma {:induction false} FirstLoad(ps: seq<Phdr>) returns (i: nat)
    requires !NoLoad(ps)
    ensures i < |ps| && ps[i].ptype.Load? && Lowest(ps) == Begin(ps[i])
    ensures forall k :: 0 <= k < i ==> !ps[k].ptype.Load?
    decreases |ps|
  {
    hide Begin;
    i := 0;
    if !ps[0].ptype.Load? {
      i := FirstLoad(ps[1..]);
      i := i + 1;
    }
  }

  lemma {:induction false} LastLoad(ps: seq<Phdr>) returns (j: nat)
    requires !NoLoad(ps)
    ensures j < |ps| && ps[j].ptype.Load? && Highest(ps) == End(ps[j])
    ensures forall k :: j < k < |ps| ==> !ps[k].ptype.Load?
    decreases |ps|
  {
    hide End;
    j := |ps| - 1;
    if !ps[j].ptype.Load? {
      j := LastLoad(ps[..j]);
    }
  }

  // What the reservation and the pointer kept are made of.
  lemma ExtentSpans(ps: seq<Phdr>)
    requires !NoLoad(ps)
    ensures Spans(ps, Lowest(ps), Highest(ps))
  {
    hide Lowest, Highest;
    var i := FirstLoad(ps);
    var j := LastLoad(ps);
    assert OnlyLoads(ps, i, j);
  }

  lemma {:induction false} DynamicIsLast(ps: seq<Phdr>)
    requires exists i :: 0 <= i < |ps| && ps[i].ptype.Dynamic?
    ensures IsLastDynamic(ps, DynamicOf(ps))
    decreases |ps|
  {
    var n := |ps| - 1;
    if ps[n].ptype.Dynamic? {
      assert ps[n] == DynamicOf(ps);
    } else {
      var i :| 0 <= i < |ps| && ps[i].ptype.Dynamic?;
      assert ps[..n][i].ptype.Dynamic?;
      DynamicIsLast(ps[..n]);
    }
  }

  // The segment as a program sees it: its file bytes, then zeros.  Place a of mem is address base + a.
  predicate SegmentThere(mem: seq<byte>, base: nat, p: Phdr, file: seq<byte>)
  {
    && base <= p.vaddr && p.vaddr - base + p.memsz <= |mem| && p.offset + p.filesz <= |file| && p.filesz <= p.memsz
    && var lo := p.vaddr - base;
      && (forall a :: lo <= a < lo + p.filesz ==> mem[a] == file[a - lo + p.offset])
      && (forall a :: lo + p.filesz <= a < lo + p.memsz ==> mem[a] == 0)
  }

  predicate Zero(mem: seq<byte>, from: nat, to: nat)
  {
    to <= |mem| && forall a :: from <= a < to ==> mem[a] == 0
  }

  // Only the places from from to to differ.
  predicate Within(was: seq<byte>, now: seq<byte>, from: nat, to: nat)
  {
    |now| == |was| && forall a :: 0 <= a < |was| && !(from <= a < to) ==> now[a] == was[a]
  }

  // A byte of a file mapping: past the end of the file the last page is filled with zeros.
  function FileByte(file: seq<byte>, o: nat): byte
  {
    if o < |file| then file[o] else 0
  }

  predicate FileThere(mem: seq<byte>, at: nat, len: nat, file: seq<byte>, off: nat)
  {
    at + len <= |mem| && forall a :: at <= a < at + len ==> mem[a] == FileByte(file, off + (a - at))
  }

  // The reservation, where it is, its size, and the pointer to the dynamic section.
  datatype Loaded = Loaded(mem: array<byte>, base: uint32, size: nat, dynamic: uint32)

  // An object loaded from its file: every loadable segment is there, in a reservation that spans exactly
  // from the first page to the last; for the dynamic section its address in the file is kept, added to
  // the place of the reservation.
  predicate LoadedFrom(l: Loaded, ps: seq<Phdr>, file: seq<byte>)
    requires WellFormed(ps, file)
    reads l.mem
  {
    && l.mem.Length == l.size == Highest(ps) - Lowest(ps)
    && (forall i :: 0 <= i < |ps| && ps[i].ptype.Load? ==> SegmentThere(l.mem[..], Lowest(ps), ps[i], file))
    && l.dynamic == Wrap(DynamicOf(ps).vaddr + l.base)
  }

  // mmap of a file at a fixed place; it fails for an empty range, and may fail otherwise unless the
  // system grants all mappings.
  method MapFixed(mem: array<byte>, at: nat, len: nat, file: seq<byte>, off: nat, grants: bool) returns (ok: bool)
    requires at + len <= mem.Length
    modifies mem
    ensures grants ==> (ok <==> len > 0)
    ensures ok ==> len > 0 && FileThere(mem[..], at, len, file, off) && Within(old(mem[..]), mem[..], at, at + len)
  {
    hide FileByte;
    var fails: bool := *;
    if len == 0 || (fails && !grants) { return false; }
    for k := 0 to len
      invariant FileThere(mem[..], at, k, file, off) && Within(old(mem[..]), mem[..], at, at + len)
    {
      mem[at + k] := FileByte(file, off + k);
    }
    return true;
  }

  // memset
  method Clear(mem: array<byte>, at: nat, len: nat)
    requires at + len <= mem.Length
    modifies mem
    ensures Zero(mem[..], at, at + len) && Within(old(mem[..]), mem[..], at, at + len)
  {
    for k := 0 to len
      invariant Zero(mem[..], at, at + k) && Within(old(mem[..]), mem[..], at, at + len)
    {
      mem[at + k] := 0;
    }
  }

  // The range of file pages is empty.
  predicate NoFilePages(p: Phdr) { p.filesz == 0 && p.vaddr % PAGESIZE == 0 }

  // Page arithmetic of one segment.
  lemma Pages(p: Phdr, file: seq<byte>)
    requires SegmentGood(p, file)
    ensures var vlimit := RoundPage(p.vaddr + p.filesz);
      && Begin(p) <= p.vaddr && p.vaddr + p.filesz <= vlimit <= End(p)
      && TruncPage(p.offset) + (p.vaddr - Begin(p)) == p.offset
      && (vlimit == Begin(p) <==> NoFilePages(p))
  {
    var f, m := p.vaddr + p.filesz + PAGESIZE - 1, p.vaddr + p.memsz + PAGESIZE - 1;
    assert f / PAGESIZE <= m / PAGESIZE;
    assert f - f % PAGESIZE == PAGESIZE * (f / PAGESIZE) && m - m % PAGESIZE == PAGESIZE * (m / PAGESIZE);
  }

  // The file pages, with zeros from where the file bytes end, hold the segment.
  lemma SegmentBuilt(was: seq<byte>, mapped: seq<byte>, now: seq<byte>, base: nat, p: Phdr, file: seq<byte>)
    requires SegmentGood(p, file) && base <= Begin(p) && End(p) - base <= |was|
    requires Zero(was, Begin(p) - base, End(p) - base)
    requires var vlimit := RoundPage(p.vaddr + p.filesz);
      && Begin(p) <= vlimit <= End(p)
      && Within(was, mapped, Begin(p) - base, vlimit - base)
      && FileThere(mapped, Begin(p) - base, vlimit - Begin(p), file, TruncPage(p.offset))
      && (if p.filesz == p.memsz then now == mapped
          else Zero(now, p.vaddr + p.filesz - base, vlimit - base) && Within(mapped, now, p.vaddr + p.filesz - base, vlimit - base))
    ensures SegmentThere(now, base, p, file) && Within(was, now, Begin(p) - base, End(p) - base)
  {
    Pages(p, file);
    hide TruncPage, RoundPage;
    var lo := p.vaddr - base;
    forall a | lo <= a < lo + p.filesz
      ensures now[a] == file[a - lo + p.offset]
    {
      assert now[a] == mapped[a];
    }
  }

  // One loadable segment: its file pages are mapped, and what its file bytes do not reach is cleared.
  method LoadSegment(mem: array<byte>, base: nat, p: Phdr, file: seq<byte>, grants: bool) returns (ok: bool)
    requires SegmentGood(p, file) && base <= Begin(p) && End(p) - base <= mem.Length
    requires Zero(mem[..], Begin(p) - base, End(p) - base)
    modifies mem
    ensures ok ==> SegmentThere(mem[..], base, p, file)
    ensures ok ==> Within(old(mem[..]), mem[..], Begin(p) - base, End(p) - base)
    ensures ok ==> !NoFilePages(p)
    ensures grants && !ok ==> NoFilePages(p)
  {
    Pages(p, file);
    hide TruncPage, RoundPage, FileThere, Zero, Within, SegmentThere;
    var off := TruncPage(p.offset);
    var vaddr := TruncPage(p.vaddr);
    var vlimit := RoundPage(p.vaddr + p.filesz);
    ghost var was := mem[..];
    ok := MapFixed(mem, vaddr - base, vlimit - vaddr, file, off, grants);
    if !ok { return; }
    ghost var mapped := mem[..];
    if p.filesz != p.memsz {
      var clearVaddr := p.vaddr + p.filesz;
      var nclear := vlimit - clearVaddr;
      if nclear > 0 {
        Clear(mem, clearVaddr - base, nclear);
        // mprotect of the pages behind the file pages
        var fails: bool := *;
        if fails && !grants { return false; }
      } else {
        NothingToClear(mapped, vlimit - base);
      }
    }
    SegmentBuilt(was, mapped, mem[..], base, p, file);
  }

  lemma NothingToClear(m: seq<byte>, at: nat)
    requires at <= |m|
    ensures Zero(m, at, at) && Within(m, m, at, at)
  {
  }

  lemma TakeLoad(ps: seq<Phdr>, i: nat)
    requires i < |ps|
    ensures NoLoad(ps[..i + 1]) <==> NoLoad(ps[..i]) && !ps[i].ptype.Load?
    ensures !NoLoad(ps[..i + 1]) ==>
      Lowest(ps[..i + 1]) == (if NoLoad(ps[..i]) then Begin(ps[i]) else Lowest(ps[..i]))
    ensures !NoLoad(ps[..i + 1]) ==>
      Highest(ps[..i + 1]) == (if ps[i].ptype.Load? then End(ps[i]) else Highest(ps[..i]))
    decreases i
  {
    var q := ps[..i + 1];
    assert q[..i] == ps[..i] && q[i] == ps[i];
    LowestAppend(ps[..i], ps[i]);
    assert q == ps[..i] + [ps[i]];
  }

  lemma {:induction false} LowestAppend(ps: seq<Phdr>, p: Phdr)
    ensures NoLoad(ps + [p]) <==> NoLoad(ps) && !p.ptype.Load?
    ensures !NoLoad(ps) ==> !NoLoad(ps + [p]) && Lowest(ps + [p]) == Lowest(ps)
    ensures NoLoad(ps) && p.ptype.Load? ==> !NoLoad(ps + [p]) && Lowest(ps + [p]) == Begin(p)
    decreases |ps|
  {
    var q := ps + [p];
    assert q[|ps|] == p && forall i :: 0 <= i < |ps| ==> q[i] == ps[i];
    if ps != [] {
      assert q[1..] == ps[1..] + [p];
      LowestAppend(ps[1..], p);
      assert NoLoad(ps) <==> !ps[0].ptype.Load? && NoLoad(ps[1..]);
    }
  }

  // Extent of the loadable segments, and the dynamic one.
  method Scan(ps: seq<Phdr>) returns (low: nat, high: nat, phdyn: Phdr)
    requires !NoLoad(ps) && exists i :: 0 <= i < |ps| && ps[i].ptype.Dynamic?
    ensures low == Lowest(ps) && high == Highest(ps) && phdyn == DynamicOf(ps)
    ensures Spans(ps, low, high) && IsLastDynamic(ps, phdyn)
  {
    ExtentSpans(ps);
    DynamicIsLast(ps);
    hide Begin, End, Lowest, Highest, NoLoad;
    low, high := 0, 0;
    phdyn := ps[0];
    var first := 0;
    NoneYet(ps[..0]);
    for i := 0 to |ps|
      invariant first == 0 <==> NoLoad(ps[..i])
      invariant first >= 0
      invariant !NoLoad(ps[..i]) ==> low == Lowest(ps[..i]) && high == Highest(ps[..i])
      invariant (exists j :: 0 <= j < i && ps[j].ptype.Dynamic?) ==>
        (exists j :: 0 <= j < |ps[..i]| && ps[..i][j].ptype.Dynamic?) && phdyn == DynamicOf(ps[..i])
    {
      TakeLoad(ps, i);
      TakeDynamic(ps, i);
      match ps[i].ptype {
        case Load =>
          if first == 0 { low := Begin(ps[i]); }
          first := first + 1;
          high := End(ps[i]);
        case Dynamic =>
          phdyn := ps[i];
        case OtherSeg =>
      }
    }
    assert ps[..|ps|] == ps;
  }

  lemma TakeDynamic(ps: seq<Phdr>, i: nat)
    requires i < |ps|
    ensures var q := ps[..i + 1];
      if ps[i].ptype.Dynamic? then (exists j :: 0 <= j < |q| && q[j].ptype.Dynamic?) && DynamicOf(q) == ps[i]
      else (exists j :: 0 <= j < |ps[..i]| && ps[..i][j].ptype.Dynamic?) ==>
        (exists j :: 0 <= j < |q| && q[j].ptype.Dynamic?) && DynamicOf(q) == DynamicOf(ps[..i])
  {
    var q := ps[..i + 1];
    assert q[i] == ps[i] && q[..i] == ps[..i];
    if !ps[i].ptype.Dynamic? && exists j :: 0 <= j < |ps[..i]| && ps[..i][j].ptype.Dynamic? {
      var j :| 0 <= j < |ps[..i]| && ps[..i][j].ptype.Dynamic?;
      assert q[j].ptype.Dynamic?;
    }
  }

  lemma NoneYet(ps: seq<Phdr>)
    requires ps == []
    ensures NoLoad(ps)
  {
  }

  // What loading another segment leaves alone.
  lemma Elsewhere(was: seq<byte>, now: seq<byte>, base: nat, p: Phdr, q: Phdr, file: seq<byte>)
    requires SegmentGood(p, file) && SegmentGood(q, file) && base <= Begin(p) && base <= Begin(q)
    requires Within(was, now, Begin(p) - base, End(p) - base) && (End(p) <= Begin(q) || End(q) <= Begin(p))
    ensures SegmentThere(was, base, q, file) ==> SegmentThere(now, base, q, file)
    ensures Zero(was, Begin(q) - base, End(q) - base) ==> Zero(now, Begin(q) - base, End(q) - base)
  {
    Pages(q, file);
    hide TruncPage, RoundPage;
  }

  // The segments before i are there, the pages of the others are still zero.
  predicate Halfway(mem: seq<byte>, base: nat, ps: seq<Phdr>, file: seq<byte>, i: nat)
  {
    && (forall j :: 0 <= j < i && j < |ps| && ps[j].ptype.Load? ==> SegmentThere(mem, base, ps[j], file))
    && (forall j :: i <= j < |ps| && ps[j].ptype.Load? ==> base <= Begin(ps[j]) && Zero(mem, Begin(ps[j]) - base, End(ps[j]) - base))
  }

  lemma OneMore(was: seq<byte>, now: seq<byte>, base: nat, ps: seq<Phdr>, file: seq<byte>, i: nat)
    requires Ascending(ps, file) && i < |ps| && ps[i].ptype.Load? && Halfway(was, base, ps, file, i)
    requires forall j :: 0 <= j < |ps| && ps[j].ptype.Load? ==> base <= Begin(ps[j])
    requires SegmentThere(now, base, ps[i], file) && Within(was, now, Begin(ps[i]) - base, End(ps[i]) - base)
    ensures Halfway(now, base, ps, file, i + 1)
  {
    hide SegmentGood, Begin, End, Within, Zero, SegmentThere;
    forall j | 0 <= j < |ps| && j != i && ps[j].ptype.Load?
      ensures SegmentThere(was, base, ps[j], file) ==> SegmentThere(now, base, ps[j], file)
      ensures Zero(was, Begin(ps[j]) - base, End(ps[j]) - base) ==> Zero(now, Begin(ps[j]) - base, End(ps[j]) - base)
    {
      assert SegmentGood(ps[i], file) && SegmentGood(ps[j], file);
      assert if i < j then End(ps[i]) <= Begin(ps[j]) else End(ps[j]) <= Begin(ps[i]);
      Elsewhere(was, now, base, ps[i], ps[j], file);
    }
  }

  // If the system grants the mappings, loading fails exactly for a segment without file pages.
  method DlMmap(file: seq<byte>, ps: seq<Phdr>, grants: bool) returns (r: Option<Loaded>)
    requires WellFormed(ps, file)
    ensures r.Some? ==> fresh(r.value.mem) && LoadedFrom(r.value, ps, file)
    ensures r.Some? ==> forall i :: 0 <= i < |ps| && ps[i].ptype.Load? ==> !NoFilePages(ps[i])
    ensures grants && r.None? ==> exists i :: 0 <= i < |ps| && ps[i].ptype.Load? && NoFilePages(ps[i])
  {
    hide SegmentGood, Begin, End, Zero, SegmentThere, NoLoad, Lowest, Highest, DynamicOf;
    hide TruncPage, RoundPage, Spans, IsLastDynamic;
    var low, high, phdyn := Scan(ps);
    Extent(ps, file);
    var fails: bool := *;
    if fails && !grants { return None; }
    var mapbase: uint32 := *;
    var mem := new byte[high - low](_ => 0);
    StartZero(mem[..], ps, file, low);
    for i := 0 to |ps|
      invariant Halfway(mem[..], low, ps, file, i)
      invariant forall j :: 0 <= j < i && ps[j].ptype.Load? ==> !NoFilePages(ps[j])
    {
      if ps[i].ptype.Load? {
        ghost var was := mem[..];
        var ok := LoadSegment(mem, low, ps[i], file, grants);
        if !ok { return None; }
        OneMore(was, mem[..], low, ps, file, i);
      }
    }
    r := Some(Loaded(mem, mapbase, high - low, Wrap(phdyn.vaddr + mapbase)));
  }

  // All pages lie between the first and the last.
  lemma Extent(ps: seq<Phdr>, file: seq<byte>)
    requires Ascending(ps, file) && !NoLoad(ps)
    ensures Lowest(ps) <= Highest(ps)
    ensures forall i :: 0 <= i < |ps| && ps[i].ptype.Load? ==> Lowest(ps) <= Begin(ps[i]) <= End(ps[i]) <= Highest(ps)
  {
    hide TruncPage, RoundPage, Lowest, Highest, SegmentGood;
    forall i | 0 <= i < |ps| && ps[i].ptype.Load?
      ensures Lowest(ps) <= Begin(ps[i]) <= End(ps[i]) <= Highest(ps)
    {
      LowestBelow(ps, file, i);
      HighestAbove(ps, file, i);
    }
  }

  lemma StartZero(mem: seq<byte>, ps: seq<Phdr>, file: seq<byte>, low: nat)
    requires forall a :: 0 <= a < |mem| ==> mem[a] == 0
    requires forall i :: 0 <= i < |ps| && ps[i].ptype.Load? ==> low <= Begin(ps[i]) <= End(ps[i]) <= low + |mem|
    ensures Halfway(mem, low, ps, file, 0)
  {
    hide Begin, End;
  }

  // Where loading has put what the file calls address v.
  function AddressOf(l: Loaded, ps: seq<Phdr>, v: nat): uint32
    requires !NoLoad(ps) && Lowest(ps) <= v
  {
    Wrap(l.base + (v - Lowest(ps)))
  }

  // Header p describes part of the file bytes of segment s.
  predicate PartOf(p: Phdr, s: Phdr)
  {
    && s.vaddr <= p.vaddr && p.vaddr + p.filesz <= s.vaddr + s.filesz
    && p.offset - s.offset == p.vaddr - s.vaddr
  }

  // relocbase + v is off by the address of the first page, for every address v of the file.
  lemma RelocbaseIsOff(l: Loaded, ps: seq<Phdr>, file: seq<byte>, v: nat)
    requires WellFormed(ps, file) && Lowest(ps) <= v
    ensures Wrap(l.base + v) == Wrap(AddressOf(l, ps, v) + Lowest(ps))
    ensures Wrap(l.base + v) == AddressOf(l, ps, v) <==> Lowest(ps) == 0
  {
    LowIsSmall(ps, file);
    hide Wrap, Lowest, WellFormed;
    Congruent(l.base + (v - Lowest(ps)), Lowest(ps));
    WrapPlus(l.base + (v - Lowest(ps)), Lowest(ps));
  }

  lemma LowIsSmall(ps: seq<Phdr>, file: seq<byte>)
    requires WellFormed(ps, file)
    ensures Lowest(ps) < 0x1_0000_0000
  {
    hide Lowest, TruncPage, RoundPage;
    var i :| 0 <= i < |ps| && ps[i].ptype.Load?;
    LowestBelow(ps, file, i);
  }

  // The dynamic section lies where the first page of the reservation makes it lie; the address kept for
  // it is that one exactly if the first page of the file is page 0.
  lemma DynamicIsMapped(l: Loaded, ps: seq<Phdr>, file: seq<byte>, s: Phdr)
    requires WellFormed(ps, file) && LoadedFrom(l, ps, file)
    requires s in ps && s.ptype.Load? && PartOf(DynamicOf(ps), s)
    ensures var p, low := DynamicOf(ps), Lowest(ps);
      && low <= p.vaddr && p.vaddr - low + p.filesz <= l.mem.Length && p.offset + p.filesz <= |file|
      && l.mem[p.vaddr - low..p.vaddr - low + p.filesz] == file[p.offset..p.offset + p.filesz]
      && (l.dynamic == AddressOf(l, ps, p.vaddr) <==> low == 0)
  {
    hide WellFormed, Lowest, Highest, DynamicOf, Wrap, AddressOf, Begin, End;
    var i :| 0 <= i < |ps| && ps[i] == s;
    assert SegmentThere(l.mem[..], Lowest(ps), ps[i], file);
    RelocbaseIsOff(l, ps, file, DynamicOf(ps).vaddr);
  }

  lemma Congruent(x: nat, y: nat)
    requires y < 0x1_0000_0000
    ensures Wrap(x + y) == Wrap(x) <==> y == 0
  {
  }

  // An object whose first page is not page 0, with its dynamic section at the very beginning.
  function HighPage(): seq<Phdr> { [Phdr(Load, 0, 4096, 100, 100), Phdr(Dynamic, 0, 4096, 8, 8)] }

  lemma HighPageGood(file: seq<byte>)
    requires |file| == 100
    ensures WellFormed(HighPage(), file)
  {
    HighPageParts();
  }

  lemma HighPageParts()
    ensures |HighPage()| == 2 && HighPage()[0] == Phdr(Load, 0, 4096, 100, 100) && HighPage()[1] == Phdr(Dynamic, 0, 4096, 8, 8)
    ensures !NoLoad(HighPage()) && Lowest(HighPage()) == 4096
    ensures DynamicOf(HighPage()) == HighPage()[1]
  {
    assert HighPage()[0].ptype.Load?;
  }

  // Loading it succeeds, and the address kept for its dynamic section is not where the section is.
  method DynamicElsewhere(file: seq<byte>) returns (l: Loaded)
    requires |file| == 100
    ensures WellFormed(HighPage(), file) && LoadedFrom(l, HighPage(), file)
    ensures Lowest(HighPage()) <= DynamicOf(HighPage()).vaddr && l.dynamic != AddressOf(l, HighPage(), DynamicOf(HighPage()).vaddr)
  {
    hide WellFormed, LoadedFrom, Lowest, DynamicOf, HighPage, NoLoad, AddressOf;
    HighPageGood(file);
    HighPageParts();
    var r := DlMmap(file, HighPage(), true);
    l := r.value;
    DynamicIsMapped(l, HighPage(), file, HighPage()[0]);
  }

  // A segment of zeros only, beginning with a page: loading fails even when every mapping is granted.
  method ZerosNotLoaded(grants: bool) returns (r: Option<Loaded>)
    ensures var ps := [Phdr(Load, 0, 4096, 0, 100), Phdr(Dynamic, 0, 4096, 0, 0)];
      WellFormed(ps, []) && r.None?
  {
    var ps := [Phdr(Load, 0, 4096, 0, 100), Phdr(Dynamic, 0, 4096, 0, 0)];
    assert ps[0].ptype.Load? && ps[1].ptype.Dynamic?;
    r := DlMmap([], ps, grants);
  }
}
