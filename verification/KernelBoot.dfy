/** Booting both allocators at once (src/kernel/mm/slab.c:269-357,
    src/kernel/mm/virtual_pages.c:132-192): the first slabs of three caches describe one
    another. */
module KernelBoot {
  import opened Outcomes
  import opened Blocks
  import opened FreeBlocks
  import opened Clist
  import opened BuddyAlloc
  import opened SoundLists
  import opened PageRanges
  import opened PhysicalPages
  import opened VirtualRegions
  import opened SlabCaches
  import opened KernelState
  import opened SlabLabels
  import opened KernelMemory
  import opened PageTables
  import P = Paging

  const BOOT_OBJECTS: nat := 3   // objects in use in each of the three first slabs

  // ----- the checks of virtual_page_boot_init -----

  /** The loop of virtual_page_boot_init; false is its panic. */
  method CheckOrder(used: seq<Vregion>) returns (ok: bool)
    ensures ok <==> Ascending(used)
  {
    var i := 0;
    while i < |used|
      invariant i <= |used|
      invariant forall j | 0 <= j < i && j + 1 < |used| :: used[j].Below(used[j + 1])
    {
      if i + 1 < |used| {
        if used[i].first > used[i + 1].first {
          return false;
        } else if used[i].Last() >= used[i + 1].first {
          return false;
        }
      }
      i := i + 1;
    }
    NeighboursAscend(used);
    return true;
  }

  /** Where neighbours ascend the whole list does. */
  lemma NeighboursAscend(used: seq<Vregion>)
    requires forall j | 0 <= j && j + 1 < |used| :: used[j].Below(used[j + 1])
    ensures Ascending(used)
  {
    forall i, j | 0 <= i < j < |used| ensures used[i].Below(used[j]) { BelowFrom(used, i, j); }
  }

  lemma {:induction false} BelowFrom(used: seq<Vregion>, i: nat, j: nat)
    requires forall k | 0 <= k && k + 1 < |used| :: used[k].Below(used[k + 1])
    requires i < j < |used|
    ensures used[i].Below(used[j])
    decreases j - i
  {
    assert used[j - 1].Below(used[j - 1 + 1]);
    if i < j - 1 { BelowFrom(used, i, j - 1); }
  }

  // ----- the first three caches -----

  /** A cache whose only slab has BOOT_OBJECTS objects in use. */
  function BootCache(size: nat, vpn: nat): (c: Cache)
    requires size >= PTR_SIZE && Capacity(1, size) > BOOT_OBJECTS
  {
    match Added(EmptyCache(size, 1), NewSlab(vpn, 1, size, BOOT_OBJECTS), PartialSlab)
    case Some(c) => c
    case None => EmptyCache(size, 1)
  }

  /** The first three objects of the slab at page vpn are in use. */
  ghost predicate InUseFrom(c: Cache, vpn: nat) {
    && IsUsed(c, Obj(vpn, 0, c.size)) && IsUsed(c, Obj(vpn, 1, c.size)) && IsUsed(c, Obj(vpn, 2, c.size))
  }

  /** A cache for objects of size bytes, whose only slab is the page vpn: it has all the slots
      that fit, and the first used of them are in use. */
  ghost predicate OneSlab(c: Cache, size: nat, vpn: nat, used: nat) {
    && c.size == size > 0 && c.pagesPerSlab == 1 && c.perSlab == 4096 / size > used
    && c.freeObjs == 4096 / size - used && c.usedObjs == used
    && c.slabs == c.partials == 1 && c.frees == c.fulls == 0 && c.freeSlabs == c.fullSlabs == []
    && c.partialSlabs == [Slab(vpn, 1, 4096 / size - used, seq(4096 / size - used, k => used + k))]
  }

  lemma BootCacheOk(size: nat, vpn: nat)
    requires 4 <= size && 4 * size <= 4096 && vpn > 0
    ensures Capacity(1, size) > BOOT_OBJECTS
    ensures CacheOk(BootCache(size, vpn)) && OneSlab(BootCache(size, vpn), size, vpn, 3)
    ensures BootCache(size, vpn).pagesPerSlab == 1
    ensures InUseFrom(BootCache(size, vpn), vpn) && Slabs(BootCache(size, vpn)).Keys == {vpn}
  {
    CapacityIs(1, size, 4);
    var e, sl := EmptyCache(size, 1), NewSlab(vpn, 1, size, BOOT_OBJECTS);
    assert size <= 1 * PAGE;
    EmptyCacheOk(size, 1);
    AddKeeps(e, sl, PartialSlab);
    BootSlabIs(size, vpn);
    hide CacheOk, Slabs, Capacity;
  }

  lemma BootSlabIs(size: nat, vpn: nat)
    requires 4 <= size && Capacity(1, size) > BOOT_OBJECTS
    ensures OneSlab(BootCache(size, vpn), size, vpn, 3)
  {}

  // ----- the first state -----

  /** The three boot slabs' frames. */
  ghost predicate ThreeFrames(live: set<Block>, p0: nat, p1: nat, p2: nat) {
    Holds(live, p0) && Holds(live, p1) && Holds(live, p2) && p0 != p1 && p1 != p2 && p0 != p2
  }

  lemma FramesDiffer(l0: set<Block>, l1: set<Block>, l2: set<Block>, l3: set<Block>, p0: nat, p1: nat, p2: nat)
    requires NewFrames(l0, l1, p0, 1) && NewFrames(l1, l2, p1, 1) && NewFrames(l2, l3, p2, 1)
    ensures ThreeFrames(l3, p0, p1, p2)
  {
    FrameTaken(l0, l1, p0);
    FrameTaken(l1, l2, p1);
    FrameTaken(l2, l3, p2);
    FrameStays(l1, l2, p1, p0);
    FrameStays(l2, l3, p2, p0);
    FrameStays(l2, l3, p2, p1);
  }

  lemma FrameTaken(l: set<Block>, l': set<Block>, p: nat)
    requires NewFrames(l, l', p, 1)
    ensures !Holds(l, p) && Holds(l', p)
  {}

  lemma FrameStays(l: set<Block>, l': set<Block>, p: nat, q: nat)
    requires NewFrames(l, l', p, 1) && Holds(l, q)
    ensures Holds(l', q)
  {}

  lemma FramesApart(live: set<Block>, p0: nat, p1: nat, p2: nat)
    requires ThreeFrames(live, p0, p1, p2)
    ensures p0 != p1 && p1 != p2 && p0 != p2
  {}

  function BootRegions(first: nat): (rs: seq<Vregion>) {
    [Vregion(first, 1), Vregion(first + 1, 1), Vregion(first + 2, 1)]
  }

  function BootMapping(first: nat, p0: nat, p1: nat, p2: nat): map<nat, nat> {
    map[first := p0, first + 1 := p1, first + 2 := p2]
  }

  /** The first three objects of the second page are the Slab objects of the three pages. */
  function BootLabels(first: nat, slabSize: nat): map<Vregion, Obj> {
    map[Vregion(first, 1) := Obj(first + 1, 0, slabSize), Vregion(first + 1, 1) := Obj(first + 1, 1, slabSize),
        Vregion(first + 2, 1) := Obj(first + 1, 2, slabSize)]
  }

  ghost function BootSys(cs: seq<Cache>, first: nat, p0: nat, p1: nat, p2: nat): (s: Sys)
    requires |cs| > SLAB
  {
    Sys(cs, [], [], BootRegions(first), BootMapping(first, p0, p1, p2), BootLabels(first, cs[SLAB].size))
  }

  /** Cache i owns boot page first + i and nothing else. */
  ghost predicate OwnsBootPage(cs: seq<Cache>, first: nat, i: nat)
    requires i < |cs|
  {
    CacheOk(cs[i]) && cs[i].pagesPerSlab == 1 && Slabs(cs[i]).Keys == {first + i}
  }

  lemma BootUse(first: nat, p: nat)
    ensures Covered(BootRegions(first), p) <==> first <= p < first + 3
  {
    if first <= p < first + 3 { assert BootRegions(first)[p - first].Covers(p); }
  }

  lemma BootSysOk(cs: seq<Cache>, first: nat, p0: nat, p1: nat, p2: nat, tables: set<nat>, live: set<Block>)
    requires |cs| == 3 && OwnsBootPage(cs, first, 0) && OwnsBootPage(cs, first, 1) && OwnsBootPage(cs, first, 2)
    requires cs[SLAB].perSlab >= 3 && cs[VREG].perSlab >= 3 && first > 0
    requires ThreeFrames(live, p0, p1, p2) && forall p: nat | first <= p < first + 3 :: HasTable(tables, p)
    ensures SysOk(BootSys(cs, first, p0, p1, p2), first + 3, tables, live)
  {
    hide Slabs, CacheOk, Holds, InUse, BootSys, SlabMapped, SlabsPlaced, CachesOk, TablesPresent, MapOk, RegionsOk;
    var s := BootSys(cs, first, p0, p1, p2);
    BootParts(cs, first, p0, p1, p2);
    forall p: nat | first <= p < first + 3 ensures InUse(s, p) { BootInUse(s, first, p); }
    BootTables(s, first, tables);
    BootRegionsOk(first);
    BootCachesOk(s, cs, first);
    BootSlabsPlaced(cs, first, p0, p1, p2);
    BootMapOk(s, first, p0, p1, p2, live);
  }

  lemma BootParts(cs: seq<Cache>, first: nat, p0: nat, p1: nat, p2: nat)
    requires |cs| > SLAB
    ensures var s := BootSys(cs, first, p0, p1, p2);
            && s.caches == cs && s.free == [] && s.news == [] && s.boots == BootRegions(first)
            && s.mapping == BootMapping(first, p0, p1, p2) && s.labels == BootLabels(first, cs[SLAB].size)
  {
    hide BootRegions, BootMapping, BootLabels;
  }

  lemma BootInUse(s: Sys, first: nat, p: nat)
    requires s.free == [] && s.news == [] && s.boots == BootRegions(first)
    ensures InUse(s, p) <==> first <= p < first + 3
    ensures !Covered(s.free, p)
  {
    hide Covered, BootRegions;
    BootUse(first, p);
    NothingCovered(p);
  }

  lemma BootTables(s: Sys, first: nat, tables: set<nat>)
    requires s.free == [] && s.news == [] && s.boots == BootRegions(first)
    requires forall p: nat | first <= p < first + 3 :: HasTable(tables, p)
    ensures TablesPresent(s, tables)
  {
    hide InUse, Covered, HasTable, BootRegions;
    forall p: nat | Covered(s.free, p) || InUse(s, p) ensures HasTable(tables, p) { BootInUse(s, first, p); }
  }

  lemma BootRegionsOk(first: nat)
    requires first > 0
    ensures RegionsOk([], [], BootRegions(first), first + 3)
  {}

  lemma BootCachesOk(s: Sys, cs: seq<Cache>, first: nat)
    requires s.caches == cs && |cs| == 3 && OwnsBootPage(cs, first, 0) && OwnsBootPage(cs, first, 1)
    requires OwnsBootPage(cs, first, 2) && cs[SLAB].perSlab >= 3 && cs[VREG].perSlab >= 3
    ensures CachesOk(s)
  {
    hide CacheOk, Slabs;
    forall i | 0 <= i < |cs| ensures CacheOk(cs[i]) { assert OwnsBootPage(cs, first, i); }
  }

  lemma NothingCovered(p: int)
    ensures !Covered([], p)
  {}

  lemma BootSlabsPlaced(cs: seq<Cache>, first: nat, p0: nat, p1: nat, p2: nat)
    requires |cs| == 3 && OwnsBootPage(cs, first, 0) && OwnsBootPage(cs, first, 1) && OwnsBootPage(cs, first, 2)
    ensures SlabsPlaced(BootSys(cs, first, p0, p1, p2))
    ensures forall i: nat, f: nat | i < |cs| :: SlabMapped(BootSys(cs, first, p0, p1, p2), i, f)
  {
    hide Slabs, CacheOk;
    var s := BootSys(cs, first, p0, p1, p2);
    forall i: nat, f: nat | i < |cs| ensures SlabPlaced(s, i, f) && SlabMapped(s, i, f) {
      assert OwnsBootPage(cs, first, i);
      assert f in Slabs(cs[i]) ==> f == first + i;
      assert s.boots[i] == Vregion(first + i, 1);
    }
    forall i, j | 0 <= i < j < |cs| ensures Slabs(cs[i]).Keys !! Slabs(cs[j]).Keys {
      assert OwnsBootPage(cs, first, i) && OwnsBootPage(cs, first, j);
    }
  }

  lemma BootMapOk(s: Sys, first: nat, p0: nat, p1: nat, p2: nat, live: set<Block>)
    requires s.mapping == BootMapping(first, p0, p1, p2) && ThreeFrames(live, p0, p1, p2)
    requires forall p: nat | first <= p < first + 3 :: InUse(s, p)
    ensures MapOk(s, live)
  {
    hide Holds, InUse;
  }

  /** The Slab objects of the first three slabs are in use, and label their frames. */
  lemma BootLabelsOk(cs: seq<Cache>, first: nat, p0: nat, p1: nat, p2: nat, d: seq<Ppage>)
    requires |cs| == 3 && OwnsBootPage(cs, first, 0) && OwnsBootPage(cs, first, 1) && OwnsBootPage(cs, first, 2)
    requires InUseFrom(cs[SLAB], first + 1)
    requires p0 < |d| && p1 < |d| && p2 < |d| && d[p0].slab == (first + 1) * PAGE
    requires d[p1].slab == (first + 1) * PAGE + cs[SLAB].size && d[p2].slab == (first + 1) * PAGE + 2 * cs[SLAB].size
    ensures LabelsOk(BootSys(cs, first, p0, p1, p2), d)
  {
    hide IsUsed, Slabs, CacheOk, Obj.Addr, BootMapping, BootLabels, BootSys, LabelOk, LabelsOk, Recorded, OwnsBootPage;
    BootParts(cs, first, p0, p1, p2);
    BootLabelOk(cs, first, p0, p1, p2, d, 0, p0);
    BootLabelOk(cs, first, p0, p1, p2, d, 1, p1);
    BootLabelOk(cs, first, p0, p1, p2, d, 2, p2);
    BootRecorded(cs, first, p0, p1, p2);
    BootLabelled(BootSys(cs, first, p0, p1, p2), first, cs[SLAB].size, d);
  }

  lemma BootLabelOk(cs: seq<Cache>, first: nat, p0: nat, p1: nat, p2: nat, d: seq<Ppage>, k: nat, p: nat)
    requires |cs| == 3 && k < BOOT_OBJECTS && IsUsed(cs[SLAB], Obj(first + 1, k, cs[SLAB].size))
    requires p == (if k == 0 then p0 else if k == 1 then p1 else p2) < |d|
             && d[p].slab == (first + 1) * PAGE + k * cs[SLAB].size
    ensures Vregion(first + k, 1) in BootSys(cs, first, p0, p1, p2).labels
    ensures LabelOk(BootSys(cs, first, p0, p1, p2), d, Vregion(first + k, 1))
  {
    hide IsUsed;
  }

  lemma BootRecorded(cs: seq<Cache>, first: nat, p0: nat, p1: nat, p2: nat)
    requires |cs| == 3 && OwnsBootPage(cs, first, 0) && OwnsBootPage(cs, first, 1) && OwnsBootPage(cs, first, 2)
    ensures forall i: nat, f: nat | i < |cs| :: Recorded(BootSys(cs, first, p0, p1, p2), i, f)
  {
    hide Slabs, CacheOk;
    forall i: nat, f: nat | i < |cs| ensures Recorded(BootSys(cs, first, p0, p1, p2), i, f) {
      assert OwnsBootPage(cs, first, i);
    }
  }

  lemma BootLabelled(s: Sys, first: nat, slabSize: nat, d: seq<Ppage>)
    requires |s.caches| > VREG && s.labels == BootLabels(first, slabSize)
    requires LabelOk(s, d, Vregion(first, 1)) && LabelOk(s, d, Vregion(first + 1, 1))
    requires LabelOk(s, d, Vregion(first + 2, 1))
    requires forall i: nat, f: nat | i < |s.caches| :: Recorded(s, i, f)
    ensures LabelsOk(s, d)
  {
    hide LabelOk, Recorded;
  }

  // ----- objs_cache_boot_init -----

  /** There are not three free pages. */
  ghost predicate FewPages(free: set<Block>) {
    forall a: nat, b: nat, c: nat | a < b < c :: !(Holds(free, a) && Holds(free, b) && Holds(free, c))
  }

  lemma OrderOfOne()
    ensures OrderFor(1) == 0
  {
    assert Pow2(0) == 1;
  }

  /** Of the pages that were free all are but these. */
  ghost predicate FreeBut(f0: set<Block>, f: set<Block>, taken: set<nat>) {
    forall p: nat :: Holds(f, p) <==> Holds(f0, p) && p !in taken
  }

  lemma NothingTaken(f: set<Block>)
    ensures FreeBut(f, f, {})
  {}

  lemma OneTaken(f0: set<Block>, f: set<Block>, f': set<Block>, taken: set<nat>, p: nat)
    requires FreeBut(f0, f, taken) && OnlyTaken(f, f', p, OrderFor(1))
    ensures FreeBut(f0, f', taken + {p})
  {
    OrderOfOne();
    hide Holds, OrderFor;
    forall q: nat ensures Holds(f', q) <==> Holds(f0, q) && q !in taken + {p} { OnePage(p, q); }
  }

  lemma OnePage(p: nat, q: nat)
    ensures Block(p, 0).Covers(q) <==> q == p
  {
    assert Pow2(0) == 1;
  }

  lemma TwoLeft(f0: set<Block>, f: set<Block>, taken: set<nat>, p0: nat, p1: nat)
    requires FreeBut(f0, f, taken) && OutOfPages(f, 1) && taken <= {p0, p1}
    ensures FewPages(f0)
  {
    OrderOfOne();
    assert Pow2(0) == 1 && Pow2(MAX_ORDER - 1) > 1;
    hide Holds, NoRun, OrderFor;
    forall p: nat | Holds(f0, p) ensures p == p0 || p == p1 { NoRunNoPage(f, p); }
  }

  /** Step 2: three times one physical page. It halts if there are not so many. */
  method BootFrames(phys: PageAllocator, ghost frames: set<nat>, ghost first: nat) returns (r: Outcome<(nat, nat, nat)>)
    requires PagesOk(phys) && Untouched(frames, map[], phys.Live())
    modifies phys, phys.dscrs, phys.freeHeads, phys.usedHeads
    ensures r.Ok? ==> PagesOk(phys) && ThreeFrames(phys.Live(), r.value.0, r.value.1, r.value.2)
    ensures r.Ok? ==> r.value.0 < phys.dscrs.Length && r.value.1 < phys.dscrs.Length && r.value.2 < phys.dscrs.Length
    ensures r.Ok? ==> Untouched(frames, BootMapping(first, r.value.0, r.value.1, r.value.2), phys.Live())
    ensures r.Ok? ==> FreeBut(old(phys.Free()), phys.Free(), {r.value.0, r.value.1, r.value.2})
    ensures r.Halted? ==> r.cause == NoPages && FewPages(old(phys.Free()))
  {
    hide BootMapping, Untouched, PagesOk, NewFrames, ThreeFrames, OutOfPages, OnlyTaken, FewPages, FreeSet, OrderFor,
         FreeBut;
    ghost var l0, f0 := phys.Live(), phys.Free();
    var p0 := TakePages(phys, 1);
    if p0.None? {
      NothingTaken(f0);
      TwoLeft(f0, f0, {}, 0, 0);
      return Halted(NoPages);
    }
    ghost var l1, f1 := phys.Live(), phys.Free();
    NothingTaken(f0);
    OneTaken(f0, f0, f1, {}, p0.value);
    assert {} + {p0.value} == {p0.value};
    var p1 := TakePages(phys, 1);
    if p1.None? {
      TwoLeft(f0, f1, {p0.value}, p0.value, p0.value);
      return Halted(NoPages);
    }
    ghost var l2, f2 := phys.Live(), phys.Free();
    OneTaken(f0, f1, f2, {p0.value}, p1.value);
    assert {p0.value} + {p1.value} == {p0.value, p1.value};
    var p2 := TakePages(phys, 1);
    if p2.None? {
      TwoLeft(f0, f2, {p0.value, p1.value}, p0.value, p1.value);
      return Halted(NoPages);
    }
    OneTaken(f0, f2, phys.Free(), {p0.value, p1.value}, p2.value);
    assert {p0.value, p1.value} + {p2.value} == {p0.value, p1.value, p2.value};
    FramesDiffer(l0, l1, l2, phys.Live(), p0.value, p1.value, p2.value);
    BootUntouched(frames, l0, l1, l2, phys.Live(), first, p0.value, p1.value, p2.value);
    return Ok((p0.value, p1.value, p2.value));
  }

  lemma BootMappingInSteps(first: nat, p0: nat, p1: nat, p2: nat)
    ensures Mapped(Mapped(Mapped(map[], Vregion(first, 1), p0), Vregion(first + 1, 1), p1), Vregion(first + 2, 1), p2)
         == BootMapping(first, p0, p1, p2)
  {
    var m1 := Mapped(map[], Vregion(first, 1), p0);
    var m2 := Mapped(m1, Vregion(first + 1, 1), p1);
    var m3, m := Mapped(m2, Vregion(first + 2, 1), p2), BootMapping(first, p0, p1, p2);
    hide Mapped;
    forall p: nat ensures (p in m3 <==> p in m) && (p in m ==> m3[p] == m[p]) {
      MappedAt(map[], Vregion(first, 1), p0, p);
      MappedAt(m1, Vregion(first + 1, 1), p1, p);
      MappedAt(m2, Vregion(first + 2, 1), p2, p);
    }
  }

  lemma BootUntouched(frames: set<nat>, l0: set<Block>, l1: set<Block>, l2: set<Block>, l3: set<Block>, first: nat,
          p0: nat, p1: nat, p2: nat)
    requires Untouched(frames, map[], l0) && NewFrames(l0, l1, p0, 1) && NewFrames(l1, l2, p1, 1)
    requires NewFrames(l2, l3, p2, 1)
    ensures Untouched(frames, BootMapping(first, p0, p1, p2), l3)
  {
    hide Untouched, NewFrames, Mapped, BootMapping;
    var m1 := Mapped(map[], Vregion(first, 1), p0);
    var m2 := Mapped(m1, Vregion(first + 1, 1), p1);
    StillUntouched(frames, map[], l0, Vregion(first, 1), p0, l1);
    StillUntouched(frames, m1, l1, Vregion(first + 1, 1), p1, l2);
    StillUntouched(frames, m2, l2, Vregion(first + 2, 1), p2, l3);
    BootMappingInSteps(first, p0, p1, p2);
  }

  /** Step 3: the three pages are mapped. It never panics. */
  method MapThree(machine: P.Machine, ghost tables: set<nat>, ghost frames: set<nat>, first: nat, p0: nat, p1: nat,
                  p2: nat)
    returns (ok: bool)
    requires Agrees(machine, map[], tables, frames) && first > 0
    requires forall p: nat | first <= p < first + 3 :: HasTable(tables, p)
    requires p0 < P.PAGES && p1 < P.PAGES && p2 < P.PAGES
    modifies machine
    ensures ok && Agrees(machine, BootMapping(first, p0, p1, p2), tables, frames)
    ensures OthersStay(old(machine.mem), machine.mem, machine.cr3, first, 3) && machine.cr3 == old(machine.cr3)
  {
    ghost var m1 := Mapped(map[], Vregion(first, 1), p0);
    ghost var m2 := Mapped(m1, Vregion(first + 1, 1), p1);
    hide Agrees, Mapped, BootMapping, OthersStay;
    BootMappingInSteps(first, p0, p1, p2);
    ghost var mem0 := machine.mem;
    var ok0 := MapPage(machine, map[], tables, frames, first, p0);
    ghost var mem1 := machine.mem;
    var ok1 := MapPage(machine, m1, tables, frames, first + 1, p1);
    ghost var mem2 := machine.mem;
    var ok2 := MapPage(machine, m2, tables, frames, first + 2, p2);
    ThreeStay(mem0, mem1, mem2, machine.mem, machine.cr3, first);
    return ok0 && ok1 && ok2;
  }

  lemma ThreeStay(m0: Mem, m1: Mem, m2: Mem, m3: Mem, cr3: P.word, first: nat)
    requires OthersStay(m0, m1, cr3, first, 1) && OthersStay(m1, m2, cr3, first + 1, 1)
    requires OthersStay(m2, m3, cr3, first + 2, 1)
    ensures OthersStay(m0, m3, cr3, first, 3)
  {
    hide P.Walk;
  }

  /** map_pages for one page that has a page table. */
  method MapPage(machine: P.Machine, ghost mapping: map<nat, nat>, ghost tables: set<nat>, ghost frames: set<nat>,
                 vpn: nat, ppn: nat)
    returns (ok: bool)
    requires Agrees(machine, mapping, tables, frames) && vpn > 0 && HasTable(tables, vpn) && ppn < P.PAGES
    modifies machine
    ensures ok && Agrees(machine, Mapped(mapping, Vregion(vpn, 1), ppn), tables, frames)
    ensures OthersStay(old(machine.mem), machine.mem, machine.cr3, vpn, 1) && machine.cr3 == old(machine.cr3)
  {
    EndsBelowWindow(tables, vpn, 1);
    hide Agrees, Mapped, OthersStay;
    ok := MapInto(machine, mapping, tables, frames, ppn, vpn, 1);
  }

  /** The ppages_set_slab calls of step 4 for the slab objects, which are the first three of
      page first + 1; false is a failed KASSERT. */
  method LabelThree(phys: PageAllocator, first: nat, slabSize: nat, p0: nat, p1: nat, p2: nat) returns (ok: bool)
    requires PagesOk(phys)
    requires p0 < phys.dscrs.Length && p1 < phys.dscrs.Length && p2 < phys.dscrs.Length && p0 != p1 && p1 != p2
    requires p0 != p2
    modifies phys.dscrs
    ensures phys.dscrs[p0].slab == (first + 1) * PAGE && phys.dscrs[p1].slab == (first + 1) * PAGE + slabSize
    ensures phys.dscrs[p2].slab == (first + 1) * PAGE + 2 * slabSize
    ensures ok && PagesOk(phys) && phys.Live() == old(phys.Live()) && phys.Free() == old(phys.Free())
  {
    hide SoundBy, BuddyAlloc.Valid, Canonical, FreeSet;
    var slab := (first + 1) * PAGE;
    var ok0 := phys.SetSlab(p0, 1, slab, Some(1));
    var ok1 := phys.SetSlab(p1, 1, slab + slabSize, Some(1));
    var ok2 := phys.SetSlab(p2, 1, slab + 2 * slabSize, Some(1));
    return ok0 && ok1 && ok2;
  }

  /** sizeof of the three structs, and how many of each fit in a page beside the boot ones. */
  ghost predicate SizesOk(cacheSize: nat, slabSize: nat, vregionSize: nat) {
    4 <= cacheSize && 4 * cacheSize <= 4096 && 4 <= slabSize && 4 * slabSize <= 4096
    && 4 <= vregionSize && 4 * vregionSize <= 4096
  }

  /** The state boot ends in: three caches with a slab each, in the pages from first on, and all
      pages behind them up to last free. */
  ghost predicate Booted(s: Sys, first: nat, last: nat, cacheSize: nat, slabSize: nat, vregionSize: nat) {
    && |s.caches| == 3 && s.news == [] && s.boots == [Vregion(first, 1), Vregion(first + 1, 1), Vregion(first + 2, 1)]
    && first + 2 <= last && s.free == [Vregion(first + 3, last - first - 2)]
    && s.mapping.Keys == {first, first + 1, first + 2}
    && OneSlab(s.caches[0], cacheSize, first, 3) && OneSlab(s.caches[1], slabSize, first + 1, 3)
    && OneSlab(s.caches[2], vregionSize, first + 2, 4)
  }

  /** Boot is over; of the pages that were free all are but the three that are mapped now. */
  ghost predicate BootOver(s: Sys, f0: set<Block>, f: set<Block>, first: nat, last: nat, cacheSize: nat, slabSize: nat,
                           vregionSize: nat) {
    && Booted(s, first, last, cacheSize, slabSize, vregionSize) && Reserved(s) && FreeBut(f0, f, s.mapping.Values)
    && 4096 / slabSize >= 6 && 4096 / vregionSize >= 6
  }

  /** objs_cache_boot_init with virtual_page_boot_init. Its two assertions about the reserves
      hold exactly when a page holds six Slab and six Vregion objects. */
  method Boot(phys: PageAllocator, machine: P.Machine, ghost tables: set<nat>, ghost frames: set<nat>, ghost own: nat,
              first: nat, last: nat, cacheSize: nat, slabSize: nat, vregionSize: nat) returns (r: Outcome<Kernel>)
    requires PagesOk(phys) && phys.dscrs.Length <= P.PAGES
    requires Agrees(machine, map[], tables, frames) && Untouched(frames, map[], phys.Live())
    requires OwnShown(machine.mem, machine.cr3, own) && forall f: nat | f < own :: f in frames
    requires 0xC0000 + own <= first && first + 2 <= last && forall p: nat | first <= p <= last :: HasTable(tables, p)
    requires SizesOk(cacheSize, slabSize, vregionSize)
    modifies machine, phys, phys.dscrs, phys.freeHeads, phys.usedHeads
    ensures r.Ok? ==> fresh(r.value) && r.value.phys == phys && r.value.machine == machine && r.value.Valid()
    ensures r.Ok? ==> r.value.tableFrames == frames && r.value.own == own
    ensures r.Ok? ==>
              BootOver(r.value.View(), old(phys.Free()), phys.Free(), first, last, cacheSize, slabSize, vregionSize)
    ensures r.Ok? ==> machine.cr3 == old(machine.cr3)
    ensures r.Ok? ==> OthersStay(old(machine.mem), machine.mem, machine.cr3, first, 3)
    ensures r.Halted? ==>
              || (r.cause.NoPages? && FewPages(old(phys.Free())))
              || (r.cause.ReserveBroken? && (4096 / slabSize < 6 || 4096 / vregionSize < 6))
  {
    hide SysOk, PagesOk, FewPages, FreeSet, ThreeFrames, Agrees, BootMapping, Untouched, OthersStay, OwnShown, FreeBut,
         BootOver, SizesOk, HasTable, Kernel.Valid, Slabelled;
    ghost var f0 := phys.Free();
    var pages := FirstPages(phys, machine, tables, frames, own, first, slabSize);
    if pages.Halted? {
      return Halted(pages.cause);
    }
    var (p0, p1, p2) := pages.value;
    r := FirstKernel(phys, machine, tables, frames, own, first, last, cacheSize, slabSize, vregionSize, p0, p1, p2, f0);
  }

  /** The descriptors of the three frames name the first three Slab objects. */
  ghost predicate Slabelled(d: seq<Ppage>, first: nat, slabSize: nat, p0: nat, p1: nat, p2: nat) {
    && p0 < |d| && p1 < |d| && p2 < |d| && d[p0].slab == (first + 1) * PAGE
    && d[p1].slab == (first + 1) * PAGE + slabSize && d[p2].slab == (first + 1) * PAGE + 2 * slabSize
  }

  /** Step 4 but for the labels, and virtual_page_boot_init. */
  method FirstKernel(phys: PageAllocator, machine: P.Machine, ghost tables: set<nat>, ghost frames: set<nat>,
                     ghost own: nat, first: nat, last: nat, cacheSize: nat, slabSize: nat, vregionSize: nat,
                     ghost p0: nat, ghost p1: nat, ghost p2: nat, ghost f0: set<Block>) returns (r: Outcome<Kernel>)
    requires PagesOk(phys) && phys.dscrs.Length <= P.PAGES && ThreeFrames(phys.Live(), p0, p1, p2)
    requires Agrees(machine, BootMapping(first, p0, p1, p2), tables, frames)
    requires Untouched(frames, BootMapping(first, p0, p1, p2), phys.Live())
    requires Slabelled(phys.dscrs[..], first, slabSize, p0, p1, p2) && FreeBut(f0, phys.Free(), {p0, p1, p2})
    requires OwnShown(machine.mem, machine.cr3, own) && forall f: nat | f < own :: f in frames
    requires 0xC0000 + own <= first && first + 2 <= last && forall p: nat | first <= p <= last :: HasTable(tables, p)
    requires SizesOk(cacheSize, slabSize, vregionSize)
    modifies machine, phys, phys.dscrs, phys.freeHeads, phys.usedHeads
    ensures unchanged(machine, phys, phys.dscrs, phys.freeHeads, phys.usedHeads)
    ensures r.Ok? ==> fresh(r.value) && r.value.phys == phys && r.value.machine == machine && r.value.Valid()
    ensures r.Ok? ==> r.value.tableFrames == frames && r.value.own == own
    ensures r.Ok? ==> BootOver(r.value.View(), f0, phys.Free(), first, last, cacheSize, slabSize, vregionSize)
    ensures r.Halted? ==> r.cause.ReserveBroken? && (4096 / slabSize < 6 || 4096 / vregionSize < 6)
  {
    hide SysOk, PagesOk, FreeSet, BootCache, ThreeFrames, Agrees, BootMapping, Untouched, LabelsOk, OwnShown, FreeBut,
         FirstCaches, FirstTaken, BootOver, Slabelled, CacheOk, TakenFirst;
    ThreeCachesOk(cacheSize, slabSize, vregionSize, first);
    var caches := [BootCache(cacheSize, first), BootCache(slabSize, first + 1), BootCache(vregionSize, first + 2)];
    ghost var s := BootSys(caches, first, p0, p1, p2);
    FirstStateOk(caches, first, p0, p1, p2, tables, phys.Live(), phys.dscrs[..], cacheSize, slabSize, vregionSize);
    if caches[SLAB].freeObjs <= MIN_SLABS || caches[VREG].freeObjs <= MIN_VREGIONS {
      return Halted(ReserveBroken);
    }
    var ordered := CheckOrder(BootRegions(first));
    if !ordered {
      return Halted(Misuse);
    }
    var k := new Kernel.Of(phys, machine, caches, BootRegions(first), tables, frames, BootMapping(first, p0, p1, p2),
                           BootLabels(first, slabSize), first + 3, own);
    ghost var o := TakeFirstRegion(k, first + 3, last - first - 2);
    IsBooted(s, k.View(), f0, phys.Free(), first, last, cacheSize, slabSize, vregionSize, p0, p1, p2, o);
    return Ok(k);
  }

  /** Steps 2 to 4 of objs_cache_boot_init as far as pages go: three frames are allocated, mapped
      and labelled. */
  method FirstPages(phys: PageAllocator, machine: P.Machine, ghost tables: set<nat>, ghost frames: set<nat>,
                    ghost own: nat, first: nat, slabSize: nat) returns (r: Outcome<(nat, nat, nat)>)
    requires PagesOk(phys) && phys.dscrs.Length <= P.PAGES
    requires Agrees(machine, map[], tables, frames) && Untouched(frames, map[], phys.Live())
    requires OwnShown(machine.mem, machine.cr3, own)
    requires 0xC0000 + own <= first && forall p: nat | first <= p < first + 3 :: HasTable(tables, p)
    modifies machine, phys, phys.dscrs, phys.freeHeads, phys.usedHeads
    ensures r.Ok? ==>
              var (p0, p1, p2) := r.value;
              && PagesOk(phys) && ThreeFrames(phys.Live(), p0, p1, p2)
              && Slabelled(phys.dscrs[..], first, slabSize, p0, p1, p2)
              && Agrees(machine, BootMapping(first, p0, p1, p2), tables, frames)
              && Untouched(frames, BootMapping(first, p0, p1, p2), phys.Live())
              && FreeBut(old(phys.Free()), phys.Free(), {p0, p1, p2})
    ensures r.Ok? ==>
              && OthersStay(old(machine.mem), machine.mem, machine.cr3, first, 3) && machine.cr3 == old(machine.cr3)
              && OwnShown(machine.mem, machine.cr3, own)
    ensures r.Halted? ==> r.cause == NoPages && FewPages(old(phys.Free()))
  {
    hide PagesOk, FewPages, FreeSet, ThreeFrames, Agrees, BootMapping, Untouched;
    hide OthersStay, OwnShown, FreeBut, HasTable;
    ghost var m := machine.mem;
    r := BootFrames(phys, frames, first);
    if r.Halted? {
      return;
    }
    var (p0, p1, p2) := r.value;
    FramesApart(phys.Live(), p0, p1, p2);
    var mapped := MapThree(machine, tables, frames, first, p0, p1, p2);
    var labelled := LabelThree(phys, first, slabSize, p0, p1, p2);
    OwnStays(m, machine.mem, machine.cr3, first, 3, own);
  }

  /** The three first caches, each with a slab of its own. */
  ghost predicate FirstCaches(cs: seq<Cache>, first: nat, cacheSize: nat, slabSize: nat, vregionSize: nat) {
    && |cs| == 3 && OwnsBootPage(cs, first, 0) && OwnsBootPage(cs, first, 1) && OwnsBootPage(cs, first, 2)
    && OneSlab(cs[0], cacheSize, first, 3) && OneSlab(cs[1], slabSize, first + 1, 3)
    && OneSlab(cs[2], vregionSize, first + 2, 3) && InUseFrom(cs[1], first + 1)
  }

  lemma ThreeCachesOk(cacheSize: nat, slabSize: nat, vregionSize: nat, first: nat)
    requires SizesOk(cacheSize, slabSize, vregionSize) && first > 0
    ensures Capacity(1, cacheSize) > 3 && Capacity(1, slabSize) > 3 && Capacity(1, vregionSize) > 3
    ensures FirstCaches(
              [BootCache(cacheSize, first), BootCache(slabSize, first + 1), BootCache(vregionSize, first + 2)],
              first, cacheSize, slabSize, vregionSize)
  {
    hide OneSlab, CacheOk, Slabs, InUseFrom, BootCache, Capacity;
    BootCacheOk(cacheSize, first);
    BootCacheOk(slabSize, first + 1);
    BootCacheOk(vregionSize, first + 2);
  }

  lemma FirstStateOk(cs: seq<Cache>, first: nat, p0: nat, p1: nat, p2: nat, tables: set<nat>, live: set<Block>,
                     d: seq<Ppage>, cacheSize: nat, slabSize: nat, vregionSize: nat)
    requires FirstCaches(cs, first, cacheSize, slabSize, vregionSize) && first > 0
    requires ThreeFrames(live, p0, p1, p2) && forall p: nat | first <= p < first + 3 :: HasTable(tables, p)
    requires Slabelled(d, first, slabSize, p0, p1, p2)
    ensures |cs| == 3 && slabSize > 0 && vregionSize > 0 && cs[SLAB].size == slabSize
    ensures cs[SLAB].freeObjs == 4096 / slabSize - 3 && cs[VREG].freeObjs == 4096 / vregionSize - 3
    ensures SysOk(BootSys(cs, first, p0, p1, p2), first + 3, tables, live)
    ensures LabelsOk(BootSys(cs, first, p0, p1, p2), d)
  {
    hide CacheOk, Slabs, InUseFrom, ThreeFrames, HasTable, SysOk, LabelsOk;
    BootSysOk(cs, first, p0, p1, p2, tables, live);
    BootLabelsOk(cs, first, p0, p1, p2, d);
  }

  lemma BootedMapping(first: nat, p0: nat, p1: nat, p2: nat)
    ensures BootMapping(first, p0, p1, p2).Keys == {first, first + 1, first + 2}
    ensures BootMapping(first, p0, p1, p2).Values == {p0, p1, p2}
  {
    var m := BootMapping(first, p0, p1, p2);
    assert m[first] == p0 && m[first + 1] == p1 && m[first + 2] == p2;
  }

  lemma IsBooted(s: Sys, s': Sys, f0: set<Block>, f: set<Block>, first: nat, last: nat, cacheSize: nat, slabSize: nat,
                 vregionSize: nat, p0: nat, p1: nat, p2: nat, o: Obj)
    requires FirstCaches(s.caches, first, cacheSize, slabSize, vregionSize) && first + 2 <= last
    requires s == BootSys(s.caches, first, p0, p1, p2) && FreeBut(f0, f, {p0, p1, p2})
    requires 4096 / slabSize >= 6 && 4096 / vregionSize >= 6
    requires FirstTaken(s, s', Vregion(first + 3, last - first - 2), o)
    ensures BootOver(s', f0, f, first, last, cacheSize, slabSize, vregionSize)
  {
    hide OwnsBootPage, InUseFrom, BootMapping, FreeBut;
    BootedMapping(first, p0, p1, p2);
    OneMoreUsed(s.caches[2], s'.caches[2], vregionSize, first + 2, o);
    hide OneSlab, TakenFirst;
  }

  lemma OneMoreUsed(c: Cache, c': Cache, size: nat, vpn: nat, o: Obj)
    requires OneSlab(c, size, vpn, 3) && 4096 / size >= 6 && TakenFirst(c, c', o)
    ensures OneSlab(c', size, vpn, 4)
  {
    var n := 4096 / size;
    var free := seq(n - 3, k => 3 + k);
    assert free[1..] == seq(n - 4, k => 4 + k);
  }

  /** A Vregion object was taken for the first free region. */
  ghost predicate FirstTaken(s: Sys, s': Sys, r: Vregion, o: Obj) {
    && |s'.caches| == |s.caches| == 3 && s'.caches[0] == s.caches[0] && s'.caches[1] == s.caches[1]
    && TakenFirst(s.caches[2], s'.caches[2], o)
    && s'.free == [r] && s'.news == s.news && s'.boots == s.boots && s'.mapping == s.mapping && s'.labels == s.labels
  }

  /** The end of virtual_page_boot_init: a Vregion object for the first free region. Both
      reserves are above their minimum, so taking it never fails. */
  method TakeFirstRegion(k: Kernel, first: nat, n: nat) returns (ghost taken: Obj)
    requires k.Valid() && FreeSlabs(k.View()) > MIN_SLABS && FreeVregions(k.View()) > MIN_VREGIONS
    requires k.freeRegions == [] && k.news == [] && first >= k.lo
    requires forall p: nat | first <= p < first + n :: HasTable(k.tables, p)
    modifies k, k.machine, k.phys, k.phys.dscrs, k.phys.freeHeads, k.phys.usedHeads
    requires |k.caches| == 3
    ensures k.Valid() && FirstTaken(old(k.View()), k.View(), Vregion(first, n), taken)
    ensures unchanged(k.machine, k.phys, k.phys.dscrs, k.phys.freeHeads, k.phys.usedHeads)
  {
    ghost var s := k.View();
    hide SysOk, Kernel.PhysOk, Kernel.TablesOk, ObjectAllocated, HasTable, FirstTaken;
    var o := k.ObjsCacheAlloc(VREG);
    ghost var s1 := k.View();
    FirstVregion(s, s1, o.value);
    k.SetFree(Vregion(first, n));
    FirstIsTaken(s, s1, k.View(), o.value, Vregion(first, n));
    taken := o.value;
  }

  lemma FirstVregion(s: Sys, s': Sys, o: Obj)
    requires ObjectAllocated(s, s', VREG, o) && |s.caches| > VREG && FreeSlabs(s) > 2 && FreeVregions(s) > 2
    ensures HandedFrom(s, s', VREG, o) && s'.news == s.news && s'.free == s.free
  {}

  lemma FirstIsTaken(s: Sys, s1: Sys, s2: Sys, o: Obj, r: Vregion)
    requires |s.caches| == 3 && HandedFrom(s, s1, VREG, o) && s2 == s1.(free := [r])
    ensures FirstTaken(s, s2, r, o)
  {
    HandedExtends(s, s1, VREG, o);
    OnlyOneCacheMoved(s, s1, VREG);
    hide HandedOut, TakenFirst, Extends;
  }

  // ----- from power-on -----

  const MEMORY_PAGES: nat := 1024        // the 4MB src/kernel/main.c assumes
  const IMAGE_START: nat := 0x10_0000    // where src/atros.lds puts the kernel image
  const IMAGE_LIMIT: nat := 0x20_0000    // where it must end
  const KERNEL_SLOT: nat := 768          // the directory slot of KERNEL_SPACE

  /** Pages that hold so many bytes. */
  function PagesFor(bytes: nat): nat { (bytes + PAGE - 1) / PAGE }

  lemma FirstTables(m: Mem, kpgd: P.word, kpgt: P.word)
    requires kpgd % P.PAGE == 0
    requires forall i | 0 <= i < P.ENTRIES ::
               P.Present(P.Pde(m, kpgd, i)) <==> i == P.KERNEL_SPACE / P.MB4 || i == P.REC
    requires P.Base(P.Pde(m, kpgd, P.KERNEL_SPACE / P.MB4)) == kpgt && P.Base(P.Pde(m, kpgd, P.REC)) == kpgd
    ensures TablesAgree({KERNEL_SLOT}, m, kpgd) && Shown(map[], m, kpgd)
    ensures HoldTables({kpgd / P.PAGE, kpgt / P.PAGE}, m, kpgd)
  {
    hide P.Present, P.Pde;
  }

  /** Frames that contain those of the tables. */
  lemma MoreFrames(machine: P.Machine, frames: set<nat>, more: set<nat>)
    requires Agrees(machine, map[], {KERNEL_SLOT}, frames) && frames <= more
    ensures Agrees(machine, map[], {KERNEL_SLOT}, more)
  {
    hide P.Present, P.Pde, P.Base, Shown, TablesAgree, P.Recursive, P.Coherent, P.TablesApart;
  }

  lemma KernelSlot(vpn: nat)
    requires KERNEL_SLOT * 1024 <= vpn < (KERNEL_SLOT + 1) * 1024
    ensures HasTable({KERNEL_SLOT}, vpn)
  {}

  lemma Forgotten(machine: P.Machine, mapping: map<nat, nat>, tables: set<nat>, frames: set<nat>)
    requires Agrees(machine, mapping, tables, frames)
    ensures Agrees(machine, map[], tables, frames)
  {}

  lemma ImagePages(kernelEnd: nat)
    requires IMAGE_START < kernelEnd <= IMAGE_LIMIT && kernelEnd % 4096 == 0
    ensures 256 < PagesFor(kernelEnd) == kernelEnd / 4096 <= 512 && PagesFor(kernelEnd) * 4096 == kernelEnd
  {}

  lemma DescriptorPages(dscrSize: nat)
    ensures PagesFor(MEMORY_PAGES * dscrSize) == (1024 * dscrSize + 4095) / 4096
  {}

  lemma InImage(a: P.word, kernelEnd: nat)
    requires IMAGE_START <= a < kernelEnd && a % P.PAGE == 0
    ensures 0 <= a / P.PAGE < PagesFor(kernelEnd)
  {}

  /** Once paging is set up, the first megabyte and the image are mapped to themselves. */
  lemma ImageShown(m: Mem, cr3: P.word, kernelEnd: nat)
    requires kernelEnd <= IMAGE_LIMIT && kernelEnd % 4096 == 0
    requires forall v: P.word | 0xC000_0000 <= v < 0xC010_0000 :: P.Walk(m, cr3, v) == Some(v - 0xC000_0000)
    requires forall v: P.word | 0xC010_0000 <= v < 0xC000_0000 + kernelEnd :: P.Walk(m, cr3, v) == Some(v - 0xC000_0000)
    ensures OwnShown(m, cr3, PagesFor(kernelEnd))
  {
    hide P.Walk;
    assert PagesFor(kernelEnd) * 4096 == kernelEnd;
  }

  /** Behind the first n pages of its slot the kernel has nothing mapped. */
  ghost predicate NothingBehind(m: Mem, cr3: P.word, n: nat) {
    forall v: P.word | 0xC000_0000 + n * 4096 <= v < 0xC040_0000 :: P.Walk(m, cr3, v) == None
  }

  lemma ImageAlone(m: Mem, cr3: P.word, kernelEnd: nat)
    requires IMAGE_START < kernelEnd <= IMAGE_LIMIT && kernelEnd % 4096 == 0
    requires forall v: P.word | 0xC010_0000 <= v < 0xC040_0000 ::
               var page := v - v % 4096 - 0xC000_0000;
               page + 4096 <= IMAGE_START || kernelEnd <= page ==> P.Walk(m, cr3, v) == None
    ensures NothingBehind(m, cr3, PagesFor(kernelEnd))
  {
    hide P.Walk;
    assert PagesFor(kernelEnd) * 4096 == kernelEnd;
    forall v: P.word | 0xC000_0000 + PagesFor(kernelEnd) * 4096 <= v < 0xC040_0000 ensures P.Walk(m, cr3, v) == None {
      assert kernelEnd <= v - v % 4096 - 0xC000_0000;
    }
  }

  lemma NothingStays(m: Mem, m': Mem, cr3: P.word, n: nat, k: nat)
    requires NothingBehind(m, cr3, n) && OthersStay(m, m', cr3, 0xC0000 + n, k)
    ensures NothingBehind(m', cr3, n + k)
  {
    hide P.Walk;
    forall v: P.word | 0xC000_0000 + (n + k) * 4096 <= v < 0xC040_0000 ensures P.Walk(m', cr3, v) == None {
      assert v / P.PAGE >= 0xC0000 + n + k;
    }
  }

  /** Pages mapped to the frames behind the first n, next to the pages mapped to these. */
  lemma MoreShown(mapping: map<nat, nat>, m: Mem, m': Mem, cr3: P.word, n: nat, k: nat)
    requires OwnShown(m, cr3, n) && OthersStay(m, m', cr3, 0xC0000 + n, k) && Shown(mapping, m', cr3)
    requires forall p: nat | 0xC0000 + n <= p < 0xC0000 + n + k :: p in mapping && mapping[p] == p - 0xC0000
    ensures OwnShown(m', cr3, n + k)
  {
    hide P.Walk;
    forall v: P.word | 0xC000_0000 <= v < 0xC000_0000 + (n + k) * 4096
      ensures P.Walk(m', cr3, v) == Some(v - 0xC000_0000)
    {
      var p := v / P.PAGE;
      if p >= 0xC0000 + n {
        assert ShownAt(mapping, m', cr3, p);
      }
    }
  }

  lemma MemorySize()
    ensures Low(MEMORY_PAGES, MAX_ORDER - 1) == 0
  {
    assert Pow2(3) == 8;
    assert Pow2(6) == 64;
    LowIsRemainder(MEMORY_PAGES, MAX_ORDER - 1);
  }

  /** physical_page_boot_init, behind an image that ends at page free: gets and maps so many
      pages for the descriptors, and sets up the page allocator. */
  method SetUpPages(text: Text, machine: P.Machine, free: nat, dscrs: nat, ghost frames: set<nat>)
    returns (phys: PageAllocator)
    requires 256 < free && free + dscrs <= MEMORY_PAGES && Agrees(machine, map[], {KERNEL_SLOT}, frames)
    requires OwnShown(machine.mem, machine.cr3, free) && NothingBehind(machine.mem, machine.cr3, free)
    requires forall f | f in frames :: 0 <= f < free + dscrs
    modifies machine
    ensures fresh(phys) && fresh(phys.dscrs) && fresh(phys.freeHeads) && fresh(phys.usedHeads)
    ensures phys.text == text && PagesOk(phys) && phys.dscrs.Length == MEMORY_PAGES
    ensures Agrees(machine, map[], {KERNEL_SLOT}, frames) && machine.cr3 == old(machine.cr3)
    ensures OwnShown(machine.mem, machine.cr3, free + dscrs) && NothingBehind(machine.mem, machine.cr3, free + dscrs)
    ensures Untouched(frames, map[], phys.Live()) && FreeFrom(phys.Free(), free + dscrs)
  {
    hide Agrees, Untouched, PagesOk, FreeSet, LiveSet, OwnShown, NothingBehind, FreeFrom;
    MapDescriptors(machine, free, dscrs, frames);
    phys := SetUpAllocator(text, free, free + dscrs, frames);
  }

  /** Of the memory all pages from this one on are free. */
  ghost predicate FreeFrom(free: set<Block>, used: nat) {
    forall p: nat :: Holds(free, p) <==> used <= p < 1024
  }

  method MapDescriptors(machine: P.Machine, free: nat, dscrs: nat, ghost frames: set<nat>)
    requires free + dscrs <= MEMORY_PAGES && Agrees(machine, map[], {KERNEL_SLOT}, frames)
    requires OwnShown(machine.mem, machine.cr3, free) && NothingBehind(machine.mem, machine.cr3, free)
    modifies machine
    ensures Agrees(machine, map[], {KERNEL_SLOT}, frames) && machine.cr3 == old(machine.cr3)
    ensures OwnShown(machine.mem, machine.cr3, free + dscrs) && NothingBehind(machine.mem, machine.cr3, free + dscrs)
  {
    forall p: nat | KERNEL_SLOT * 1024 + free <= p < KERNEL_SLOT * 1024 + free + dscrs
      ensures HasTable({KERNEL_SLOT}, p)
    {
      KernelSlot(p);
    }
    hide Agrees, HasTable, OwnShown, NothingBehind, OthersStay;
    ghost var m := machine.mem;
    var mapped := MapInto(machine, map[], {KERNEL_SLOT}, frames, free, KERNEL_SLOT * 1024 + free, dscrs);
    DescriptorsShown(machine, m, free, dscrs, frames);
    NothingStays(m, machine.mem, machine.cr3, free, dscrs);
    Forgotten(machine, Mapped(map[], Vregion(KERNEL_SLOT * 1024 + free, dscrs), free), {KERNEL_SLOT}, frames);
  }

  lemma DescriptorsShown(machine: P.Machine, m: Mem, free: nat, dscrs: nat, frames: set<nat>)
    requires Agrees(machine, Mapped(map[], Vregion(0xC0000 + free, dscrs), free), {KERNEL_SLOT}, frames)
    requires OwnShown(m, machine.cr3, free) && OthersStay(m, machine.mem, machine.cr3, 0xC0000 + free, dscrs)
    ensures OwnShown(machine.mem, machine.cr3, free + dscrs)
  {
    var el := Vregion(0xC0000 + free, dscrs);
    var mapping := Mapped(map[], el, free);
    hide Mapped, Shown, OwnShown, OthersStay;
    forall p: nat | 0xC0000 + free <= p < 0xC0000 + free + dscrs ensures p in mapping && mapping[p] == p - 0xC0000 {
      MappedAt(map[], el, free, p);
    }
    MoreShown(mapping, m, machine.mem, machine.cr3, free, dscrs);
  }

  /** The image ends at page free, and boot has handed out the pages up to used. */
  method SetUpAllocator(text: Text, free: nat, used: nat, ghost frames: set<nat>) returns (phys: PageAllocator)
    requires 256 < free <= used <= MEMORY_PAGES && forall f | f in frames :: 0 <= f < used
    ensures fresh(phys) && fresh(phys.dscrs) && fresh(phys.freeHeads) && fresh(phys.usedHeads)
    ensures phys.text == text && PagesOk(phys) && phys.dscrs.Length == MEMORY_PAGES
    ensures Untouched(frames, map[], phys.Live()) && FreeFrom(phys.Free(), used)
  {
    MemorySize();
    hide Canonical, FreeSet, LiveSet, BlocksOf, Greedy, Holds, SoundBy, BuddyAlloc.Valid;
    phys := new PageAllocator.BootInit(text, MEMORY_PAGES, 256, free, used);
  }

  lemma NotFew(free: set<Block>, used: nat)
    requires FreeFrom(free, used) && used + 3 <= 1024
    ensures !FewPages(free)
  {
    hide Holds;
    assert Holds(free, 1021) && Holds(free, 1022) && Holds(free, 1023);
  }

  ghost function FirstFrames(n: nat): (frames: set<nat>)
    ensures forall f: nat :: f in frames <==> f < n
  {
    if n == 0 then {} else FirstFrames(n - 1) + {n - 1}
  }

  /** What is free, used and mapped once main has set up memory, own pages of which it keeps. */
  ghost predicate PoweredOn(k: Kernel, own: nat)
    reads k, k.phys, k.phys.dscrs, k.machine
  {
    && k.usedRegions == [Vregion(0xC0000 + own, 1), Vregion(0xC0001 + own, 1), Vregion(0xC0002 + own, 1)]
    && own + 3 <= 1024 && k.freeRegions == [Vregion(0xC0003 + own, 1021 - own)]
    && k.mapping.Keys == {0xC0000 + own, 0xC0001 + own, 0xC0002 + own}
    && (forall f: nat | f < own :: Holds(k.phys.Live(), f) && f !in k.mapping.Values)
    && (forall f: nat :: Holds(k.phys.Free(), f) <==> own <= f < 1024 && f !in k.mapping.Values)
    && (forall v: P.word | 0xC000_0000 <= v < 0xC000_0000 + own * 4096 ::
          P.Walk(k.machine.mem, k.machine.cr3, v) == Some(v - 0xC000_0000))
    && (forall v: P.word | 0xC000_0000 + (own + 3) * 4096 <= v < 0xC040_0000 ::
          P.Walk(k.machine.mem, k.machine.cr3, v) == None)
  }

  /** paging_boot_init. */
  method StartPaging(machine: P.Machine, kpgd: P.word, kpgt: P.word, kernelEnd: nat)
    requires kpgd % P.PAGE == 0 && kpgt % P.PAGE == 0 && kpgd != kpgt
    requires IMAGE_START < kernelEnd <= IMAGE_LIMIT && kernelEnd % 4096 == 0
    modifies machine
    ensures Agrees(machine, map[], {KERNEL_SLOT}, {kpgd / P.PAGE, kpgt / P.PAGE})
    ensures OwnShown(machine.mem, machine.cr3, PagesFor(kernelEnd))
    ensures NothingBehind(machine.mem, machine.cr3, PagesFor(kernelEnd))
  {
    machine.BootInit(kpgd, kpgt, IMAGE_START, kernelEnd);
    hide P.Walk, P.Present, P.Pde, P.Base, P.Recursive, P.Coherent, P.TablesApart, PagesFor, OwnShown, NothingBehind;
    FirstTables(machine.mem, kpgd, kpgt);
    ImageShown(machine.mem, kpgd, kernelEnd);
    ImageAlone(machine.mem, kpgd, kernelEnd);
  }

  /** The parts of main that set up memory: paging_boot_init, physical_page_boot_init with
      descriptors of dscrSize bytes, and objs_cache_boot_init; in either text of the page
      allocator. The image ends at the end of a page and before 2MB (src/atros.lds). */
  method PowerOn(text: Text, machine: P.Machine, kpgd: P.word, kpgt: P.word, kernelEnd: nat, dscrSize: nat,
                 cacheSize: nat, slabSize: nat, vregionSize: nat) returns (r: Outcome<Kernel>)
    requires kpgd % P.PAGE == 0 && kpgt % P.PAGE == 0 && kpgd != kpgt
    requires kernelEnd % 4096 == 0 && kernelEnd <= IMAGE_LIMIT
    requires IMAGE_START <= kpgd < kernelEnd && IMAGE_START <= kpgt < kernelEnd
    requires SizesOk(cacheSize, slabSize, vregionSize)
    modifies machine
    ensures r.Ok? ==> fresh(r.value) && r.value.machine == machine && r.value.Valid() && Reserved(r.value.View())
                      && kpgd / 4096 in r.value.tableFrames && kpgt / 4096 in r.value.tableFrames
                      && r.value.phys.text == text
    ensures var own := kernelEnd / 4096 + (1024 * dscrSize + 4095) / 4096;
            && (r.Ok? ==>
                  && r.value.own == own && PoweredOn(r.value, own)
                  && Booted(r.value.View(), 0xC0000 + own, 0xC03FF, cacheSize, slabSize, vregionSize)
                  && 4096 / slabSize >= 6 && 4096 / vregionSize >= 6)
            && (r.Halted? ==>
                  || (r.cause.NoPages? && own + 3 > 1024)
                  || (r.cause.ReserveBroken? && (4096 / slabSize < 6 || 4096 / vregionSize < 6)))
  {
    hide Agrees, SizesOk, Booted, PagesOk, FreeSet, LiveSet, Untouched, Kernel.Valid, OwnShown, NothingBehind, FreeFrom,
         PoweredOn, Reserved, PagesFor;
    StartPaging(machine, kpgd, kpgt, kernelEnd);
    ImagePages(kernelEnd);
    DescriptorPages(dscrSize);
    var free, dscrs := PagesFor(kernelEnd), PagesFor(MEMORY_PAGES * dscrSize);
    if free + dscrs + 3 > MEMORY_PAGES {
      return Halted(NoPages);
    }
    ghost var frames := FirstFrames(free + dscrs);
    InImage(kpgd, kernelEnd);
    InImage(kpgt, kernelEnd);
    MoreFrames(machine, {kpgd / P.PAGE, kpgt / P.PAGE}, frames);
    var phys := SetUpPages(text, machine, free, dscrs, frames);
    r := BootBehind(phys, machine, frames, free + dscrs, cacheSize, slabSize, vregionSize);
  }

  /** objs_cache_boot_init behind the own pages that are in use. */
  method BootBehind(phys: PageAllocator, machine: P.Machine, ghost frames: set<nat>, own: nat,
                    cacheSize: nat, slabSize: nat, vregionSize: nat) returns (r: Outcome<Kernel>)
    requires PagesOk(phys) && phys.dscrs.Length <= P.PAGES && FreeFrom(phys.Free(), own) && own + 3 <= 1024
    requires Agrees(machine, map[], {KERNEL_SLOT}, frames) && Untouched(frames, map[], phys.Live())
    requires OwnShown(machine.mem, machine.cr3, own) && NothingBehind(machine.mem, machine.cr3, own)
    requires (forall f: nat | f < own :: f in frames) && SizesOk(cacheSize, slabSize, vregionSize)
    modifies machine, phys, phys.dscrs, phys.freeHeads, phys.usedHeads
    ensures r.Ok? ==>
              && fresh(r.value) && r.value.phys == phys && r.value.machine == machine && r.value.Valid()
              && r.value.tableFrames == frames && r.value.own == own
    ensures r.Ok? ==>
              && PoweredOn(r.value, own) && Reserved(r.value.View())
              && Booted(r.value.View(), 0xC0000 + own, 0xC03FF, cacheSize, slabSize, vregionSize)
              && 4096 / slabSize >= 6 && 4096 / vregionSize >= 6
    ensures r.Halted? ==> r.cause.ReserveBroken? && (4096 / slabSize < 6 || 4096 / vregionSize < 6)
  {
    hide Agrees, BootOver, Booted, PagesOk, FewPages, FreeSet, LiveSet, Untouched, Kernel.Valid, HasTable, OwnShown,
         NothingBehind, FreeFrom, PoweredOn, OthersStay, Reserved;
    ghost var m, f0 := machine.mem, phys.Free();
    var first, last := KERNEL_SLOT * 1024 + own, KERNEL_SLOT * 1024 + MEMORY_PAGES - 1;
    forall p: nat | first <= p <= last ensures HasTable({KERNEL_SLOT}, p) { KernelSlot(p); }
    NotFew(phys.Free(), own);
    r := Boot(phys, machine, {KERNEL_SLOT}, frames, own, first, last, cacheSize, slabSize, vregionSize);
    if r.Ok? {
      NothingStays(m, machine.mem, machine.cr3, own, 3);
      IsPoweredOn(r.value, own, f0, cacheSize, slabSize, vregionSize);
    }
  }

  lemma IsPoweredOn(k: Kernel, own: nat, f0: set<Block>, cacheSize: nat, slabSize: nat, vregionSize: nat)
    requires k.Valid() && own + 3 <= 1024 && k.own == own && FreeFrom(f0, own)
    requires BootOver(k.View(), f0, k.phys.Free(), 0xC0000 + own, 0xC03FF, cacheSize, slabSize, vregionSize)
    requires NothingBehind(k.machine.mem, k.machine.cr3, own + 3)
    ensures PoweredOn(k, own) && Booted(k.View(), 0xC0000 + own, 0xC03FF, cacheSize, slabSize, vregionSize)
    ensures Reserved(k.View()) && 4096 / slabSize >= 6 && 4096 / vregionSize >= 6
  {
    hide SysOk, PagesOk, Agrees, LabelsOk, Holds, FreeSet, LiveSet, P.Walk, OneSlab;
    assert k.mapping.Keys == k.View().mapping.Keys;
  }
}
