/** The slab allocator and the virtual page allocator at work: each takes its own book
    keeping objects from the other (src/kernel/mm/slab.c:118-167, 421-496, 587-645,
    src/kernel/mm/virtual_pages.c:206-256). */
module KernelMemory {
  import opened Outcomes
  import opened Blocks
  import opened FreeBlocks
  import opened Clist
  import opened BuddyAlloc
  import L = LooseLists
  import opened SoundLists
  import opened PhysicalPages
  import opened VirtualRegions
  import opened SlabCaches
  import opened KernelState
  import opened SlabLabels
  import opened PageTables
  import P = Paging

  const MIN_SLABS: nat := 2      // MIN_FREE_OBJS_CACHE_SLAB
  const MIN_VREGIONS: nat := 2   // MIN_FREE_OBJS_CACHE_VREGION
  const VREG_PAGES: nat := 1     // VPAGES_PER_SLAB_CACHE_VREGION
  const SLAB_PAGES: nat := 1     // VPAGES_PER_SLAB_CACHE_SLAB

  // ----- the two reserves -----

  /** Free Slab objects. */
  ghost function FreeSlabs(s: Sys): nat
    requires |s.caches| > VREG
  {
    s.caches[SLAB].freeObjs
  }

  /** Free Vregion objects. */
  ghost function FreeVregions(s: Sys): nat
    requires |s.caches| > VREG
  {
    s.caches[VREG].freeObjs
  }

  ghost predicate Reserved(s: Sys) {
    |s.caches| > VREG && FreeSlabs(s) >= MIN_SLABS && FreeVregions(s) >= MIN_VREGIONS
  }

  /** Slab f of cache i was there in s already, or its pages were not in use in s. */
  ghost predicate OldOrOnUnused(s: Sys, s': Sys, i: nat, f: nat)
    requires i < |s'.caches|
  {
    f in Slabs(s'.caches[i]) && !(i < |s.caches| && f in Slabs(s.caches[i])) ==>
      Unused(s, Vregion(f, s'.caches[i].pagesPerSlab))
  }

  /** No slab that was added since s is on pages that were in use in s, nor has a Slab object
      that was. */
  ghost predicate NewOnUnused(s: Sys, s': Sys) {
    && NewNames(s, s')
    && forall i: nat, f: nat | i < |s'.caches| :: OldOrOnUnused(s, s', i, f)
  }

  lemma NewOnUnusedTrans(s: Sys, s1: Sys, s2: Sys)
    requires Extends(s, s1) && Extends(s1, s2) && NewOnUnused(s, s1) && NewOnUnused(s1, s2)
    ensures NewOnUnused(s, s2)
  {
    hide Slabs, Unused, IsUsed, NewNames;
    NewNamesTrans(s, s1, s2);
    forall i: nat, f: nat | i < |s2.caches| ensures OldOrOnUnused(s, s2, i, f) {
      assert OldOrOnUnused(s1, s2, i, f);
      var r := Vregion(f, s2.caches[i].pagesPerSlab);
      if Unused(s1, r) { WasUnused(s, s1, r); }
      if i < |s1.caches| { assert OldOrOnUnused(s, s1, i, f) && SameShape(s1.caches[i], s2.caches[i]); }
    }
  }

  ghost predicate SameSlabs(s: Sys, s': Sys) {
    |s'.caches| == |s.caches| && forall j | 0 <= j < |s.caches| :: Slabs(s'.caches[j]).Keys == Slabs(s.caches[j]).Keys
  }

  lemma SameSlabsNoneNew(s: Sys, s': Sys)
    requires SameSlabs(s, s') && s'.labels == s.labels
    ensures NewOnUnused(s, s')
  {
    hide Slabs, Unused;
  }

  /** Cache i gets a slab at page first, on pages that were not in use in s. */
  lemma OneNewOnUnused(s: Sys, s1: Sys, s2: Sys, i: nat, first: nat)
    requires NewOnUnused(s, s1) && i < |s1.caches| == |s2.caches| && SameShape(s1.caches[i], s2.caches[i])
    requires forall j | 0 <= j < |s1.caches| && j != i :: s2.caches[j] == s1.caches[j]
    requires Slabs(s2.caches[i]).Keys == Slabs(s1.caches[i]).Keys + {first}
    requires Unused(s, Vregion(first, s1.caches[i].pagesPerSlab)) && s2.labels == s1.labels
    ensures NewOnUnused(s, s2)
  {
    hide Slabs, Unused;
    forall j: nat, f: nat | j < |s2.caches| ensures OldOrOnUnused(s, s2, j, f) {
      assert OldOrOnUnused(s, s1, j, f);
    }
  }

  /** s' goes on from s, and no caches have changed but the two reserves and cache i. */
  ghost predicate OnwardBut(s: Sys, s': Sys, i: nat) {
    && |s'.caches| == |s.caches| > VREG && Extends(s, s') && NewOnUnused(s, s')
    && s'.caches[SLAB].perSlab == s.caches[SLAB].perSlab && s'.caches[VREG].perSlab == s.caches[VREG].perSlab
    && (forall j | 0 <= j < |s.caches| && j != SLAB && j != VREG && j != i :: s'.caches[j] == s.caches[j])
  }

  ghost predicate Onward(s: Sys, s': Sys) {
    OnwardBut(s, s', SLAB)
  }

  lemma OnwardTrans(s: Sys, s1: Sys, s2: Sys, i: nat)
    requires OnwardBut(s, s1, i) && OnwardBut(s1, s2, i)
    ensures OnwardBut(s, s2, i)
  {
    hide Extends, NewOnUnused;
    ExtendsTrans(s, s1, s2);
    NewOnUnusedTrans(s, s1, s2);
  }

  /** What _create_slab_for_cache_Vregion does to the reserves. */
  ghost predicate VregionsRefilled(s: Sys, s': Sys) {
    && Onward(s, s')
    && FreeSlabs(s') == (if FreeSlabs(s) == 2 then s.caches[SLAB].perSlab else FreeSlabs(s) - 1)
    && FreeVregions(s) - 1 - (if FreeSlabs(s) == 2 then 1 else 0) + s.caches[VREG].perSlab <= FreeVregions(s')
    && FreeVregions(s') <= FreeVregions(s) + s.caches[VREG].perSlab
  }

  /** What _create_slab_for_cache_Slab does to the reserves. */
  ghost predicate SlabsRefilled(s: Sys, s': Sys) {
    && Onward(s, s')
    && (FreeVregions(s) > 2 ==>
        FreeSlabs(s') == FreeSlabs(s) - 1 + s.caches[SLAB].perSlab
            && FreeVregions(s) - 1 <= FreeVregions(s') <= FreeVregions(s))
    && (FreeVregions(s) == 2 ==>
        || (FreeSlabs(s') == FreeSlabs(s) - 1 + s.caches[SLAB].perSlab && FreeVregions(s') == 2)
        || (FreeSlabs(s') == FreeSlabs(s) - 2 + s.caches[SLAB].perSlab
            && s.caches[VREG].perSlab <= FreeVregions(s') <= s.caches[VREG].perSlab + 1))
  }

  /** An object changes hands in cache i, from its first partial slab or else its first free one,
      and nothing else happens. */
  ghost predicate HandedFrom(s: Sys, s': Sys, i: nat, o: Obj) {
    && i < |s.caches| && |s'.caches| == |s.caches|
    && s' == WithCache(s, i, s'.caches[i])
    && HandedOut(s.caches[i], s'.caches[i], o) && TakenFirst(s.caches[i], s'.caches[i], o)
  }

  lemma ReadyToRetrieve(s: Sys, lo: nat, tables: set<nat>, live: set<Block>, i: nat)
    requires SysOk(s, lo, tables, live) && i < |s.caches|
    ensures CacheOk(s.caches[i])
  {
    hide CacheOk;
  }

  ghost predicate OneMore(news: seq<Vregion>, news': seq<Vregion>, el: Vregion) {
    |news'| == |news| + 1 && forall r | r in news' :: r == el || r in news
  }

  /** The first region that is large enough loses its first n pages. */
  ghost predicate RegionTaken(s: Sys, s': Sys, n: nat, el: Vregion) {
    var i := FitIndex(s.free, n);
    && i < |s.free| && el == Vregion(s.free[i].first, n)
    && s'.free == Trimmed(s.free, i, n) && s'.boots == s.boots && s'.mapping == s.mapping && s'.labels == s.labels
    && el in s'.news && OneMore(s.news, s'.news, el)
    && |s'.caches| == |s.caches| > VREG && SameSlabs(s, s')
    && (forall j | 0 <= j < |s.caches| && j != VREG :: s'.caches[j] == s.caches[j])
    && s'.caches[VREG].freeObjs == s.caches[VREG].freeObjs - (if s.free[i].pages > n then 1 else 0)
  }

  lemma HandedExtends(s: Sys, s': Sys, i: nat, o: Obj)
    requires HandedFrom(s, s', i, o)
    ensures Extends(s, s') && !IsUsed(s.caches[i], o) && IsUsed(s'.caches[i], o)
    ensures s.caches[i].freeObjs > 0 && s'.caches[i].freeObjs == s.caches[i].freeObjs - 1
    ensures forall j | 0 <= j < |s.caches| :: Slabs(s'.caches[j]).Keys == Slabs(s.caches[j]).Keys
  {
    hide Extends, IsUsed, Slabs, CacheOk;
    HandOutExtends(s, i, s'.caches[i], o);
    HandedOutMoves(s.caches[i], s'.caches[i], o);
  }

  /** Nothing changes but d Vregion objects that are handed out. */
  ghost predicate VregionsUsed(s: Sys, s': Sys, d: nat) {
    && s' == s.(caches := s'.caches) && |s'.caches| == |s.caches| > VREG
    && (forall j | 0 <= j < |s.caches| && j != VREG :: s'.caches[j] == s.caches[j])
    && s'.caches[VREG].freeObjs == s.caches[VREG].freeObjs - d
    && Extends(s, s') && SameSlabs(s, s')
  }

  lemma NoVregionUsed(s: Sys)
    requires |s.caches| > VREG
    ensures VregionsUsed(s, s, 0)
  {}

  lemma OneVregionUsed(s: Sys, s': Sys, o: Obj)
    requires HandedFrom(s, s', VREG, o) && |s.caches| > VREG
    ensures VregionsUsed(s, s', 1)
  {
    hide Extends, HandedOut, Slabs;
    HandedExtends(s, s', VREG, o);
  }

  lemma RegionIsTaken(s: Sys, s1: Sys, s2: Sys, n: nat)
    requires FitIndex(s.free, n) < |s.free|
    requires VregionsUsed(s, s1, if s.free[FitIndex(s.free, n)].pages > n then 1 else 0)
    requires s2 == s1.(free := Trimmed(s.free, FitIndex(s.free, n), n), news := s2.news)
    requires Vregion(s.free[FitIndex(s.free, n)].first, n) in s2.news && Extends(s1, s2)
    requires OneMore(s.news, s2.news, Vregion(s.free[FitIndex(s.free, n)].first, n))
    ensures RegionTaken(s, s2, n, Vregion(s.free[FitIndex(s.free, n)].first, n)) && Extends(s, s2)
  {
    hide Extends, Trimmed, FitIndex, OneMore, Slabs;
    ExtendsTrans(s, s1, s2);
  }

  /** Cutting n pages from region i and putting them in use. */
  lemma CutKeeps(s: Sys, lo: nat, tables: set<nat>, live: set<Block>, i: nat, n: nat) returns (s': Sys)
    requires SysOk(s, lo, tables, live) && i < |s.free| && n <= s.free[i].pages
    ensures s' == s.(free := Trimmed(s.free, i, n), news := s'.news)
    ensures Inserted(s.news + s.boots, Vregion(s.free[i].first, n)) == Some(s'.news + s.boots)
    ensures SysOk(s', lo, tables, live) && Vregion(s.free[i].first, n) in s'.news
    ensures OneMore(s.news, s'.news, Vregion(s.free[i].first, n))
    ensures Vacant(s', Vregion(s.free[i].first, n)) && Extends(s, s')
  {
    hide CachesOk, SlabsPlaced, TablesPresent, MapOk, SlabMapped, RegionsOk, Covered, Trimmed, Inserted, Extends,
         Vacant;
    var news' := AllocKeepsRegions(s.free, s.news, s.boots, lo, i, n);
    assert forall r | r in s.news :: r in news';
    s' := s.(free := Trimmed(s.free, i, n), news := news');
    RegionFacts(s, lo, tables, live, i, n);
    StillVacant(s, s', Vregion(s.free[i].first, n));
    TakeRegionKeeps(s, lo, tables, live, i, n, s');
    SameCachesExtend(s, s');
  }

  lemma CanBeMapped(s: Sys, lo: nat, tables: set<nat>, live: set<Block>, el: Vregion)
    requires SysOk(s, lo, tables, live) && el in s.news
    ensures el.first > 0 && forall p: nat | el.Covers(p) :: HasTable(tables, p)
  {
    hide CachesOk, SlabsPlaced, MapOk, SlabMapped;
    var k :| 0 <= k < |s.news| && s.news[k] == el;
    forall p: nat | el.Covers(p) ensures HasTable(tables, p) {
      assert Covered(s.news, p);
    }
  }

  lemma NewsBehind(s: Sys, lo: nat, tables: set<nat>, live: set<Block>, el: Vregion)
    requires SysOk(s, lo, tables, live) && el in s.news
    ensures el.first >= lo
  {
    hide CachesOk, SlabsPlaced, MapOk, SlabMapped, TablesPresent;
  }

  lemma MapExtends(s: Sys, el: Vregion, ppn: nat)
    requires Vacant(s, el)
    ensures Extends(s, s.(mapping := Mapped(s.mapping, el, ppn)))
  {
    hide IsUsed, Slabs;
    var m := Mapped(s.mapping, el, ppn);
    forall v | v in s.mapping ensures v in m && m[v] == s.mapping[v] {
      assert !el.Covers(v);
    }
  }

  /** s' goes on from s, with ds more free Slab objects and dv more free Vregion objects. */
  ghost predicate Counts(s: Sys, s': Sys, ds: int, dv: int) {
    && Onward(s, s')
    && FreeSlabs(s') == FreeSlabs(s) + ds && FreeVregions(s') == FreeVregions(s) + dv
  }

  lemma CountsAdd(s: Sys, s1: Sys, s2: Sys, ds: int, dv: int, ds': int, dv': int)
    requires Counts(s, s1, ds, dv) && Counts(s1, s2, ds', dv')
    ensures Counts(s, s2, ds + ds', dv + dv')
  {
    hide OnwardBut;
    OnwardTrans(s, s1, s2, SLAB);
    OnwardSizes(s, s1, SLAB);
    OnwardSizes(s1, s2, SLAB);
  }

  lemma OnwardSizes(s: Sys, s': Sys, i: nat)
    requires OnwardBut(s, s', i)
    ensures |s'.caches| == |s.caches| > VREG && Extends(s, s')
    ensures s'.caches[SLAB].perSlab == s.caches[SLAB].perSlab && s'.caches[VREG].perSlab == s.caches[VREG].perSlab
  {}

  /** What a split of the region found costs. */
  ghost function SplitCost(s: Sys, n: nat): nat {
    var i := FitIndex(s.free, n);
    if i < |s.free| && s.free[i].pages > n then 1 else 0
  }

  lemma TakenCounts(s: Sys, s': Sys, n: nat, el: Vregion)
    requires RegionTaken(s, s', n, el) && Extends(s, s')
    ensures Counts(s, s', 0, -(SplitCost(s, n) as int))
  {
    SameShapes(s, s');
    hide Extends, NewOnUnused, SameSlabs;
    SameSlabsNoneNew(s, s');
  }

  lemma SlabObjectCounts(s: Sys, s': Sys, o: Obj, el: Vregion)
    requires HandedFrom(s, s', SLAB, o) && |s.caches| > VREG && Vacant(s, el)
    ensures Counts(s, s', -1, 0) && Vacant(s', el) && s'.news == s.news
  {
    hide Vacant, OnwardBut;
    HandedOnward(s, s', SLAB, o);
    HandedKeepsVacant(s, s', SLAB, o, el);
  }

  lemma HandedKeepsVacant(s: Sys, s': Sys, i: nat, o: Obj, el: Vregion)
    requires HandedFrom(s, s', i, o) && Vacant(s, el)
    ensures Vacant(s', el) && s'.news == s.news
  {
    HandedExtends(s, s', i, o);
    hide HandedOut, Slabs, Extends, IsUsed;
  }

  lemma OnlyOneCacheMoved(s: Sys, s': Sys, i: nat)
    requires i < |s.caches| == |s'.caches| && s' == WithCache(s, i, s'.caches[i]) && Extends(s, s')
    ensures forall j | 0 <= j < |s.caches| :: SameShape(s.caches[j], s'.caches[j])
    ensures forall j | 0 <= j < |s.caches| && j != i :: s'.caches[j] == s.caches[j]
    ensures s'.news == s.news && s'.mapping == s.mapping && s'.labels == s.labels
  {}

  lemma ObjectHasAddress(s: Sys, s': Sys, i: nat, o: Obj)
    requires HandedFrom(s, s', i, o) && CacheOk(s.caches[i])
    ensures o.Addr() > 0
  {
    hide CacheOk, Slabs, Obj.Addr, Popped;
    SlabIsOk(s.caches[i], o.first);
    PositiveAddr(o);
  }

  lemma PositiveAddr(o: Obj)
    requires o.first > 0
    ensures o.Addr() > 0
  {}

  lemma NewSlabOk(c: Cache, first: nat)
    requires CacheOk(c) && first > 0
    ensures var sl := NewSlab(first, c.pagesPerSlab, c.size, 0);
            SlabOk(sl, c) && HasStatus(sl, c, FreeSlab) && sl.first == first && sl.freeCount == c.perSlab
            && sl.pages == c.pagesPerSlab
            && sl.freeList == seq(c.perSlab, n => n)
  {
    hide Capacity, Times, SlabsOk, FreeSum, ByPage, NoneTwice;
    var sl := NewSlab(first, c.pagesPerSlab, c.size, 0);
    assert sl.freeList == seq(c.perSlab, n => n);
  }

  /** Cache i gets one slab, all of it free; nothing that was not handed out is now. */
  ghost predicate SlabJoined(s: Sys, s': Sys, i: nat, first: nat) {
    && i < |s.caches| == |s'.caches| && s' == WithCache(s, i, s'.caches[i]) && Extends(s, s')
    && s'.caches[i].freeObjs == s.caches[i].freeObjs + s.caches[i].perSlab
    && (forall o | IsUsed(s'.caches[i], o) :: IsUsed(s.caches[i], o))
    && Slabs(s'.caches[i]).Keys == Slabs(s.caches[i]).Keys + {first}
  }

  /** The cache has a slab more, the first of the free ones, with all slots free in ascending
      order. */
  ghost predicate AllFree(c: Cache, c': Cache, first: nat) {
    && c'.freeSlabs == [Slab(first, c.pagesPerSlab, c.perSlab, seq(c.perSlab, k => k))] + c.freeSlabs
    && c'.partialSlabs == c.partialSlabs && c'.fullSlabs == c.fullSlabs
    && c'.frees == c.frees + 1 && c'.slabs == c.slabs + 1 && c'.partials == c.partials && c'.fulls == c.fulls
    && c'.freeObjs == c.freeObjs + c.perSlab && c'.usedObjs == c.usedObjs
  }

  lemma AddedAllFree(c: Cache, c': Cache, sl: Slab)
    requires Added(c, sl, FreeSlab) == Some(c') && sl.pages == c.pagesPerSlab && sl.freeCount == c.perSlab
    requires sl.freeList == seq(c.perSlab, n => n)
    ensures AllFree(c, c', sl.first)
  {}

  lemma FreshSlabJoins(s: Sys, i: nat, c': Cache, sl: Slab)
    requires i < |s.caches| && Grown(s.caches[i], c', sl) && sl.first !in Slabs(s.caches[i])
    requires sl.freeCount == c'.perSlab && sl.freeList == seq(c'.perSlab, n => n)
    ensures SlabJoined(s, WithCache(s, i, c'), i, sl.first)
  {
    hide Slabs, IsUsed, CacheOk, Extends;
    AddSlabExtends(s, i, c', sl);
    GrownShape(s.caches[i], c', sl);
    forall o | IsUsed(c', o) ensures IsUsed(s.caches[i], o) {}
  }

  lemma ReadyToJoin(s: Sys, i: nat, el: Vregion, ppn: nat)
    requires i < |s.caches| && el in s.news && Vacant(s, el) && el.pages == s.caches[i].pagesPerSlab
    ensures MayJoin(s.(mapping := Mapped(s.mapping, el, ppn)), i, el.first)
  {
    hide Slabs, Mapped;
    forall p: nat | el.first <= p < el.first + el.pages ensures p in Mapped(s.mapping, el, ppn) {
      MappedAt(s.mapping, el, ppn, p);
    }
  }

  lemma ReserveCaches(s: Sys, lo: nat, tables: set<nat>, live: set<Block>)
    requires SysOk(s, lo, tables, live)
    ensures |s.caches| > VREG && s.caches[SLAB].pagesPerSlab == SLAB_PAGES && s.caches[VREG].pagesPerSlab == VREG_PAGES
    ensures s.caches[SLAB].perSlab >= 3 && s.caches[VREG].perSlab >= 3
  {}

  lemma RegionStays(s: Sys, s': Sys, n: nat, el: Vregion)
    requires RegionTaken(s, s', n, el)
    ensures el in s'.news && el.pages == n && |s'.caches| == |s.caches|
  {}

  ghost predicate ReserveEmpty(s: Sys) {
    |s.caches| > VREG ==> FreeSlabs(s) == 0 || FreeVregions(s) == 0
  }

  lemma SlabsUntouched(s: Sys, s': Sys, n: nat, el: Vregion)
    requires RegionTaken(s, s', n, el) && s'.caches[SLAB].freeObjs == 0
    ensures ReserveEmpty(s)
  {}

  /** A region of one page and a Slab object have left the reserves. */
  ghost predicate ReservesTaken(s: Sys, s': Sys, el: Vregion) {
    && Counts(s, s', -1, -(SplitCost(s, VREG_PAGES) as int))
    && el in s'.news && Vacant(s', el) && el.pages == VREG_PAGES && Unused(s, el)
  }

  lemma BothTaken(s: Sys, s1: Sys, s2: Sys, el: Vregion, o: Obj)
    requires RegionTaken(s, s1, VREG_PAGES, el) && Extends(s, s1) && Vacant(s1, el) && HandedFrom(s1, s2, SLAB, o)
    requires Unused(s, el)
    ensures ReservesTaken(s, s2, el)
  {
    RegionStays(s, s1, VREG_PAGES, el);
    hide RegionTaken, Extends, Vacant, HandedFrom, Counts, SplitCost, Unused;
    TakenCounts(s, s1, VREG_PAGES, el);
    SlabObjectCounts(s1, s2, o, el);
    CountsAdd(s, s1, s2, 0, -(SplitCost(s, VREG_PAGES) as int), -1, 0);
  }

  /** Cache i has one free slab more, at page first. */
  ghost predicate Joined(s: Sys, s': Sys, i: nat, first: nat) {
    && i < |s.caches| == |s'.caches| && Extends(s, s')
    && s'.caches[i].freeObjs == s.caches[i].freeObjs + s.caches[i].perSlab
    && Slabs(s'.caches[i]).Keys == Slabs(s.caches[i]).Keys + {first}
    && (forall j | 0 <= j < |s.caches| && j != i :: s'.caches[j] == s.caches[j]) && s'.labels == s.labels
  }

  lemma BackedJoins(s: Sys, s1: Sys, s2: Sys, i: nat, first: nat)
    requires s1.caches == s.caches && s1.labels == s.labels && Extends(s, s1) && SlabJoined(s1, s2, i, first)
    ensures Joined(s, s2, i, first)
  {
    hide IsUsed, Extends, Slabs;
    ExtendsTrans(s, s1, s2);
  }

  /** What one slab more for cache i, paid for from the reserves, does to the reserves. */
  ghost predicate Grew(s: Sys, s': Sys, i: nat) {
    && i < |s.caches|
    && Counts(s, s', if i == SLAB then s.caches[i].perSlab - 1 else -1,
              (if i == VREG then s.caches[i].perSlab else 0) - SplitCost(s, VREG_PAGES))
  }

  lemma ReserveGrew(s: Sys, s1: Sys, s2: Sys, i: nat, el: Vregion)
    requires ReservesTaken(s, s1, el) && Joined(s1, s2, i, el.first) && (i == SLAB || i == VREG)
    requires s1.caches[i].pagesPerSlab == el.pages
    ensures Grew(s, s2, i)
  {
    SameShapes(s1, s2);
    hide Extends, SplitCost, Vacant, Slabs, Unused, NewOnUnused;
    ExtendsTrans(s, s1, s2);
    OneNewOnUnused(s, s1, s2, i, el.first);
  }

  lemma SameShapes(s: Sys, s': Sys)
    requires Extends(s, s') && |s.caches| > VREG
    ensures SameShape(s.caches[SLAB], s'.caches[SLAB]) && SameShape(s.caches[VREG], s'.caches[VREG])
  {}

  lemma FitsReserveCache(s: Sys, s1: Sys, lo: nat, tables: set<nat>, live: set<Block>, el: Vregion)
    requires SysOk(s1, lo, tables, live) && ReservesTaken(s, s1, el)
    ensures |s1.caches| > VREG && el in s1.news && Vacant(s1, el)
    ensures el.pages == s1.caches[SLAB].pagesPerSlab == s1.caches[VREG].pagesPerSlab == VREG_PAGES
  {
    hide Counts, Vacant;
    ReserveCaches(s1, lo, tables, live);
  }

  lemma VregionsWereRefilled(s: Sys, s1: Sys, s2: Sys)
    requires Grew(s, s1, VREG) && FreeSlabs(s) >= 2
    requires if FreeSlabs(s1) == 1 then SlabsRefilled(s1, s2) else s2 == s1
    requires s.caches[VREG].perSlab >= 3 && FreeVregions(s) >= 1
    ensures VregionsRefilled(s, s2)
  {
    hide Extends, FitIndex, NewOnUnused;
    if FreeSlabs(s1) == 1 { OnwardTrans(s, s1, s2, SLAB); }
  }

  lemma SlabsWereRefilled(s: Sys, s1: Sys, s2: Sys)
    requires Grew(s, s1, SLAB) && FreeSlabs(s) >= 1 && FreeVregions(s) >= 2
    requires if FreeVregions(s1) == 1 then VregionsRefilled(s1, s2) else s2 == s1
    requires s.caches[SLAB].perSlab >= 3
    ensures SlabsRefilled(s, s2)
  {
    hide Extends, FitIndex, NewOnUnused;
    if FreeVregions(s1) == 1 { OnwardTrans(s, s1, s2, SLAB); }
  }

  lemma GrewFacts(s: Sys, s1: Sys, i: nat)
    requires Grew(s, s1, i) && i <= VREG
    ensures |s1.caches| == |s.caches| > VREG
    ensures i == VREG ==>
              FreeSlabs(s1) == FreeSlabs(s) - 1
              && FreeVregions(s) - 1 + s.caches[VREG].perSlab <= FreeVregions(s1) <= FreeVregions(s)
                 + s.caches[VREG].perSlab
    ensures i == SLAB ==>
              FreeSlabs(s1) == FreeSlabs(s) - 1 + s.caches[SLAB].perSlab
              && FreeVregions(s) - 1 <= FreeVregions(s1) <= FreeVregions(s)
  {
    hide FitIndex, Extends, NewOnUnused;
  }

  /** No page of the region is in use. */
  ghost predicate Unused(s: Sys, el: Vregion) {
    forall p: nat | el.Covers(p) :: !InUse(s, p)
  }

  lemma CutIsUnused(s: Sys, lo: nat, tables: set<nat>, live: set<Block>, n: nat)
    requires SysOk(s, lo, tables, live) && FitIndex(s.free, n) < |s.free|
    ensures Unused(s, Vregion(s.free[FitIndex(s.free, n)].first, n))
  {
    var i := FitIndex(s.free, n);
    assert s.free[i].pages >= n;
    hide CachesOk, SlabsPlaced, TablesPresent, MapOk, SlabMapped, InUse, FitIndex;
    var el := Vregion(s.free[i].first, n);
    forall p: nat | el.Covers(p) ensures !InUse(s, p) { FreeIsNotInUse(s, lo, i, p); }
  }

  /** What is in use stays in use. */
  lemma InUseStays(s: Sys, s': Sys, p: int)
    requires Extends(s, s') && InUse(s, p)
    ensures InUse(s', p)
  {
    if k :| 0 <= k < |s.news| && s.news[k].Covers(p) {
      assert s.news[k] in s'.news;
    }
  }

  lemma WasUnused(s: Sys, s': Sys, el: Vregion)
    requires Extends(s, s') && Unused(s', el)
    ensures Unused(s, el)
  {
    hide InUse, Extends;
    forall p | InUse(s, p) ensures InUse(s', p) { InUseStays(s, s', p); }
  }

  /** A refill, if there was one, and then the first region that is large enough. */
  ghost predicate RegionAllocated(s: Sys, s': Sys, n: nat, el: Vregion) {
    && Onward(s, s') && Reserved(s')
    && el in s'.news && el.pages == n && Vacant(s', el) && Unused(s, el)
    && (FreeVregions(s) > 2 ==> RegionTaken(s, s', n, el))
  }

  /** The state in which vregion_alloc looks for a region. */
  ghost predicate VregionsReady(s: Sys, s': Sys) {
    && Onward(s, s') && FreeSlabs(s') >= 2 && FreeVregions(s') >= 3
    && (FreeVregions(s) > 2 ==> s' == s)
  }

  lemma RefillReadies(s: Sys, s': Sys)
    requires Reserved(s) && if FreeVregions(s) == 2 then VregionsRefilled(s, s') else s' == s
    requires s.caches[SLAB].perSlab >= 3 && s.caches[VREG].perSlab >= 3
    ensures VregionsReady(s, s')
  {
    hide IsUsed;
  }

  lemma RegionWasAllocated(s: Sys, s1: Sys, s2: Sys, n: nat, el: Vregion)
    requires VregionsReady(s, s1) && RegionTaken(s1, s2, n, el) && Extends(s1, s2) && Vacant(s2, el) && Unused(s1, el)
    ensures RegionAllocated(s, s2, n, el)
  {
    RegionStays(s1, s2, n, el);
    TakenCounts(s1, s2, n, el);
    hide Extends, RegionTaken, Vacant, Unused, FitIndex, NewOnUnused;
    OnwardTrans(s, s1, s2, SLAB);
    WasUnused(s, s1, el);
  }

  // ----- objs_cache_alloc -----

  /** The state after slab.c:470-478. The Slab reserve ends at two only if it began at
      three with two Vregion objects. */
  ghost predicate Refilled(s: Sys, s': Sys) {
    && Onward(s, s') && FreeSlabs(s') >= 2 && FreeVregions(s') >= 3
    && (FreeSlabs(s') == 2 <==> FreeSlabs(s) == 3 && FreeVregions(s) == 2)
    && (FreeSlabs(s) > 2 && FreeVregions(s) > 2 ==> s' == s)
  }

  /** Free Slab objects after slab.c:470-473, whatever became of the Vregion objects. */
  ghost predicate SlabsReady(s: Sys, s': Sys) {
    && Onward(s, s') && FreeVregions(s') >= 2
    && if FreeSlabs(s) == 2 then FreeSlabs(s') >= 3 && (FreeVregions(s') == 2 ==> FreeSlabs(s') >= 4) else s' == s
  }

  lemma FirstRefill(s: Sys, s': Sys)
    requires Reserved(s) && if FreeSlabs(s) == 2 then SlabsRefilled(s, s') else s' == s
    requires s.caches[SLAB].perSlab >= 3 && s.caches[VREG].perSlab >= 3
    ensures SlabsReady(s, s')
  {
    hide IsUsed;
  }

  lemma SecondRefill(s: Sys, s1: Sys, s2: Sys)
    requires Reserved(s) && SlabsReady(s, s1) && if FreeVregions(s1) == 2 then VregionsRefilled(s1, s2) else s2 == s1
    requires s.caches[VREG].perSlab >= 3
    ensures Refilled(s, s2)
  {
    hide IsUsed, Extends, NewOnUnused;
    if FreeVregions(s1) == 2 { OnwardTrans(s, s1, s2, SLAB); }
  }

  /** An object of cache i was free, or did not exist, and is handed out now. Both reserves
      are kept, with one exception: a Slab object taken when there were three of them and
      two Vregion objects. */
  ghost predicate ObjectAllocated(s: Sys, s': Sys, i: nat, o: Obj) {
    && OnwardBut(s, s', i) && i < |s.caches|
    && !IsUsed(s.caches[i], o) && IsUsed(s'.caches[i], o) && o.Addr() > 0 && (i == SLAB ==> NotNamed(s', o))
    && FreeVregions(s') >= 2 && FreeSlabs(s') >= 1
    && (FreeSlabs(s') >= 2 <==> !(i == SLAB && FreeSlabs(s) == 3 && FreeVregions(s) == 2))
    && (i != SLAB && i != VREG ==> OnlyNew(s.caches[i], s'.caches[i], o))
    && (FreeSlabs(s) > 2 && FreeVregions(s) > 2 && s.caches[i].freeObjs > 0 ==> HandedFrom(s, s', i, o))
  }

  /** Nothing but o is handed out that was not before. */
  ghost predicate OnlyNew(c: Cache, c': Cache, o: Obj) {
    forall x | IsUsed(c', x) :: x == o || IsUsed(c, x)
  }

  ghost predicate NothingNew(c: Cache, c': Cache) {
    forall x | IsUsed(c', x) :: IsUsed(c, x)
  }

  lemma OnlyNewAdds(c: Cache, c1: Cache, c2: Cache, o: Obj)
    requires NothingNew(c, c1) && HandedOut(c1, c2, o)
    ensures OnlyNew(c, c2, o)
  {
    HandedOutMoves(c1, c2, o);
    hide IsUsed, HandedOut;
  }

  /** The state after slab.c:480-488. */
  ghost predicate Replenished(s: Sys, s': Sys, i: nat) {
    && OnwardBut(s, s', i) && i < |s.caches| && s'.caches[i].freeObjs > 0
    && FreeSlabs(s') >= 2 && FreeVregions(s') >= 2
    && (i != SLAB && i != VREG ==> NothingNew(s.caches[i], s'.caches[i]))
    && (s.caches[i].freeObjs > 0 ==> s' == s)
  }

  /** A region that was backed for a slab of so many pages. */
  ghost predicate SlabSite(s: Sys, el: Vregion, pages: nat) {
    && el in s.news && el.pages == pages
    && (forall j | 0 <= j < |s.caches| :: el.first !in Slabs(s.caches[j]))
    && (forall p: nat | el.Covers(p) :: p in s.mapping)
  }

  lemma SiteMayJoin(s: Sys, i: nat, el: Vregion, pages: nat)
    requires SlabSite(s, el, pages) && i < |s.caches| && s.caches[i].pagesPerSlab == pages
    ensures MayJoin(s, i, el.first)
  {
    hide Slabs;
    forall p: nat | el.first <= p < el.first + pages ensures p in s.mapping {
      assert el.Covers(p);
    }
  }

  lemma BackedSite(s: Sys, s': Sys, el: Vregion, ppn: nat)
    requires el in s.news && Vacant(s, el) && s' == s.(mapping := Mapped(s.mapping, el, ppn))
    ensures SlabSite(s', el, el.pages)
  {
    hide Slabs, Mapped;
    forall p: nat | el.Covers(p) ensures p in s'.mapping { MappedAt(s.mapping, el, ppn, p); }
  }

  /** The state create_slab leaves when it succeeds. */
  ghost predicate SlabCreated(s: Sys, s': Sys, o: Obj, el: Vregion, pages: nat) {
    && Onward(s, s') && FreeSlabs(s') >= 2 && FreeVregions(s') >= 2
    && SlabObjectTaken(s, s', o) && SlabSite(s', el, pages) && Unused(s, el)
    && el in s'.labels && s'.labels[el] == o
  }

  /** A Slab object and a region of so many pages are taken, and the reserves are kept. */
  ghost predicate TakenForSlab(s: Sys, s': Sys, o: Obj, el: Vregion, pages: nat) {
    && Onward(s, s') && Reserved(s') && SlabObjectTaken(s, s', o)
    && el in s'.news && el.pages == pages && Vacant(s', el) && Unused(s, el) && NotNamed(s', o)
  }

  /** o is a Slab object that nobody had before. */
  ghost predicate SlabObjectTaken(s: Sys, s': Sys, o: Obj) {
    && |s'.caches| == |s.caches| > SLAB && o.Addr() > 0
    && !IsUsed(s.caches[SLAB], o) && IsUsed(s'.caches[SLAB], o)
  }

  lemma StillTaken(s: Sys, s1: Sys, s2: Sys, o: Obj)
    requires SlabObjectTaken(s, s1, o) && Extends(s1, s2) && |s2.caches| == |s.caches|
    ensures SlabObjectTaken(s, s2, o)
  {}

  lemma SlabAllocatedFacts(s: Sys, s': Sys, o: Obj)
    requires ObjectAllocated(s, s', SLAB, o) && FreeVregions(s) > 2
    ensures Onward(s, s') && Reserved(s') && SlabObjectTaken(s, s', o) && NotNamed(s', o)
  {}

  lemma TakenTogether(s: Sys, s1: Sys, s2: Sys, o: Obj, el: Vregion, pages: nat)
    requires Onward(s, s1) && SlabObjectTaken(s, s1, o) && NotNamed(s1, o) && RegionAllocated(s1, s2, pages, el)
    ensures TakenForSlab(s, s2, o, el, pages)
  {
    OthersNamed(s1, s2, s, o);
    hide Extends, Vacant, Unused, RegionTaken, Obj.Addr, SlabObjectTaken, NewOnUnused, NotNamed;
    OnwardTrans(s, s1, s2, SLAB);
    WasUnused(s, s1, el);
    StillTaken(s, s1, s2, o);
  }

  lemma OthersNamed(s: Sys, s': Sys, s0: Sys, o: Obj)
    requires SlabObjectTaken(s0, s, o) && NotNamed(s, o) && Onward(s, s')
    ensures NotNamed(s', o)
  {
    hide IsUsed, Extends, NewNames, NotNamed, Obj.Addr;
    StillNotNamed(s, s', o);
  }

  /** The region el has been mapped and labelled with the Slab object o. */
  ghost predicate BackedFor(s: Sys, s': Sys, o: Obj, el: Vregion) {
    && s' == s.(mapping := s'.mapping, labels := s.labels[el := o]) && el !in s.labels
    && Extends(s, s') && SlabSite(s', el, el.pages)
  }

  lemma SlabWasCreated(s: Sys, s1: Sys, s2: Sys, o: Obj, el: Vregion)
    requires TakenForSlab(s, s1, o, el, el.pages) && BackedFor(s1, s2, o, el)
    ensures SlabCreated(s, s2, o, el, el.pages)
  {
    OneNewName(s, s1, s2, o, el);
    hide Vacant, SlabSite, Obj.Addr, SlabObjectTaken, NewOnUnused, Unused, NotNamed;
    ExtendsTrans(s, s1, s2);
    StillTaken(s, s1, s2, o);
    hide Extends;
  }

  lemma OneNewName(s: Sys, s1: Sys, s2: Sys, o: Obj, el: Vregion)
    requires NewOnUnused(s, s1) && SlabObjectTaken(s, s1, o) && BackedFor(s1, s2, o, el)
    ensures NewOnUnused(s, s2)
  {
    hide Slabs, Unused, IsUsed, Extends, SlabSite, Obj.Addr;
    forall i: nat, f: nat | i < |s2.caches| ensures OldOrOnUnused(s, s2, i, f) { assert OldOrOnUnused(s, s1, i, f); }
  }

  /** A slab that joins cache i on pages that were not in use in s. */
  lemma JoinedOnward(s: Sys, s1: Sys, s2: Sys, i: nat, el: Vregion)
    requires Onward(s, s1) && SlabJoined(s1, s2, i, el.first) && s1.caches[i].pagesPerSlab == el.pages && Unused(s, el)
    ensures OnwardBut(s, s2, i)
  {
    assert SameShape(s1.caches[i], s2.caches[i]) by { ExtendsShapes(s1, s2, i); }
    SameShapes(s1, s2);
    hide Extends, NewOnUnused, Unused, Slabs, IsUsed;
    ExtendsTrans(s, s1, s2);
    OneNewOnUnused(s, s1, s2, i, el.first);
  }

  lemma ExtendsShapes(s: Sys, s': Sys, i: nat)
    requires Extends(s, s') && i < |s.caches|
    ensures i < |s'.caches| && SameShape(s.caches[i], s'.caches[i])
  {}

  lemma SlabReplenishes(s: Sys, s1: Sys, s2: Sys, i: nat, o: Obj, el: Vregion, pages: nat)
    requires i < |s.caches| && s.caches[i].freeObjs == 0 && s.caches[i].perSlab > 0
    requires i < |s1.caches| && SameShape(s.caches[i], s1.caches[i])
    requires SlabCreated(s, s1, o, el, pages) && SlabJoined(s1, s2, i, el.first) && s1.caches[i].pagesPerSlab == pages
    ensures Replenished(s, s2, i)
  {
    assert el.pages == pages;
    hide OnwardBut, SlabSite, IsUsed, SlabObjectTaken, Unused, Slabs, Extends;
    JoinedOnward(s, s1, s2, i, el);
    OnlyOneCacheMoved(s1, s2, i);
    assert |s.caches| > VREG by { OnwardSizes(s, s1, SLAB); }
    if i != SLAB && i != VREG { SameBut(s, s1, i); }
  }

  lemma SameBut(s: Sys, s': Sys, i: nat)
    requires Onward(s, s') && i < |s.caches| && i != SLAB && i != VREG
    ensures s'.caches[i] == s.caches[i]
  {}

  lemma ObjectWasAllocated(s: Sys, s1: Sys, s2: Sys, s3: Sys, i: nat, o: Obj)
    requires Refilled(s, s1) && Replenished(s1, s2, i) && HandedFrom(s2, s3, i, o) && o.Addr() > 0
    requires i == SLAB ==> NotNamed(s3, o)
    ensures ObjectAllocated(s, s3, i, o)
  {
    HandedOnward(s2, s3, i, o);
    if i != SLAB && i != VREG { OnlyNewAdds(s.caches[i], s2.caches[i], s3.caches[i], o); }
    hide IsUsed, HandedFrom, Extends, Obj.Addr, OnlyNew, NothingNew, NewOnUnused, NotNamed;
    ExtendsTrans(s, s1, s2);
    ExtendsTrans(s, s2, s3);
    NewOnUnusedTrans(s, s1, s2);
    NewOnUnusedTrans(s, s2, s3);
    NotUsedBefore(s, s2, i, o);
  }

  lemma NotUsedBefore(s: Sys, s': Sys, i: nat, o: Obj)
    requires Extends(s, s') && i < |s.caches| && !IsUsed(s'.caches[i], o)
    ensures !IsUsed(s.caches[i], o)
  {}

  lemma HandedOnward(s: Sys, s': Sys, i: nat, o: Obj)
    requires HandedFrom(s, s', i, o) && |s.caches| > VREG
    ensures OnwardBut(s, s', i) && !IsUsed(s.caches[i], o) && IsUsed(s'.caches[i], o)
    ensures FreeSlabs(s') == FreeSlabs(s) - (if i == SLAB then 1 else 0)
    ensures FreeVregions(s') == FreeVregions(s) - (if i == VREG then 1 else 0)
  {
    HandedExtends(s, s', i, o);
    SameSlabsNoneNew(s, s');
    hide IsUsed, HandedOut, Slabs, Extends, NewOnUnused, SameSlabs;
    OnlyOneCacheMoved(s, s', i);
  }

  lemma CreatedMayJoin(s: Sys, s1: Sys, i: nat, o: Obj, el: Vregion, pages: nat)
    requires SlabCreated(s, s1, o, el, pages) && i < |s.caches| && s.caches[i].pagesPerSlab == pages
    ensures i < |s1.caches| && SameShape(s.caches[i], s1.caches[i]) && MayJoin(s1, i, el.first)
  {
    hide IsUsed, SlabSite, MayJoin;
    SiteMayJoin(s1, i, el, pages);
  }

  lemma RefilledFacts(s: Sys, s': Sys, i: nat)
    requires Refilled(s, s') && i < |s.caches|
    ensures Reserved(s') && FreeVregions(s') > 2 && |s'.caches| == |s.caches|
    ensures s'.caches[i].pagesPerSlab == s.caches[i].pagesPerSlab
    ensures FreeSlabs(s) > 2 && FreeVregions(s) > 2 ==> s' == s
  {
    assert SameShape(s.caches[i], s'.caches[i]);
  }

  lemma NothingReplenished(s: Sys, i: nat)
    requires Reserved(s) && i < |s.caches| && s.caches[i].freeObjs > 0
    ensures Replenished(s, s, i)
  {}

  lemma ReplenishedFacts(s: Sys, s': Sys, i: nat)
    requires Replenished(s, s', i)
    ensures i < |s'.caches| == |s.caches| && s'.caches[i].freeObjs > 0
  {}

  lemma ExtendsRefl(s: Sys)
    ensures Extends(s, s)
  {}

  lemma NothingGoesOn(s: Sys)
    ensures Extends(s, s) && NewOnUnused(s, s)
  {
    SameSlabsNoneNew(s, s);
  }

  /** MAX(objSize, sizeof(void*)) <= pages * VPAGE_SIZE */
  predicate CanHold(objSize: nat, pages: nat): (r: bool)
    ensures r <==> pages > 0 && objSize <= pages * 4096
  {
    pages * PAGE >= if objSize > PTR_SIZE then objSize else PTR_SIZE
  }

  /** A cache for objects of this size was created, the last one now, or none if a slab cannot
      hold an object. */
  ghost predicate CacheCreated(s: Sys, s': Sys, objSize: nat, pages: nat, r: Option<nat>) {
    && Reserved(s') && Extends(s, s') && NewOnUnused(s, s')
    && if pages > 0 && objSize <= pages * 4096 then
         && r == Some(|s.caches|) && |s'.caches| == |s.caches| + 1
            && MadeFor(s'.caches[|s.caches|], objSize, pages)
         && forall j | VREG < j < |s.caches| :: s'.caches[j] == s.caches[j]
       else r.None? && s' == s
  }

  lemma CacheWasCreated(s: Sys, s1: Sys, c: Cache)
    requires Extends(s, s1) && NewOnUnused(s, s1) && Slabs(c) == map[]
    requires Extends(s1, s1.(caches := s1.caches + [c]))
    ensures Extends(s, s1.(caches := s1.caches + [c])) && NewOnUnused(s, s1.(caches := s1.caches + [c]))
  {
    var s2 := s1.(caches := s1.caches + [c]);
    hide Extends, Unused, Slabs;
    forall i: nat, f: nat | i < |s2.caches| ensures OldOrOnUnused(s1, s2, i, f) {}
    hide NewOnUnused;
    ExtendsTrans(s, s1, s2);
    NewOnUnusedTrans(s, s1, s2);
  }

  /** Callers other than create_slab never ask for a Slab object, and always find both
      reserves kept. */
  lemma ClientAllocated(s: Sys, s': Sys, i: nat, o: Obj)
    requires ObjectAllocated(s, s', i, o) && i != SLAB
    ensures Reserved(s') && Extends(s, s') && NewOnUnused(s, s') && |s'.caches| == |s.caches|
    ensures !IsUsed(s.caches[i], o) && IsUsed(s'.caches[i], o)
    ensures i > VREG ==> OnlyNew(s.caches[i], s'.caches[i], o)
    ensures forall j | VREG < j < |s.caches| && j != i :: s'.caches[j] == s.caches[j]
  {}

  /** A region that has just been mapped carries no label. */
  lemma NotYetLabelled(s: Sys, d: seq<Ppage>, el: Vregion)
    requires LabelsOk(s, d) && Vacant(s, el) && el.pages > 0
    ensures el !in s.labels && forall r, p: nat | r in s.labels && r.Covers(p) :: !el.Covers(p)
  {
    hide IsUsed, Slabs, Recorded, Obj.Addr;
    forall r, p: nat | r in s.labels && r.Covers(p) ensures !el.Covers(p) { assert LabelOk(s, d, r); }
    assert el.Covers(el.first);
  }

  lemma LabelsIgnored(s: Sys, lo: nat, tables: set<nat>, live: set<Block>, el: Vregion, o: Obj)
    requires SysOk(s, lo, tables, live)
    ensures SysOk(WithLabel(s, el, o), lo, tables, live)
  {
    var s' := WithLabel(s, el, o);
    hide RegionsOk, CachesOk, TablesPresent, MapOk, Slabs;
    SameTables(s, s', tables);
    SameMap(s, s', live);
    SameCachesOk(s, s');
    forall i: nat, f: nat | i < |s.caches| ensures SlabPlaced(s', i, f) && SlabMapped(s', i, f) {
      assert SlabPlaced(s, i, f) && SlabMapped(s, i, f);
    }
  }

  /** A region and a Slab object that create_slab has taken. */
  ghost predicate SlabReady(s: Sys, el: Vregion, o: Obj) {
    && el in s.news && Vacant(s, el) && el.pages > 0
    && |s.caches| > SLAB && IsUsed(s.caches[SLAB], o) && NotNamed(s, o) && o.Addr() > 0
  }

  /** Since s the region el, for which there is the Slab object o, has been mapped to the frames
      from ppn on, of n. */
  ghost predicate JustBacked(s: Sys, s': Sys, d: seq<Ppage>, el: Vregion, ppn: nat, o: Obj, n: nat) {
    && SlabReady(s, el, o) && LabelsOk(s, d) && ppn + el.pages <= n
    && s' == s.(mapping := Mapped(s.mapping, el, ppn)) && Extends(s, s')
  }

  lemma IsJustBacked(s: Sys, s': Sys, d: seq<Ppage>, el: Vregion, ppn: nat, o: Obj, n: nat)
    requires SlabReady(s, el, o) && LabelsOk(s, d) && ppn + el.pages <= n
    requires s' == s.(mapping := Mapped(s.mapping, el, ppn)) && Extends(s, s')
    ensures JustBacked(s, s', d, el, ppn, o, n)
  {}

  lemma JustBackedFacts(s: Sys, s': Sys, d: seq<Ppage>, el: Vregion, ppn: nat, o: Obj, n: nat)
    requires JustBacked(s, s', d, el, ppn, o, n)
    ensures ppn + el.pages <= n && el.pages > 0 && o.Addr() > 0 && s'.labels == s.labels
  {
    hide LabelsOk, Vacant, IsUsed, NotNamed, Mapped, Obj.Addr;
  }

  /** Now these frames carry the address of o. */
  lemma WasBacked(s: Sys, s1: Sys, d0: seq<Ppage>, live: set<Block>, el: Vregion, ppn: nat, o: Obj,
                  d: seq<Ppage>, d': seq<Ppage>)
    requires JustBacked(s, s1, d0, el, ppn, o, |d|) && LabelsOk(s1, d) && MapOk(s1, live)
    requires SlabSet(d, d', ppn, el.pages, o.Addr())
    ensures BackedFor(s, WithLabel(s1, el, o), o, el) && LabelsOk(WithLabel(s1, el, o), d')
  {
    hide LabelsOk, IsUsed, Slabs, Obj.Addr, MapOk, Vacant, SlabSet, Mapped;
    NotYetLabelled(s, d0, el);
    forall p: nat | el.Covers(p) ensures p in s1.mapping && s1.mapping[p] == ppn + (p - el.first) {
      MappedAt(s.mapping, el, ppn, p);
    }
    LabelGrows(s1, d, el, ppn, o, live, d');
    BackedSite(s, s1, el, ppn);
    SiteLabelled(s, s1, el, o);
  }

  lemma MapIsOk(s: Sys, lo: nat, tables: set<nat>, live: set<Block>)
    requires SysOk(s, lo, tables, live)
    ensures MapOk(s, live) && |s.caches| > VREG
  {
    hide MapOk;
  }

  lemma SiteLabelled(s: Sys, s1: Sys, el: Vregion, o: Obj)
    requires SlabSite(s1, el, el.pages) && Extends(s, s1) && s1 == s.(mapping := s1.mapping) && el !in s.labels
    ensures BackedFor(s, WithLabel(s1, el, o), o, el)
  {
    hide IsUsed, Slabs;
  }

  /** As long as no slab is added the labels stay right. */
  lemma SameSlabsNamed(s: Sys, s': Sys, d: seq<Ppage>, d': seq<Ppage>)
    requires LabelsOk(s, d) && Extends(s, s') && s'.labels == s.labels && SlabsAlike(d, d') && SameSlabs(s, s')
    ensures LabelsOk(s', d')
  {
    hide IsUsed, Slabs;
    SameRecorded(s, s');
    LabelsStay(s, s', d, d');
  }

  lemma HandedNamed(s: Sys, s': Sys, i: nat, o: Obj, d: seq<Ppage>)
    requires LabelsOk(s, d) && HandedFrom(s, s', i, o)
    ensures LabelsOk(s', d)
  {
    HandedExtends(s, s', i, o);
    hide HandedOut, Slabs, Extends, IsUsed, LabelsOk;
    SameSlabsNamed(s, s', d, d);
  }

  lemma HandedNotNamed(s: Sys, s': Sys, o: Obj, d: seq<Ppage>)
    requires LabelsOk(s, d) && HandedFrom(s, s', SLAB, o)
    ensures NotNamed(s', o)
  {
    HandedExtends(s, s', SLAB, o);
    hide HandedOut, Slabs, Extends, IsUsed, LabelsOk;
    FreeIsNotNamed(s, d, o);
  }

  /** A slab that joins one of the reserves, or that is recorded. */
  lemma JoinedNamed(s: Sys, s': Sys, i: nat, first: nat, d: seq<Ppage>)
    requires LabelsOk(s, d) && SlabJoined(s, s', i, first)
    requires i != SLAB && i != VREG ==> Vregion(first, s.caches[i].pagesPerSlab) in s.labels
    ensures LabelsOk(s', d)
  {
    ExtendsShapes(s, s', i);
    OnlyOneCacheMoved(s, s', i);
    hide IsUsed, Slabs, Extends;
    forall j: nat, f: nat | j < |s'.caches| ensures Recorded(s', j, f) { assert Recorded(s, j, f); }
    LabelsStay(s, s', d, d);
  }

  lemma CacheNamed(s: Sys, s': Sys, c: Cache, d: seq<Ppage>)
    requires LabelsOk(s, d) && s' == s.(caches := s.caches + [c]) && Slabs(c) == map[] && Extends(s, s')
    ensures LabelsOk(s', d)
  {
    hide IsUsed, Slabs, Extends;
    forall j: nat, f: nat | j < |s'.caches| ensures Recorded(s', j, f) {
      if j < |s.caches| { assert Recorded(s, j, f); }
    }
    LabelsStay(s, s', d, d);
  }

  /** Free memory appears behind the boot regions. */
  lemma FreeRegionAppears(s: Sys, lo: nat, tables: set<nat>, live: set<Block>, r: Vregion)
    requires SysOk(s, lo, tables, live) && s.free == [] && s.news == []
    requires r.first >= lo && forall p: nat | r.Covers(p) :: HasTable(tables, p)
    ensures SysOk(s.(free := [r]), lo, tables, live) && Extends(s, s.(free := [r]))
  {
    var s' := s.(free := [r]);
    hide CachesOk, Slabs, IsUsed;
    assert forall p :: InUse(s', p) == InUse(s, p);
    SameMap(s, s', live);
    SameCachesOk(s, s');
    forall i: nat, f: nat | i < |s.caches| ensures SlabPlaced(s', i, f) && SlabMapped(s', i, f) {
      assert SlabPlaced(s, i, f) && SlabMapped(s, i, f);
    }
  }

  /** No block for n pages can be had: n is more than the 512 pages of the largest block, or no
      aligned run of free pages is long enough. */
  ghost predicate OutOfPages(free: set<Block>, n: nat) {
    n > Pow2(MAX_ORDER - 1) || NoRun(free, OrderFor(n))
  }

  /** The page allocator is as consistent as its text keeps it, and no two of its free blocks
      are buddies. */
  ghost predicate PagesOk(phys: PageAllocator)
    reads phys, phys.dscrs, phys.freeHeads, phys.usedHeads
  {
    phys.Sound() && Canonical(phys.Free())
  }

  lemma PagesFacts(phys: PageAllocator, n: nat)
    requires PagesOk(phys)
    ensures phys.Sound() && L.Loose(phys.View(), phys.lists) && Canonical(FreeSet(phys.View().pages))
    ensures n <= Pow2(MAX_ORDER - 1) <==> OrderFor(n) < MAX_ORDER
    ensures !(OrderFor(n) < MAX_ORDER && Fits(phys.lists, OrderFor(n))) ==> OutOfPages(phys.Free(), n)
  {
    hide Canonical, SoundBy;
    SoundFacts(phys.text, phys.View(), phys.lists);
    OrderHolds(n);
    if n <= Pow2(MAX_ORDER - 1) { NoFitIffNoRun(phys.View(), phys.lists, OrderFor(n)); }
  }

  /** ppages_alloc on a consistent page allocator, whatever its text. */
  method TakePages(phys: PageAllocator, n: nat) returns (r: Option<nat>)
    requires PagesOk(phys)
    modifies phys, phys.dscrs, phys.freeHeads, phys.usedHeads
    ensures r.Some? ==>
              && PagesOk(phys) && r.value + n <= phys.dscrs.Length
              && NewFrames(old(phys.Live()), phys.Live(), r.value, n)
    ensures r.Some? ==> OnlyTaken(old(phys.Free()), phys.Free(), r.value, OrderFor(n))
    ensures r.Some? ==> SlabsAlike(old(phys.dscrs[..]), phys.dscrs[..])
    ensures r.None? ==> phys.View() == old(phys.View()) && phys.lists == old(phys.lists) && OutOfPages(phys.Free(), n)
  {
    ghost var v, lists := phys.View(), phys.lists;
    PagesFacts(phys, n);
    hide SoundBy, BuddyAlloc.Valid, Took, L.Loose, NewFrames, Canonical, NoRun, FreeSet, OutOfPages, Pow2, OrderFor,
         OnlyTaken;
    r := phys.PagesAlloc(n);
    if r.Some? {
      AllocatedIsCanonical(v, lists, OrderFor(n), Done(phys.View(), r.value));
      OthersStayFree(v, lists, OrderFor(n), Done(phys.View(), r.value));
      LabelsUntouched(v, lists, OrderFor(n), Done(phys.View(), r.value));
    }
  }

  class Kernel {
    const phys: PageAllocator
    const machine: P.Machine         // memory with the page tables, and the processor
    ghost const tables: set<nat>     // the directory slots that hold a page table
    var caches: seq<Cache>           // caches_clist
    var freeRegions: seq<Vregion>    // free_vregions
    var usedRegions: seq<Vregion>    // used_vregions
    ghost var mapping: map<nat, nat> // what the page tables were told
    ghost var news: seq<Vregion>     // the used regions that are not boot's
    ghost var labels: map<Vregion, Obj> // the Slab objects that label the frames of regions
    ghost const boots: seq<Vregion>
    ghost const lo: nat              // the first page that is not boot memory
    ghost const tableFrames: set<nat> // the frames of the page directory, its tables and all of boot's
    ghost const own: nat             // how many frames boot keeps, from the first on

    ghost function View(): Sys
      reads this
    {
      Sys(caches, freeRegions, news, boots, mapping, labels)
    }

    ghost predicate PhysOk()
      reads phys, phys.dscrs, phys.freeHeads, phys.usedHeads
    {
      PagesOk(phys) && phys.dscrs.Length <= P.PAGES
    }

    /** The first megabyte, the kernel image and the page descriptors, which are the first own
        frames, are where boot mapped them, and everything else lies behind them. */
    ghost predicate OwnOk()
      reads machine
    {
      && OwnShown(machine.mem, machine.cr3, own) && (forall f: nat | f < own :: f in tableFrames)
      && lo >= 0xC0000 + own && forall i | 0 <= i < |boots| :: boots[i].first >= 0xC0000 + own
    }

    /** The page tables say what the kernel recorded, and nothing is mapped over them. */
    ghost predicate TablesOk()
      reads `mapping, machine, phys, phys.dscrs
    {
      Agrees(machine, mapping, tables, tableFrames) && Untouched(tableFrames, mapping, phys.Live()) && OwnOk()
    }

    /** The frames of slabs carry the addresses of Slab objects of their own. */
    ghost predicate Named()
      reads this, phys, phys.dscrs
    {
      LabelsOk(View(), phys.dscrs[..])
    }

    ghost predicate Valid()
      reads this, machine, phys, phys.dscrs, phys.freeHeads, phys.usedHeads
    {
      && PhysOk() && TablesOk() && Named() && SysOk(View(), lo, tables, phys.Live())
      && usedRegions == news + boots && |caches| > VREG
    }

    /** There really is too little memory for n pages: no aligned run of 2^OrderFor(n) physical
        pages is free, if n is no more than the 512 pages of the largest block, or no free
        region has n virtual ones. */
    ghost predicate Exhausted(c: Cause, n: nat)
      reads this, phys, phys.dscrs
    {
      match c
      case NoPages => OutOfPages(phys.Free(), n)
      case NoRegion => forall i | 0 <= i < |freeRegions| :: freeRegions[i].pages < n
      case _ => false
    }

    /** The state once objs_cache_boot_init has set up the three first caches. */
    constructor Of(phys: PageAllocator, machine: P.Machine, caches: seq<Cache>, boots: seq<Vregion>,
                   ghost tables: set<nat>, ghost frames: set<nat>, ghost mapping: map<nat, nat>,
                   ghost labels: map<Vregion, Obj>, ghost lo: nat, ghost own: nat)
      requires |caches| > VREG && PagesOk(phys) && phys.dscrs.Length <= P.PAGES
      requires SysOk(Sys(caches, [], [], boots, mapping, labels), lo, tables, phys.Live())
      requires LabelsOk(Sys(caches, [], [], boots, mapping, labels), phys.dscrs[..])
      requires Agrees(machine, mapping, tables, frames) && Untouched(frames, mapping, phys.Live())
      requires OwnShown(machine.mem, machine.cr3, own) && (forall f: nat | f < own :: f in frames)
      requires lo >= 0xC0000 + own && forall i | 0 <= i < |boots| :: boots[i].first >= 0xC0000 + own
      ensures Valid() && View() == Sys(caches, [], [], boots, mapping, labels)
      ensures this.phys == phys && this.machine == machine && this.tables == tables && this.lo == lo
      ensures tableFrames == frames && this.own == own
    {
      hide SysOk, PagesOk, Agrees, Untouched, LabelsOk, OwnShown;
      this.phys, this.machine, this.caches := phys, machine, caches;
      freeRegions, usedRegions, this.labels := [], boots, labels;
      this.tables, tableFrames, this.mapping, this.lo, this.boots, news := tables, frames, mapping, lo, boots, [];
      this.own := own;
    }

    /** The end of virtual_page_boot_init: the first free region. */
    method SetFree(r: Vregion)
      requires Valid() && freeRegions == [] && news == []
      requires r.first >= lo && forall p: nat | r.Covers(p) :: HasTable(tables, p)
      modifies `freeRegions
      ensures Valid() && View() == old(View()).(free := [r])
    {
      hide SysOk, PhysOk, TablesOk, LabelsOk, Slabs;
      FreeRegionAppears(View(), lo, tables, phys.Live(), r);
      SameSlabsNamed(View(), View().(free := [r]), phys.dscrs[..], phys.dscrs[..]);
      freeRegions := [r];
    }

    /** _retrieve_free_obj_from_objs_cache(caches[i]). */
    method RetrieveObj(i: nat) returns (r: Option<Obj>)
      requires Valid() && i < |caches|
      modifies `caches
      ensures Valid()
      ensures r.None? ==> caches == old(caches) && caches[i].freeObjs == 0
      ensures r.None? ==> caches[i].partialSlabs == [] && caches[i].freeSlabs == []
      ensures r.Some? ==> HandedFrom(old(View()), View(), i, r.value)
      ensures r.Some? ==> TakenFirst(old(caches)[i], caches[i], r.value)
    {
      ghost var s := View();
      hide SysOk, CacheOk, HandedOut, TakenFirst, PhysOk, TablesOk, LabelsOk, PageAllocator.Live, Retrieved;
      ReadyToRetrieve(s, lo, tables, phys.Live(), i);
      RetrieveKeeps(caches[i]);
      RetrievedIsFirst(caches[i]);
      match Retrieved(caches[i]) {
        case None =>
          return None;
        case Some((c, o)) =>
          HandOutKeeps(s, lo, tables, phys.Live(), i, c, o);
          HandedNamed(s, WithCache(s, i, c), i, o, phys.dscrs[..]);
          caches := caches[i := c];
          return Some(o);
      }
    }

    /** _vregion_alloc. Ok(None) is its NULL. */
    method VregionTake(n: nat) returns (r: Outcome<Option<Vregion>>)
      requires Valid()
      modifies `caches, `freeRegions, `usedRegions, `news
      ensures r.Ok? ==> Valid()
      ensures r.Ok? && r.value.None? ==> View() == old(View()) && Exhausted(NoRegion, n)
      ensures r.Ok? && r.value.Some? ==>
                && RegionTaken(old(View()), View(), n, r.value.value) && Extends(old(View()), View())
                && Vacant(View(), r.value.value) && Unused(old(View()), r.value.value)
      ensures r.Halted? ==> (r.cause.NoRegion? && Exhausted(NoRegion, n)) || old(caches)[VREG].freeObjs == 0
    {
      hide SysOk, HandedFrom, PhysOk, TablesOk, LabelsOk, PageAllocator.Live, Trimmed, Inserted, Extends, Vacant,
           CacheOk, VregionsUsed, RegionTaken, Unused;
      if freeRegions == [] {
        return Halted(NoRegion);
      }
      var i := FirstFit(freeRegions, n);
      if i == |freeRegions| {
        return Ok(None);
      }
      ghost var s := View();
      CutIsUnused(s, lo, tables, phys.Live(), n);
      NoVregionUsed(s);
      if freeRegions[i].pages > n {
        var upper := RetrieveObj(VREG);
        if upper.None? {
          return Halted(CacheEmpty);
        }
        OneVregionUsed(s, View(), upper.value);
      }
      ghost var s1 := View();
      var el := Vregion(freeRegions[i].first, n);
      ghost var s2 := CutKeeps(s1, lo, tables, phys.Live(), i, n);
      freeRegions := Trimmed(freeRegions, i, n);
      var used := InsertOrdered(usedRegions, el);
      if used.None? {
        return Halted(Misuse);
      }
      SameSlabsNamed(s1, s2, phys.dscrs[..], phys.dscrs[..]);
      usedRegions, news := used.value, s2.news;
      RegionIsTaken(s, s1, s2, n);
      return Ok(Some(el));
    }

    /** map_pages; false is a panic. */
    method MapPages(ppn: nat, vpn: nat, n: nat) returns (ok: bool)
      requires Agrees(machine, mapping, tables, tableFrames) && vpn + n <= P.REC * P.ENTRIES && ppn + n <= P.PAGES
      modifies `mapping, machine
      ensures ok <==> vpn != 0 && forall p: nat | vpn <= p < vpn + n :: HasTable(tables, p)
      ensures ok ==>
                && Agrees(machine, mapping, tables, tableFrames)
                && mapping == Mapped(old(mapping), Vregion(vpn, n), ppn)
      ensures ok ==> OthersStay(old(machine.mem), machine.mem, machine.cr3, vpn, n) && machine.cr3 == old(machine.cr3)
    {
      hide HasTable, Mapped, Agrees, OthersStay;
      ok := MapInto(machine, mapping, tables, tableFrames, ppn, vpn, n);
      mapping := Mapped(mapping, Vregion(vpn, n), ppn);
    }

    /** Gets physical pages for a region and maps them: ppages_alloc, then map_pages. */
    method Back(el: Vregion) returns (r: Outcome<nat>)
      requires Valid() && el in news && Vacant(View(), el) && el.pages > 0
      modifies `mapping, machine, phys, phys.dscrs, phys.freeHeads, phys.usedHeads
      ensures r.Ok? ==>
                && Valid() && r.value + el.pages <= phys.dscrs.Length
                && View() == old(View()).(mapping := Mapped(old(mapping), el, r.value))
                && Extends(old(View()), View())
      ensures r.Halted? ==> Exhausted(r.cause, el.pages)
    {
      hide SysOk, Extends, Vacant, PagesOk, LabelsOk, SlabsAlike, Mapped, NewFrames, HasTable, OutOfPages, OnlyTaken,
           OrderFor, OwnShown, OthersStay;
      ghost var s, live := View(), phys.Live();
      ghost var d := phys.dscrs[..];
      CanBeMapped(s, lo, tables, live, el);
      EndsBelowWindow(tables, el.first, el.pages);
      NewsBehind(s, lo, tables, live, el);
      hide Agrees, Untouched;
      var ppn := TakePages(phys, el.pages);
      if ppn.None? {
        return Halted(NoPages);
      }
      MapKeeps(s, lo, tables, live, el, ppn.value, phys.Live());
      StillUntouched(tableFrames, mapping, live, el, ppn.value, phys.Live());
      MapExtends(s, el, ppn.value);
      SameSlabsNamed(s, s.(mapping := Mapped(mapping, el, ppn.value)), d, phys.dscrs[..]);
      ghost var m := machine.mem;
      var ok := MapPages(ppn.value, el.first, el.pages);
      if ok { OwnStays(m, machine.mem, machine.cr3, el.first, el.pages, own); }
      return if ok then Ok(ppn.value) else Halted(Misuse);
    }

    /** initialize_slab on the backed region that starts at page first, then
        objs_cache_add_slab(caches[i], SLAB_STATUS_FREE); false is its KASSERT. */
    method AddFreeSlab(i: nat, first: nat) returns (ok: bool)
      requires Valid() && i < |caches| && MayJoin(View(), i, first)
      requires i != SLAB && i != VREG ==> Vregion(first, caches[i].pagesPerSlab) in labels
      modifies `caches
      ensures ok && Valid() && SlabJoined(old(View()), View(), i, first)
      ensures old(caches)[i].size > 0
      ensures AllFree(old(caches)[i], caches[i], first)
    {
      ghost var s := View();
      hide SysOk, CacheOk, PhysOk, TablesOk, LabelsOk, PageAllocator.Live, Added, NewSlab, SlabJoined, Grown, SlabOk,
           Capacity, AllFree;
      ReadyToRetrieve(s, lo, tables, phys.Live(), i);
      JoinsAfterZero(s, lo, tables, phys.Live(), i, first);
      SizesPositive(caches[i]);
      var sl := NewSlab(first, caches[i].pagesPerSlab, caches[i].size, 0);
      NewSlabOk(caches[i], first);
      AddKeeps(caches[i], sl, FreeSlab);
      match Added(caches[i], sl, FreeSlab) {
        case None =>
          return false;
        case Some(c) =>
          AddSlabKeeps(s, lo, tables, phys.Live(), i, c, sl);
          GrownShape(caches[i], c, sl);
          FreshSlabJoins(s, i, c, sl);
          AddedAllFree(caches[i], c, sl);
          JoinedNamed(s, WithCache(s, i, c), i, first, phys.dscrs[..]);
          caches := caches[i := c];
          return true;
      }
    }

    /** A region of one page, and a Slab object, both from the reserves
        (slab.c:595-599, 625-629). */
    method TakeReserves() returns (r: Outcome<(Vregion, Obj)>)
      requires Valid()
      modifies `caches, `freeRegions, `usedRegions, `news
      ensures r.Ok? ==> Valid() && ReservesTaken(old(View()), View(), r.value.0)
      ensures r.Halted? ==> Exhausted(r.cause, VREG_PAGES) || ReserveEmpty(old(View()))
    {
      ghost var s := View();
      hide SysOk, PhysOk, TablesOk, Named, RegionTaken, Extends, Vacant, HandedFrom, Counts, SplitCost, ReservesTaken,
           Unused;
      var region := VregionTake(VREG_PAGES);
      if region.Halted? {
        return Halted(region.cause);
      }
      ghost var s1 := View();
      var slab := RetrieveObj(SLAB);
      if region.value.None? {
        return Halted(NoRegion);
      }
      var el := region.value.value;
      if slab.None? {
        SlabsUntouched(s, s1, VREG_PAGES, el);
        return Halted(CacheEmpty);
      }
      BothTaken(s, s1, View(), el, slab.value);
      return Ok((el, slab.value));
    }

    /** Backs the region, sets up a slab in it and adds that slab to cache i
        (slab.c:601-611, 631-641). */
    method BackAndJoin(i: nat, el: Vregion) returns (r: Outcome<()>)
      requires Valid() && el in news && Vacant(View(), el)
      requires i < |caches| && el.pages == caches[i].pagesPerSlab > 0 && (i == SLAB || i == VREG)
      modifies `caches, `mapping, machine, phys, phys.dscrs, phys.freeHeads, phys.usedHeads
      ensures r.Ok? ==> Valid() && Joined(old(View()), View(), i, el.first)
      ensures r.Halted? ==> Exhausted(r.cause, el.pages)
    {
      ghost var s := View();
      hide SysOk, PhysOk, TablesOk, Named, Extends, Vacant, MayJoin, SlabJoined, Mapped, Joined;
      var ppn := Back(el);
      if ppn.Halted? {
        return Halted(ppn.cause);
      }
      ghost var s1 := View();
      ReadyToJoin(s, i, el, ppn.value);
      var ok := AddFreeSlab(i, el.first);
      BackedJoins(s, s1, View(), i, el.first);
      return Ok(());
    }

    /** A slab of one page for one of the two reserve caches. */
    method GrowFromReserve(i: nat) returns (r: Outcome<()>)
      requires Valid() && (i == SLAB || i == VREG)
      modifies this, machine, phys, phys.dscrs, phys.freeHeads, phys.usedHeads
      ensures r.Ok? ==> Valid() && Grew(old(View()), View(), i)
      ensures r.Halted? ==> Exhausted(r.cause, VREG_PAGES) || ReserveEmpty(old(View()))
    {
      ghost var s := View();
      hide SysOk, PhysOk, TablesOk, Named, ReservesTaken, Joined, Grew, Vacant;
      var taken := TakeReserves();
      if taken.Halted? {
        return Halted(taken.cause);
      }
      ghost var s1 := View();
      var el := taken.value.0;
      FitsReserveCache(s, s1, lo, tables, phys.Live(), el);
      var r1 := BackAndJoin(i, el);
      if r1.Halted? {
        return Halted(r1.cause);
      }
      ReserveGrew(s, s1, View(), i, el);
      return Ok(());
    }

    /** _create_slab_for_cache_Vregion. */
    method CreateSlabForVregion() returns (r: Outcome<()>)
      requires Valid() && FreeSlabs(View()) >= 2 && FreeVregions(View()) >= 1
      modifies this, machine, phys, phys.dscrs, phys.freeHeads, phys.usedHeads
      ensures r.Ok? ==> Valid() && VregionsRefilled(old(View()), View())
      ensures r.Halted? ==> Exhausted(r.cause, VREG_PAGES)
      decreases if caches[SLAB].freeObjs == 2 then 1 else 0
    {
      ghost var s := View();
      ReserveCaches(s, lo, tables, phys.Live());
      hide SysOk, PhysOk, TablesOk, Named, Grew, VregionsRefilled, SlabsRefilled;
      if caches[VREG].freeObjs < MIN_VREGIONS - 1 {
        return Halted(ReserveBroken);
      }
      if caches[VREG].pagesPerSlab != VREG_PAGES {
        return Halted(Misuse);
      }
      var grown := GrowFromReserve(VREG);
      if grown.Halted? {
        return grown;
      }
      ghost var s1 := View();
      GrewFacts(s, s1, VREG);
      if caches[SLAB].freeObjs == MIN_SLABS - 1 {
        var refilled := CreateSlabForSlab();
        if refilled.Halted? {
          return refilled;
        }
      }
      VregionsWereRefilled(s, s1, View());
      return Ok(());
    }

    /** _create_slab_for_cache_Slab. */
    method CreateSlabForSlab() returns (r: Outcome<()>)
      requires Valid() && FreeSlabs(View()) >= 1 && FreeVregions(View()) >= 2
      modifies this, machine, phys, phys.dscrs, phys.freeHeads, phys.usedHeads
      ensures r.Ok? ==> Valid() && SlabsRefilled(old(View()), View())
      ensures r.Halted? ==> Exhausted(r.cause, VREG_PAGES)
      decreases if caches[VREG].freeObjs == 2 then 1 else 0
    {
      ghost var s := View();
      ReserveCaches(s, lo, tables, phys.Live());
      hide SysOk, PhysOk, TablesOk, Named, Grew, VregionsRefilled, SlabsRefilled;
      if caches[SLAB].freeObjs < MIN_SLABS - 1 {
        return Halted(ReserveBroken);
      }
      if caches[SLAB].pagesPerSlab != SLAB_PAGES {
        return Halted(Misuse);
      }
      var grown := GrowFromReserve(SLAB);
      if grown.Halted? {
        return grown;
      }
      ghost var s1 := View();
      GrewFacts(s, s1, SLAB);
      if caches[VREG].freeObjs == MIN_VREGIONS - 1 {
        var refilled := CreateSlabForVregion();
        if refilled.Halted? {
          return refilled;
        }
      }
      SlabsWereRefilled(s, s1, View());
      return Ok(());
    }

    /** vregion_alloc. Ok(None) is its NULL. */
    method VregionAlloc(n: nat) returns (r: Outcome<Option<Vregion>>)
      requires Valid() && Reserved(View())
      modifies this, machine, phys, phys.dscrs, phys.freeHeads, phys.usedHeads
      ensures r.Ok? ==> Valid()
      ensures r.Ok? && r.value.None? ==> Onward(old(View()), View()) && Reserved(View()) && Exhausted(NoRegion, n)
      ensures r.Ok? && r.value.Some? ==> RegionAllocated(old(View()), View(), n, r.value.value)
      ensures r.Halted? ==> Exhausted(r.cause, VREG_PAGES) || (r.cause.NoRegion? && Exhausted(NoRegion, n))
    {
      ghost var s := View();
      ReserveCaches(s, lo, tables, phys.Live());
      hide SysOk, PhysOk, TablesOk, Named, RegionTaken, Extends, Vacant, Unused, RegionAllocated, VregionsRefilled;
      if caches[VREG].freeObjs < MIN_VREGIONS {
        return Halted(ReserveBroken);
      }
      if caches[VREG].freeObjs == MIN_VREGIONS {
        var refilled := CreateSlabForVregion();
        if refilled.Halted? {
          return Halted(refilled.cause);
        }
      }
      ghost var s1 := View();
      RefillReadies(s, s1);
      r := VregionTake(n);
      if r.Ok? && r.value.Some? {
        RegionWasAllocated(s, s1, View(), n, r.value.value);
      }
    }

    /** objs_cache_alloc, lines 467-478. */
    method Refill() returns (r: Outcome<()>)
      requires Valid() && Reserved(View())
      modifies this, machine, phys, phys.dscrs, phys.freeHeads, phys.usedHeads
      ensures r.Ok? ==> Valid() && Refilled(old(View()), View())
      ensures r.Halted? ==> Exhausted(r.cause, VREG_PAGES)
      ensures FreeSlabs(old(View())) > 2 && FreeVregions(old(View())) > 2 ==>
                r.Ok? && unchanged(machine, phys, phys.dscrs, phys.freeHeads, phys.usedHeads)
    {
      ghost var s := View();
      ReserveCaches(s, lo, tables, phys.Live());
      hide SysOk, PhysOk, TablesOk, Named, Extends, VregionsRefilled, SlabsRefilled, Refilled;
      if caches[SLAB].freeObjs < MIN_SLABS {
        return Halted(ReserveBroken);
      }
      if caches[SLAB].freeObjs == MIN_SLABS {
        var refilled := CreateSlabForSlab();
        if refilled.Halted? {
          return refilled;
        }
      }
      ghost var s1 := View();
      FirstRefill(s, s1);
      if caches[VREG].freeObjs == MIN_VREGIONS {
        var refilled := CreateSlabForVregion();
        if refilled.Halted? {
          return refilled;
        }
      }
      SecondRefill(s, s1, View());
      return Ok(());
    }

    /** ppages_set_slab for a slab with a region of n pages. */
    method LabelPages(ppn: nat, n: nat, slab: nat) returns (ok: bool)
      requires PhysOk() && TablesOk() && ppn + n <= phys.dscrs.Length && n > 0 && slab > 0
      modifies phys.dscrs
      ensures ok && PhysOk() && TablesOk() && phys.Live() == old(phys.Live())
      ensures SlabSet(old(phys.dscrs[..]), phys.dscrs[..], ppn, n, slab)
    {
      hide SoundBy, BuddyAlloc.Valid, SlabSet, Canonical, FreeSet, LiveSet, Agrees, Untouched;
      ok := phys.SetSlab(ppn, n, slab, Some(n));
    }

    /** The kernel's record of the labels the frames of el carry now. */
    ghost method Record(s: Sys, el: Vregion, slab: Obj)
      requires View() == s && PhysOk() && TablesOk() && usedRegions == news + boots && |caches| > VREG
      requires LabelsOk(WithLabel(s, el, slab), phys.dscrs[..])
      requires SysOk(WithLabel(s, el, slab), lo, tables, phys.Live())
      modifies `labels
      ensures Valid() && View() == WithLabel(s, el, slab)
    {
      hide PhysOk, TablesOk, LabelsOk, SysOk, PageAllocator.Live;
      labels := labels[el := slab];
      assert View() == WithLabel(s, el, slab);
    }

    /** The frames of a region that has just been mapped to them get their labels. */
    method LabelFrames(el: Vregion, ppn: nat, slab: Obj, ghost s: Sys, ghost d0: seq<Ppage>)
      requires Valid() && JustBacked(s, View(), d0, el, ppn, slab, phys.dscrs.Length)
      modifies `labels, phys.dscrs
      ensures Valid() && BackedFor(s, View(), slab, el)
    {
      ghost var s1, d1 := View(), phys.dscrs[..];
      hide SysOk, PhysOk, TablesOk, BackedFor, LabelsOk, Obj.Addr, JustBacked, SlabSet, MapOk, WithLabel;
      JustBackedFacts(s, s1, d0, el, ppn, slab, phys.dscrs.Length);
      MapIsOk(s1, lo, tables, phys.Live());
      var ok := LabelPages(ppn, el.pages, slab.Addr());
      WasBacked(s, s1, d0, phys.Live(), el, ppn, slab, d1, phys.dscrs[..]);
      LabelsIgnored(s1, lo, tables, phys.Live(), el, slab);
      Record(s1, el, slab);
    }

    /** create_slab, lines 136-148: backs the region and labels its physical pages with the
        address of the Slab object. */
    method BackAndLabel(el: Vregion, slab: Obj) returns (r: Outcome<()>)
      requires Valid() && SlabReady(View(), el, slab)
      modifies `mapping, `labels, machine, phys, phys.dscrs, phys.freeHeads, phys.usedHeads
      ensures r.Ok? ==> Valid() && BackedFor(old(View()), View(), slab, el)
      ensures r.Halted? ==> Exhausted(r.cause, el.pages)
    {
      ghost var s, d0 := View(), phys.dscrs[..];
      hide SysOk, PhysOk, TablesOk, Extends, Vacant, BackedFor, Mapped, LabelsOk, NotNamed, IsUsed, Obj.Addr,
           JustBacked;
      var ppn := Back(el);
      if ppn.Halted? {
        return Halted(ppn.cause);
      }
      IsJustBacked(s, View(), d0, el, ppn.value, slab, phys.dscrs.Length);
      LabelFrames(el, ppn.value, slab, s, d0);
      return Ok(());
    }

    /** A Slab object and a region for a new slab (slab.c:128-132). */
    method TakeForSlab(pages: nat) returns (r: Outcome<(Obj, Vregion)>)
      requires Valid() && Reserved(View()) && FreeVregions(View()) > 2
      modifies this, machine, phys, phys.dscrs, phys.freeHeads, phys.usedHeads
      ensures r.Ok? ==> Valid() && TakenForSlab(old(View()), View(), r.value.0, r.value.1, pages)
      ensures r.Halted? ==> Exhausted(r.cause, 1) || Exhausted(r.cause, pages)
      decreases 1, 0
    {
      ghost var s := View();
      ReserveCaches(s, lo, tables, phys.Live());
      hide SysOk, PhysOk, TablesOk, Named, ObjectAllocated, RegionAllocated, Obj.Addr, TakenForSlab;
      var slab := ObjsCacheAlloc(SLAB);
      if slab.Halted? {
        return Halted(slab.cause);
      }
      ghost var s1 := View();
      SlabAllocatedFacts(s, s1, slab.value);
      var region := VregionAlloc(pages);
      if region.Halted? {
        return Halted(region.cause);
      }
      if region.value.None? {
        // objs_cache_free panics
        return Halted(NoRegion);
      }
      TakenTogether(s, s1, View(), slab.value, region.value.value, pages);
      return Ok((slab.value, region.value.value));
    }

    /** create_slab, up to the point where the slab joins its cache: the Slab object and the
        region of the new slab. */
    method CreateSlab(pages: nat) returns (r: Outcome<(Obj, Vregion)>)
      requires Valid() && Reserved(View()) && FreeVregions(View()) > 2 && pages > 0
      modifies this, machine, phys, phys.dscrs, phys.freeHeads, phys.usedHeads
      ensures r.Ok? ==> Valid() && SlabCreated(old(View()), View(), r.value.0, r.value.1, pages)
      ensures r.Halted? ==> Exhausted(r.cause, 1) || Exhausted(r.cause, pages)
      decreases 1, 1
    {
      ghost var s := View();
      hide SysOk, PhysOk, TablesOk, Named, SlabCreated, BackedFor, Extends, Vacant, Obj.Addr, IsUsed, NotNamed;
      var taken := TakeForSlab(pages);
      if taken.Halted? {
        return Halted(taken.cause);
      }
      ghost var s1 := View();
      var (slab, el) := taken.value;
      var backed := BackAndLabel(el, slab);
      if backed.Halted? {
        return Halted(backed.cause);
      }
      SlabWasCreated(s, s1, View(), slab, el);
      return Ok((slab, el));
    }

    /** objs_cache_alloc, lines 482-487. */
    method NewSlabFor(i: nat) returns (r: Outcome<()>)
      requires Valid() && Reserved(View()) && FreeVregions(View()) > 2 && i < |caches| && caches[i].freeObjs == 0
      modifies this, machine, phys, phys.dscrs, phys.freeHeads, phys.usedHeads
      ensures r.Ok? ==> Valid() && Replenished(old(View()), View(), i)
      ensures r.Halted? ==> Exhausted(r.cause, 1) || Exhausted(r.cause, old(caches)[i].pagesPerSlab)
      decreases 1, 2
    {
      ghost var s := View();
      ReadyToRetrieve(s, lo, tables, phys.Live(), i);
      SizesPositive(caches[i]);
      hide SysOk, PhysOk, TablesOk, Named, SlabCreated, MayJoin, SlabJoined, Replenished, CacheOk, Extends, Obj.Addr;
      var pages := caches[i].pagesPerSlab;
      var created := CreateSlab(pages);
      if created.Halted? {
        return Halted(created.cause);
      }
      ghost var s1 := View();
      var (slab, el) := created.value;
      CreatedMayJoin(s, s1, i, slab, el, pages);
      var ok := AddFreeSlab(i, el.first);
      SlabReplenishes(s, s1, View(), i, slab, el, pages);
      return if ok then Ok(()) else Halted(Misuse);
    }

    /** objs_cache_alloc, lines 480-488. */
    method Replenish(i: nat) returns (r: Outcome<()>)
      requires Valid() && Reserved(View()) && FreeVregions(View()) > 2 && i < |caches|
      modifies this, machine, phys, phys.dscrs, phys.freeHeads, phys.usedHeads
      ensures r.Ok? ==> Valid() && Replenished(old(View()), View(), i)
      ensures old(caches)[i].freeObjs > 0 ==>
                r.Ok? && unchanged(machine, phys, phys.dscrs, phys.freeHeads, phys.usedHeads)
      ensures r.Halted? ==> Exhausted(r.cause, 1) || Exhausted(r.cause, old(caches)[i].pagesPerSlab)
      decreases if i == SLAB then 0 else 1, 3
    {
      if caches[i].freeObjs == 0 {
        hide SysOk, PhysOk, TablesOk, Named, Replenished;
        r := NewSlabFor(i);
      } else {
        NothingReplenished(View(), i);
        hide SysOk, PhysOk, TablesOk, Named, Replenished;
        r := Ok(());
      }
    }

    /** objs_cache_alloc on caches[i]. */
    method ObjsCacheAlloc(i: nat) returns (r: Outcome<Obj>)
      requires Valid() && Reserved(View()) && i < |caches|
      modifies this, machine, phys, phys.dscrs, phys.freeHeads, phys.usedHeads
      ensures r.Ok? ==> Valid() && ObjectAllocated(old(View()), View(), i, r.value)
      ensures r.Halted? ==> Exhausted(r.cause, 1) || Exhausted(r.cause, old(caches)[i].pagesPerSlab)
      ensures FreeSlabs(old(View())) > 2 && FreeVregions(old(View())) > 2 && old(caches)[i].freeObjs > 0 ==>
                r.Ok? && unchanged(machine, phys, phys.dscrs, phys.freeHeads, phys.usedHeads)
      decreases if i == SLAB then 0 else 1, 4
    {
      ghost var s := View();
      hide SysOk, PhysOk, TablesOk, LabelsOk, Refilled, Replenished, ObjectAllocated, HandedFrom, NotNamed, Obj.Addr;
      var refilled := Refill();
      if refilled.Halted? {
        return Halted(refilled.cause);
      }
      ghost var s1 := View();
      RefilledFacts(s, s1, i);
      var replenished := Replenish(i);
      if replenished.Halted? {
        return Halted(replenished.cause);
      }
      ghost var s2 := View();
      ReplenishedFacts(s1, s2, i);
      ReadyToRetrieve(s2, lo, tables, phys.Live(), i);
      var o := RetrieveObj(i);
      if o.None? {
        return Halted(CacheEmpty);
      }
      ObjectHasAddress(s2, View(), i, o.value);
      if i == SLAB { HandedNotNamed(s2, View(), o.value, phys.dscrs[..]); }
      ObjectWasAllocated(s, s1, s2, View(), i, o.value);
      return Ok(o.value);
    }

    /** objs_cache_create. Ok(None) is its NULL; otherwise the new cache is the last one. */
    method CacheCreate(objSize: nat, pages: nat) returns (r: Outcome<Option<nat>>)
      requires Valid() && Reserved(View())
      modifies this, machine, phys, phys.dscrs, phys.freeHeads, phys.usedHeads
      ensures r.Ok? ==> Valid() && CacheCreated(old(View()), View(), objSize, pages, r.value)
      ensures r.Halted? ==> Exhausted(r.cause, 1) || Exhausted(r.cause, old(caches)[OBJS].pagesPerSlab)
                            || (r.cause.Misuse? && objSize == 0)
    {
      ghost var s := View();
      hide SysOk, PhysOk, TablesOk, LabelsOk, ObjectAllocated, Extends, CacheOk, EmptyCache, MadeFor;
      hide NewOnUnused, Slabs, OnlyNew;
      if !CanHold(objSize, pages) {
        NothingGoesOn(s);
        return Ok(None);
      }
      var o := ObjsCacheAlloc(OBJS);
      if o.Halted? {
        return Halted(o.cause);
      }
      if objSize == 0 || pages == 0 || objSize > pages * PAGE {
        return Halted(Misuse);
      }
      ghost var s1 := View();
      ClientAllocated(s, s1, OBJS, o.value);
      EmptyCacheOk(objSize, pages);
      EmptyIsMade(objSize, pages);
      var c := EmptyCache(objSize, pages);
      CacheJoins(s1, lo, tables, phys.Live(), c);
      CacheWasCreated(s, s1, c);
      CacheNamed(s1, s1.(caches := s1.caches + [c]), c, phys.dscrs[..]);
      caches := caches + [c];
      return Ok(Some(|caches| - 1));
    }
  }

  lemma GrownShape(c: Cache, c': Cache, sl: Slab)
    requires Grown(c, c', sl)
    ensures SameShape(c, c') && Slabs(c') == Slabs(c)[sl.first := sl]
  {}

  lemma SizesPositive(c: Cache)
    requires CacheOk(c)
    ensures c.size > 0 && c.pagesPerSlab > 0
  {}

  lemma JoinsAfterZero(s: Sys, lo: nat, tables: set<nat>, live: set<Block>, i: nat, first: nat)
    requires SysOk(s, lo, tables, live) && i < |s.caches| && MayJoin(s, i, first)
    ensures first > 0 && first !in Slabs(s.caches[i])
  {
    hide CachesOk, SlabsPlaced, TablesPresent, MapOk, SlabMapped, Slabs;
    var r := Vregion(first, s.caches[i].pagesPerSlab);
    var k :| 0 <= k < |s.news| && s.news[k] == r;
  }
}
