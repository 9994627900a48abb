/** The joint state of the slab allocator and the virtual page allocator
    (src/kernel/mm/slab.c, src/kernel/mm/virtual_pages.c) and what keeps it consistent. */
module KernelState {
  import opened Blocks
  import opened FreeBlocks
  import opened VirtualRegions
  import opened SlabCaches

  // The first caches of the cache list (slab.c:339-346).
  const OBJS: nat := 0     // cache_Objs_cache
  const SLAB: nat := 1     // cache_Slab
  const VREG: nat := 2     // cache_Vregion

  /** The caches, the free regions, the used regions (those allocated since boot, then the
      boot ones), the page tables' contents as far as the allocators wrote them, and the Slab
      objects whose addresses label the frames of regions (slab.c:148). */
  datatype Sys =
    Sys(caches: seq<Cache>, free: seq<Vregion>, news: seq<Vregion>, boots: seq<Vregion>, mapping: map<nat, nat>,
        labels: map<Vregion, Obj>)

  // ----- the invariant -----

  ghost predicate InUse(s: Sys, p: int) {
    Covered(s.news, p) || Covered(s.boots, p)
  }

  ghost predicate CachesOk(s: Sys) {
    && |s.caches| > VREG
    && (forall i | 0 <= i < |s.caches| :: CacheOk(s.caches[i]))
    && s.caches[SLAB].pagesPerSlab == 1 && s.caches[VREG].pagesPerSlab == 1
    && s.caches[SLAB].perSlab >= 3 && s.caches[VREG].perSlab >= 3
  }

  /** Slab f of cache c occupies a used region of its own. */
  ghost predicate SlabPlaced(s: Sys, i: nat, f: nat)
    requires i < |s.caches|
  {
    f in Slabs(s.caches[i]) ==> Vregion(f, s.caches[i].pagesPerSlab) in s.news + s.boots
  }

  ghost predicate SlabsPlaced(s: Sys) {
    && (forall i: nat, f: nat | i < |s.caches| :: SlabPlaced(s, i, f))
    && (forall i, j | 0 <= i < j < |s.caches| :: Slabs(s.caches[i]).Keys !! Slabs(s.caches[j]).Keys)
  }

  /** The directory slot of page p holds a page table. */
  predicate HasTable(tables: set<nat>, p: nat) {
    p / 1024 in tables
  }

  /** Every page of the virtual space the allocators deal in has a page table. */
  ghost predicate TablesPresent(s: Sys, tables: set<nat>) {
    forall p: nat :: Covered(s.free, p) || InUse(s, p) ==> HasTable(tables, p)
  }

  ghost predicate MapOk(s: Sys, live: set<Block>) {
    && (forall v | v in s.mapping :: InUse(s, v))
    && (forall v | v in s.mapping :: Holds(live, s.mapping[v]))
    && (forall v, w | v in s.mapping && w in s.mapping && v != w :: s.mapping[v] != s.mapping[w])
  }

  ghost predicate SlabMapped(s: Sys, i: nat, f: nat)
    requires i < |s.caches|
  {
    f in Slabs(s.caches[i]) ==> forall p: nat | f <= p < f + s.caches[i].pagesPerSlab :: p in s.mapping
  }

  ghost predicate SysOk(s: Sys, lo: nat, tables: set<nat>, live: set<Block>) {
    && lo > 0 && RegionsOk(s.free, s.news, s.boots, lo)
    && CachesOk(s) && SlabsPlaced(s) && TablesPresent(s, tables) && MapOk(s, live)
    && (forall i: nat, f: nat | i < |s.caches| :: SlabMapped(s, i, f))
  }

  // ----- objects handed out stay handed out -----

  ghost predicate SameShape(c: Cache, c': Cache) {
    c'.size == c.size && c'.pagesPerSlab == c.pagesPerSlab && c'.perSlab == c.perSlab
  }

  /** Nothing that was handed out before is free again: no object, no region, no page; and no
      cache and no label disappears. */
  ghost predicate Extends(s: Sys, s': Sys) {
    && |s.caches| <= |s'.caches|
    && (forall i | 0 <= i < |s.caches| :: SameShape(s.caches[i], s'.caches[i]))
    && (forall i, o | 0 <= i < |s.caches| && IsUsed(s.caches[i], o) :: IsUsed(s'.caches[i], o))
    && (forall v | v in s.mapping :: v in s'.mapping && s'.mapping[v] == s.mapping[v])
    && (forall r | r in s.news :: r in s'.news) && s'.boots == s.boots
    && (forall r | r in s.labels :: r in s'.labels && s'.labels[r] == s.labels[r])
  }

  lemma ExtendsTrans(s: Sys, s1: Sys, s2: Sys)
    requires Extends(s, s1) && Extends(s1, s2)
    ensures Extends(s, s2)
  {
    forall i, o | 0 <= i < |s.caches| && IsUsed(s.caches[i], o) ensures IsUsed(s2.caches[i], o) {
      assert IsUsed(s1.caches[i], o);
    }
  }

  // ----- an object is handed out -----

  function WithCache(s: Sys, i: nat, c: Cache): (s': Sys)
    requires i < |s.caches|
  {
    s.(caches := s.caches[i := c])
  }

  lemma CachesOkWith(s: Sys, i: nat, c': Cache)
    requires CachesOk(s) && i < |s.caches| && CacheOk(c') && SameShape(s.caches[i], c')
    ensures CachesOk(WithCache(s, i, c'))
  {
    hide CacheOk;
  }

  lemma CachePlaced(s: Sys, i: nat, c': Cache)
    requires i < |s.caches| && SlabsPlaced(s) && SameShape(s.caches[i], c') && Slabs(c').Keys == Slabs(s.caches[i]).Keys
    requires forall j: nat, f: nat | j < |s.caches| :: SlabMapped(s, j, f)
    ensures SlabsPlaced(WithCache(s, i, c'))
    ensures forall j: nat, f: nat | j < |s.caches| :: SlabMapped(WithCache(s, i, c'), j, f)
  {
    var s' := WithCache(s, i, c');
    hide Slabs;
    forall j: nat, f: nat | j < |s.caches| ensures SlabPlaced(s', j, f) && SlabMapped(s', j, f) {
      assert SlabPlaced(s, j, f) && SlabMapped(s, j, f);
      assert f in Slabs(c') <==> f in Slabs(s.caches[i]);
    }
  }

  lemma CacheReplaced(s: Sys, lo: nat, tables: set<nat>, live: set<Block>, i: nat, c': Cache)
    requires SysOk(s, lo, tables, live) && i < |s.caches|
    requires CacheOk(c') && SameShape(s.caches[i], c') && Slabs(c').Keys == Slabs(s.caches[i]).Keys
    ensures SysOk(WithCache(s, i, c'), lo, tables, live)
  {
    hide Slabs, CacheOk, RegionsOk, SlabsPlaced, SlabMapped, MapOk, TablesPresent, CachesOk;
    CachePlaced(s, i, c');
    CachesOkWith(s, i, c');
    SameTables(s, WithCache(s, i, c'), tables);
    SameMap(s, WithCache(s, i, c'), live);
  }

  lemma SameTables(s: Sys, s': Sys, tables: set<nat>)
    requires TablesPresent(s, tables) && s'.free == s.free && s'.news == s.news && s'.boots == s.boots
    ensures TablesPresent(s', tables)
  {
    assert forall p :: InUse(s', p) == InUse(s, p);
  }

  lemma SameMap(s: Sys, s': Sys, live: set<Block>)
    requires MapOk(s, live) && s'.mapping == s.mapping && s'.news == s.news && s'.boots == s.boots
    ensures MapOk(s', live)
  {
    assert forall p :: InUse(s', p) == InUse(s, p);
  }

  lemma HandOutExtends(s: Sys, i: nat, c': Cache, o: Obj)
    requires i < |s.caches| && HandedOut(s.caches[i], c', o)
    ensures Extends(s, WithCache(s, i, c'))
    ensures !IsUsed(s.caches[i], o) && IsUsed(c', o)
  {
    HandedOutMoves(s.caches[i], c', o);
    assert IsUsed(c', o);
    hide IsUsed, CacheOk, Slabs;
    var s' := WithCache(s, i, c');
    forall j, x | 0 <= j < |s.caches| && IsUsed(s.caches[j], x) ensures IsUsed(s'.caches[j], x) {}
  }

  /** Handing out an object keeps everything consistent. */
  lemma HandOutKeeps(s: Sys, lo: nat, tables: set<nat>, live: set<Block>, i: nat, c': Cache, o: Obj)
    requires SysOk(s, lo, tables, live) && i < |s.caches| && HandedOut(s.caches[i], c', o)
    ensures SysOk(WithCache(s, i, c'), lo, tables, live)
  {
    HandedOutMoves(s.caches[i], c', o);
    hide SysOk, IsUsed, CacheOk, Slabs;
    CacheReplaced(s, lo, tables, live, i, c');
  }

  // ----- a region is taken -----

  /** No slab lies in the region and none of its pages is mapped. */
  ghost predicate Vacant(s: Sys, el: Vregion) {
    && (forall p: nat | el.Covers(p) :: p !in s.mapping)
    && (forall i | 0 <= i < |s.caches| :: el.first !in Slabs(s.caches[i]))
  }

  lemma RegionFacts(s: Sys, lo: nat, tables: set<nat>, live: set<Block>, i: nat, n: nat)
    requires SysOk(s, lo, tables, live) && i < |s.free| && n <= s.free[i].pages
    ensures Vacant(s, Vregion(s.free[i].first, n))
  {
    var r := s.free[i];
    var el := Vregion(r.first, n);
    forall p: nat | el.Covers(p) ensures p !in s.mapping { FreeIsNotInUse(s, lo, i, p); }
    forall j: nat | j < |s.caches| ensures el.first !in Slabs(s.caches[j]) {
      assert SlabPlaced(s, j, el.first);
      if el.first in Slabs(s.caches[j]) { NotFreeAndUsed(s, lo, i, Vregion(el.first, s.caches[j].pagesPerSlab)); }
    }
  }

  /** No region in use begins where a free one does. */
  lemma NotFreeAndUsed(s: Sys, lo: nat, i: nat, t: Vregion)
    requires RegionsOk(s.free, s.news, s.boots, lo) && i < |s.free| && t in s.news + s.boots && t.pages > 0
    ensures t.first != s.free[i].first
  {
    if s.free[i].pages > 0 && t.first == s.free[i].first {
      FreeIsNotInUse(s, lo, i, t.first);
      InUseFrom(s, t);
    }
  }

  lemma InUseFrom(s: Sys, r: Vregion)
    requires r in s.news + s.boots && r.pages > 0
    ensures InUse(s, r.first)
  {
    var k :| 0 <= k < |s.news + s.boots| && (s.news + s.boots)[k] == r;
    if k < |s.news| { assert s.news[k].Covers(r.first); } else { assert s.boots[k - |s.news|].Covers(r.first); }
  }

  lemma FreeIsNotInUse(s: Sys, lo: nat, i: nat, p: nat)
    requires RegionsOk(s.free, s.news, s.boots, lo) && i < |s.free| && s.free[i].Covers(p)
    ensures !InUse(s, p)
  {
    forall k | 0 <= k < |s.news| ensures !s.news[k].Covers(p) {
      assert s.free[i].Below(s.news[k]) || s.news[k].Below(s.free[i]);
    }
    forall k | 0 <= k < |s.boots| ensures !s.boots[k].Covers(p) {
      assert s.boots[k].Below(s.free[i]);
    }
  }

  /** Cutting a region from the free list keeps everything consistent. */
  lemma TakeRegionKeeps(s: Sys, lo: nat, tables: set<nat>, live: set<Block>, i: nat, n: nat, s': Sys)
    requires SysOk(s, lo, tables, live) && i < |s.free| && n <= s.free[i].pages
    requires s' == s.(free := Trimmed(s.free, i, n), news := s'.news)
    requires Cut(s.free, s.news, s.boots, i, n, s'.news) && RegionsOk(s'.free, s'.news, s.boots, lo)
    requires forall p :: Covered(s.free, p) <==> Covered(s'.free, p) || Vregion(s.free[i].first, n).Covers(p)
    requires forall p :: Covered(s'.news, p) <==> Covered(s.news, p) || Vregion(s.free[i].first, n).Covers(p)
    ensures SysOk(s', lo, tables, live)
  {
    hide Slabs, CachesOk, RegionsOk, Trimmed, Inserted, IsUsed, Covered;
    SameCachesOk(s, s');
    forall j: nat, f: nat | j < |s.caches| ensures SlabPlaced(s', j, f) && SlabMapped(s', j, f) {
      assert SlabPlaced(s, j, f) && SlabMapped(s, j, f);
    }
    assert forall p :: InUse(s, p) ==> InUse(s', p);
  }

  lemma SameCachesExtend(s: Sys, s': Sys)
    requires s'.caches == s.caches && s'.boots == s.boots && s'.labels == s.labels
    requires forall r | r in s.news :: r in s'.news
    requires forall v | v in s.mapping :: v in s'.mapping && s'.mapping[v] == s.mapping[v]
    ensures Extends(s, s')
  {}

  lemma StillVacant(s: Sys, s': Sys, el: Vregion)
    requires Vacant(s, el) && s'.caches == s.caches && s'.mapping == s.mapping
    ensures Vacant(s', el)
  {}

  // ----- a region is backed by physical pages -----

  /** The mapping once the pages of el go to the frames from ppn on. */
  ghost function Mapped(m: map<nat, nat>, el: Vregion, ppn: nat): map<nat, nat> {
    m + map p: nat | el.first <= p < el.End() :: FrameOf(el, ppn, p)
  }

  /** The frame of page p of a region that is mapped to consecutive frames from ppn on. */
  function FrameOf(el: Vregion, ppn: nat, p: nat): nat {
    if p >= el.first then ppn + (p - el.first) else 0
  }

  lemma MappedAt(m: map<nat, nat>, el: Vregion, ppn: nat, p: nat)
    ensures p in Mapped(m, el, ppn) <==> p in m || el.Covers(p)
    ensures p in Mapped(m, el, ppn) ==> Mapped(m, el, ppn)[p] == if el.Covers(p) then ppn + (p - el.first) else m[p]
  {}

  lemma MapKeeps(s: Sys, lo: nat, tables: set<nat>, live: set<Block>, el: Vregion, ppn: nat, live': set<Block>)
    requires SysOk(s, lo, tables, live) && el in s.news && Vacant(s, el) && NewFrames(live, live', ppn, el.pages)
    ensures SysOk(s.(mapping := Mapped(s.mapping, el, ppn)), lo, tables, live')
  {
    var s' := s.(mapping := Mapped(s.mapping, el, ppn));
    hide Slabs, RegionsOk, CachesOk, Holds, NewFrames;
    SameTables(s, s', tables);
    forall p: nat | el.Covers(p) ensures InUse(s', p) { assert Covered(s.news, p); }
    MapStaysOk(s, s', live, el, ppn, live');
    forall j: nat, f: nat | j < |s.caches| ensures SlabPlaced(s', j, f) && SlabMapped(s', j, f) {
      assert SlabPlaced(s, j, f) && SlabMapped(s, j, f);
    }
    assert CachesOk(s') by { SameCachesOk(s, s'); }
  }

  lemma SameCachesOk(s: Sys, s': Sys)
    requires CachesOk(s) && s'.caches == s.caches
    ensures CachesOk(s')
  {}

  lemma MapStaysOk(s: Sys, s': Sys, live: set<Block>, el: Vregion, ppn: nat, live': set<Block>)
    requires MapOk(s, live) && NewFrames(live, live', ppn, el.pages)
    requires s' == s.(mapping := Mapped(s.mapping, el, ppn))
    requires forall p: nat | el.Covers(p) :: InUse(s', p) && p !in s.mapping
    ensures MapOk(s', live')
  {
    hide Holds;
    assert forall p :: InUse(s', p) == InUse(s, p);
    forall v | v in s'.mapping ensures InUse(s', v) && Holds(live', s'.mapping[v]) {
      if el.Covers(v) { assert ppn <= s'.mapping[v] < ppn + el.pages; }
    }
    forall v, w | v in s'.mapping && w in s'.mapping && v != w ensures s'.mapping[v] != s'.mapping[w] {
      if el.Covers(v) && !el.Covers(w) { assert !Holds(live, s'.mapping[v]) && Holds(live, s.mapping[w]); }
      if !el.Covers(v) && el.Covers(w) { assert !Holds(live, s'.mapping[w]) && Holds(live, s.mapping[v]); }
    }
  }

  // ----- a slab is added -----

  /** A slab that may join cache i: backed, and placed where no other slab is. */
  ghost predicate MayJoin(s: Sys, i: nat, f: nat)
    requires i < |s.caches|
  {
    && Vregion(f, s.caches[i].pagesPerSlab) in s.news
    && (forall j | 0 <= j < |s.caches| :: f !in Slabs(s.caches[j]))
    && (forall p: nat | f <= p < f + s.caches[i].pagesPerSlab :: p in s.mapping)
  }

  lemma AddSlabPlaced(s: Sys, i: nat, c': Cache, sl: Slab)
    requires i < |s.caches| && Grown(s.caches[i], c', sl) && MayJoin(s, i, sl.first) && SlabsPlaced(s)
    requires forall j: nat, f: nat | j < |s.caches| :: SlabMapped(s, j, f)
    ensures SlabsPlaced(WithCache(s, i, c'))
    ensures forall j: nat, f: nat | j < |s.caches| :: SlabMapped(WithCache(s, i, c'), j, f)
  {
    var s' := WithCache(s, i, c');
    SlabsOfGrown(s.caches[i], c', sl);
    hide Slabs, Grown;
    forall j: nat, f: nat | j < |s.caches| ensures SlabPlaced(s', j, f) && SlabMapped(s', j, f) {
      OnePlaced(s, i, c', sl.first, j, f);
    }
    hide SlabPlaced, SlabMapped;
    forall j, k | 0 <= j < k < |s.caches| ensures Slabs(s'.caches[j]).Keys !! Slabs(s'.caches[k]).Keys {
      assert Slabs(s.caches[j]).Keys !! Slabs(s.caches[k]).Keys;
    }
  }

  lemma SlabsOfGrown(c: Cache, c': Cache, sl: Slab)
    requires Grown(c, c', sl)
    ensures SameShape(c, c') && Slabs(c').Keys == Slabs(c).Keys + {sl.first}
  {
    hide Slabs, CacheOk;
  }

  lemma OnePlaced(s: Sys, i: nat, c': Cache, first: nat, j: nat, f: nat)
    requires i < |s.caches| && j < |s.caches| && SameShape(s.caches[i], c') && MayJoin(s, i, first)
    requires Slabs(c').Keys == Slabs(s.caches[i]).Keys + {first} && SlabsPlaced(s) && SlabMapped(s, j, f)
    ensures SlabPlaced(WithCache(s, i, c'), j, f) && SlabMapped(WithCache(s, i, c'), j, f)
  {
    hide Slabs;
    assert SlabPlaced(s, j, f);
  }

  lemma AddSlabKeeps(s: Sys, lo: nat, tables: set<nat>, live: set<Block>, i: nat, c': Cache, sl: Slab)
    requires SysOk(s, lo, tables, live) && i < |s.caches| && Grown(s.caches[i], c', sl) && MayJoin(s, i, sl.first)
    ensures SysOk(WithCache(s, i, c'), lo, tables, live)
  {
    hide Slabs, CacheOk, RegionsOk, SlabsPlaced, SlabMapped, TablesPresent, MapOk, MayJoin, CachesOk;
    AddSlabPlaced(s, i, c', sl);
    CachesOkWith(s, i, c');
    SameTables(s, WithCache(s, i, c'), tables);
    SameMap(s, WithCache(s, i, c'), live);
  }

  lemma AllSlots(n: nat, k: nat)
    requires k < n
    ensures k in seq(n, i => i)
  {
    assert seq(n, i => i)[k] == k;
  }

  lemma AddSlabExtends(s: Sys, i: nat, c': Cache, sl: Slab)
    requires i < |s.caches| && Grown(s.caches[i], c', sl) && sl.first !in Slabs(s.caches[i])
    ensures Extends(s, WithCache(s, i, c'))
    ensures forall k, o | k == i && IsUsed(c', o) && sl.freeList == seq(c'.perSlab, n => n) :: IsUsed(s.caches[k], o)
  {
    var s' := WithCache(s, i, c');
    hide CacheOk;
    forall o | IsUsed(s.caches[i], o) ensures IsUsed(c', o) {}
    forall o | IsUsed(c', o) && sl.freeList == seq(c'.perSlab, n => n) ensures IsUsed(s.caches[i], o) {
      AllSlots(c'.perSlab, o.slot);
    }
  }

  // ----- a cache is added -----

  lemma EmptyCacheOk(objSize: nat, pages: nat)
    requires (if objSize > PTR_SIZE then objSize else PTR_SIZE) <= pages * PAGE
    ensures CacheOk(EmptyCache(objSize, pages)) && Slabs(EmptyCache(objSize, pages)) == map[]
  {}

  lemma CacheJoins(s: Sys, lo: nat, tables: set<nat>, live: set<Block>, c: Cache)
    requires SysOk(s, lo, tables, live) && CacheOk(c) && Slabs(c) == map[]
    ensures SysOk(s.(caches := s.caches + [c]), lo, tables, live) && Extends(s, s.(caches := s.caches + [c]))
  {
    var s' := s.(caches := s.caches + [c]);
    hide RegionsOk, TablesPresent, MapOk, CacheOk, Slabs;
    SameTables(s, s', tables);
    SameMap(s, s', live);
    forall i: nat, f: nat | i < |s'.caches| ensures SlabPlaced(s', i, f) && SlabMapped(s', i, f) {
      if i < |s.caches| { assert SlabPlaced(s, i, f) && SlabMapped(s, i, f); }
    }
  }

  // ----- what consistency means for objects and frames -----

  lemma {:induction false} ByPageOk(ss: seq<Slab>, c: Cache, status: Status, f: nat)
    requires SlabsOk(ss, c, status) && f in ByPage(ss)
    ensures SlabOk(ByPage(ss)[f], c) && ByPage(ss)[f].first == f
    decreases |ss|
  {
    HeadOk(ss, c, status);
    if f != ss[0].first {
      SlabsOkRest(ss, c, status);
      ByPageOk(ss[1..], c, status, f);
    }
  }

  lemma SlabIsOk(c: Cache, f: nat)
    requires CacheOk(c) && f in Slabs(c)
    ensures SlabOk(Slabs(c)[f], c) && Slabs(c)[f].first == f
  {
    if f in ByPage(c.fullSlabs) { ByPageOk(c.fullSlabs, c, FullSlab, f); }
    else if f in ByPage(c.partialSlabs) { ByPageOk(c.partialSlabs, c, PartialSlab, f); }
    else { ByPageOk(c.freeSlabs, c, FreeSlab, f); }
  }

  /** An object of cache i, handed out or not. */
  ghost predicate IsObject(s: Sys, i: nat, o: Obj)
    requires i < |s.caches|
  {
    IsFree(s.caches[i], o) || IsUsed(s.caches[i], o)
  }

  lemma ObjectFits(s: Sys, i: nat, o: Obj)
    requires CachesOk(s) && i < |s.caches| && IsObject(s, i, o)
    ensures o.first in Slabs(s.caches[i]) && o.size == s.caches[i].size > 0
    ensures s.caches[i].perSlab == Capacity(s.caches[i].pagesPerSlab, o.size) > o.slot
  {
    hide Capacity;
    SlabIsOk(s.caches[i], o.first);
  }

  lemma RegionsInUseApart(s: Sys, lo: nat, r: Vregion, t: Vregion)
    requires RegionsOk(s.free, s.news, s.boots, lo) && r in s.news + s.boots && t in s.news + s.boots && r != t
    ensures r.Below(t) || t.Below(r)
  {
    var used := s.news + s.boots;
    var a :| 0 <= a < |used| && used[a] == r;
    var b :| 0 <= b < |used| && used[b] == t;
    var n := |s.news|;
    if a < n && b < n { assert s.news[a] == r && s.news[b] == t; }
    else if a >= n && b >= n { assert s.boots[a - n] == r && s.boots[b - n] == t; }
    else if a < n { assert s.news[a] == r && s.boots[b - n] == t; }
    else { assert s.boots[a - n] == r && s.news[b] == t; }
  }

  /** Any two objects of any two caches, handed out or not, are the same object or share
      no byte. */
  lemma ObjectsNeverOverlap(s: Sys, lo: nat, tables: set<nat>, live: set<Block>, i: nat, o: Obj, j: nat, o': Obj)
    requires SysOk(s, lo, tables, live) && i < |s.caches| && j < |s.caches|
    requires IsObject(s, i, o) && IsObject(s, j, o') && o != o'
    ensures !o.Overlaps(o')
  {
    ObjectFits(s, i, o);
    ObjectFits(s, j, o');
    hide CachesOk, Capacity, Slabs, IsObject, TablesPresent, MapOk, Obj.Overlaps, RegionsOk;
    assert SlabPlaced(s, i, o.first) && SlabPlaced(s, j, o'.first);
    if o.first == o'.first {
      assert i == j;
      SlotsApart(o, o');
    } else {
      RegionsInUseApart(s, lo, Vregion(o.first, s.caches[i].pagesPerSlab), Vregion(o'.first, s.caches[j].pagesPerSlab));
      RegionsApart(o, s.caches[i].pagesPerSlab, o', s.caches[j].pagesPerSlab);
    }
  }

  /** Every page of every slab has a frame of its own, which the page allocator counts as
      in use. */
  lemma SlabFramesDistinct(s: Sys, lo: nat, tables: set<nat>, live: set<Block>, i: nat, f: nat, p: nat, j: nat,
          g: nat, q: nat)
    requires SysOk(s, lo, tables, live) && i < |s.caches| && j < |s.caches|
    requires f in Slabs(s.caches[i]) && f <= p < f + s.caches[i].pagesPerSlab
    requires g in Slabs(s.caches[j]) && g <= q < g + s.caches[j].pagesPerSlab
    ensures p in s.mapping && q in s.mapping && Holds(live, s.mapping[p])
    ensures p != q ==> s.mapping[p] != s.mapping[q]
  {
    assert SlabMapped(s, i, f) && SlabMapped(s, j, g);
  }
}
