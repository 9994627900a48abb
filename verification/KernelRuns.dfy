/** Whole runs: any requests, in any order, of any number of clients of the allocators. */
module KernelRuns {
  import opened Outcomes
  import opened FreeBlocks
  import opened Blocks
  import opened VirtualRegions
  import opened SlabCaches
  import opened KernelState
  import opened KernelMemory
  import opened PageTables
  import opened KernelPaging
  import P = Paging

  /** What a client may ask for. A client never holds cache_Slab (a static of slab.c) and
      has no cache but those on the list. */
  datatype Request =
    | Alloc(cache: nat)
    | Region(pages: nat)
    | Create(objSize: nat, pages: nat)

  datatype Handed = Handed(cache: nat, obj: Obj)

  // ----- objects -----

  ghost predicate InHand(s: Sys, objs: seq<Handed>) {
    forall k | 0 <= k < |objs| :: objs[k].cache < |s.caches| && IsUsed(s.caches[objs[k].cache], objs[k].obj)
  }

  ghost predicate NoOverlap(objs: seq<Handed>) {
    forall a, b | 0 <= a < b < |objs| :: !objs[b].obj.Overlaps(objs[a].obj)
  }

  lemma StillInHand(s: Sys, s': Sys, objs: seq<Handed>)
    requires InHand(s, objs) && Extends(s, s')
    ensures InHand(s', objs)
  {
    hide IsUsed;
  }

  lemma CachesShareNoSlab(s: Sys, i: nat, j: nat, o: Obj)
    requires SlabsPlaced(s) && i < |s.caches| && j < |s.caches| && i != j
    requires o.first in Slabs(s.caches[i])
    ensures o.first !in Slabs(s.caches[j])
  {
    hide Slabs;
    var a, b := if i < j then i else j, if i < j then j else i;
    assert Slabs(s.caches[a]).Keys !! Slabs(s.caches[b]).Keys;
  }

  /** An object handed out just now overlaps none that was handed out before. */
  lemma NewObjectApart(s: Sys, s': Sys, lo: nat, tables: set<nat>, live: set<Block>, i: nat, o: Obj, h: Handed)
    requires SysOk(s', lo, tables, live) && i < |s.caches| <= |s'.caches|
    requires !IsUsed(s.caches[i], o) && IsUsed(s'.caches[i], o)
    requires h.cache < |s.caches| && IsUsed(s.caches[h.cache], h.obj) && IsUsed(s'.caches[h.cache], h.obj)
    ensures !o.Overlaps(h.obj)
  {
    if i != h.cache { CachesShareNoSlab(s', i, h.cache, o); }
    assert o != h.obj;
    hide SysOk, IsUsed, IsFree, Obj.Overlaps;
    ObjectsNeverOverlap(s', lo, tables, live, i, o, h.cache, h.obj);
  }

  lemma OneMoreInHand(s: Sys, s': Sys, lo: nat, tables: set<nat>, live: set<Block>, objs: seq<Handed>, i: nat, o: Obj)
    requires SysOk(s', lo, tables, live) && Extends(s, s') && i < |s.caches|
    requires !IsUsed(s.caches[i], o) && IsUsed(s'.caches[i], o)
    requires InHand(s, objs) && NoOverlap(objs)
    ensures InHand(s', objs + [Handed(i, o)]) && NoOverlap(objs + [Handed(i, o)])
  {
    StillInHand(s, s', objs);
    MoreCaches(s, s');
    hide SysOk, Extends, IsUsed, Obj.Overlaps;
    forall a | 0 <= a < |objs| ensures !o.Overlaps(objs[a].obj) {
      InHandAt(s, objs, a);
      InHandAt(s', objs, a);
      NewObjectApart(s, s', lo, tables, live, i, o, objs[a]);
    }
    hide InHand, NoOverlap;
    JoinsHand(s', objs, Handed(i, o));
  }

  lemma MoreCaches(s: Sys, s': Sys)
    requires Extends(s, s')
    ensures |s.caches| <= |s'.caches|
  {}

  lemma InHandAt(s: Sys, objs: seq<Handed>, k: nat)
    requires InHand(s, objs) && k < |objs|
    ensures objs[k].cache < |s.caches| && IsUsed(s.caches[objs[k].cache], objs[k].obj)
  {}

  lemma JoinsHand(s: Sys, objs: seq<Handed>, h: Handed)
    requires InHand(s, objs) && NoOverlap(objs) && h.cache < |s.caches| && IsUsed(s.caches[h.cache], h.obj)
    requires forall a | 0 <= a < |objs| :: !h.obj.Overlaps(objs[a].obj)
    ensures InHand(s, objs + [h]) && NoOverlap(objs + [h])
  {
    hide IsUsed, Obj.Overlaps;
  }

  // ----- regions -----

  ghost predicate RegionsInUse(s: Sys, rs: seq<Vregion>) {
    forall k | 0 <= k < |rs| :: rs[k] in s.news
  }

  /** No page belongs to two regions. */
  ghost predicate NoPageTwice(rs: seq<Vregion>) {
    forall a, b, p: nat | 0 <= a < b < |rs| && rs[a].Covers(p) :: !rs[b].Covers(p)
  }

  lemma OneMoreRegion(s: Sys, s': Sys, rs: seq<Vregion>, el: Vregion)
    requires Extends(s, s') && el in s'.news && Unused(s, el) && RegionsInUse(s, rs) && NoPageTwice(rs)
    ensures RegionsInUse(s', rs + [el]) && NoPageTwice(rs + [el])
  {
    hide IsUsed;
    forall a, p: nat | 0 <= a < |rs| && rs[a].Covers(p) ensures !el.Covers(p) {
      var k :| 0 <= k < |s.news| && s.news[k] == rs[a];
      assert InUse(s, p);
    }
  }

  // ----- objects and regions -----

  /** Slab f of cache i has no page in r. */
  ghost predicate SlabApart(s: Sys, r: Vregion, i: nat, f: nat)
    requires i < |s.caches|
  {
    f in Slabs(s.caches[i]) ==> forall p: nat | r.Covers(p) :: !Vregion(f, s.caches[i].pagesPerSlab).Covers(p)
  }

  ghost predicate SlabsApart(s: Sys, rs: seq<Vregion>) {
    forall k, i: nat, f: nat | 0 <= k < |rs| && i < |s.caches| :: SlabApart(s, rs[k], i, f)
  }

  lemma SlabsStayApart(s: Sys, s': Sys, rs: seq<Vregion>)
    requires SlabsApart(s, rs) && RegionsInUse(s, rs) && Extends(s, s') && NewOnUnused(s, s')
    ensures SlabsApart(s', rs)
  {
    hide Slabs, IsUsed;
    forall k, i: nat, f: nat | 0 <= k < |rs| && i < |s'.caches| ensures SlabApart(s', rs[k], i, f) {
      assert OldOrOnUnused(s, s', i, f);
      if i < |s.caches| && f in Slabs(s.caches[i]) {
        assert SlabApart(s, rs[k], i, f) && SameShape(s.caches[i], s'.caches[i]);
      } else {
        RegionPagesInUse(s, rs[k]);
      }
    }
  }

  lemma RegionPagesInUse(s: Sys, r: Vregion)
    requires r in s.news
    ensures forall p: nat | r.Covers(p) :: InUse(s, p)
  {
    var k :| 0 <= k < |s.news| && s.news[k] == r;
  }

  lemma RegionApart(s: Sys, lo: nat, tables: set<nat>, live: set<Block>, el: Vregion, i: nat, f: nat)
    requires SysOk(s, lo, tables, live) && el in s.news && Vacant(s, el) && i < |s.caches|
    ensures SlabApart(s, el, i, f)
  {
    assert SlabPlaced(s, i, f);
    hide Slabs, RegionsOk, CachesOk, TablesPresent, MapOk;
    if f in Slabs(s.caches[i]) {
      assert f != el.first;
      RegionsInUseApart(s, lo, el, Vregion(f, s.caches[i].pagesPerSlab));
    }
  }

  lemma OneMoreApart(s: Sys, lo: nat, tables: set<nat>, live: set<Block>, rs: seq<Vregion>, el: Vregion)
    requires SysOk(s, lo, tables, live) && SlabsApart(s, rs) && el in s.news && Vacant(s, el)
    ensures SlabsApart(s, rs + [el])
  {
    hide SysOk, SlabApart, Vacant, Slabs;
    forall k, i: nat, f: nat | 0 <= k < |rs + [el]| && i < |s.caches| ensures SlabApart(s, (rs + [el])[k], i, f) {
      if k < |rs| { assert SlabApart(s, rs[k], i, f); } else { RegionApart(s, lo, tables, live, el, i, f); }
    }
  }

  /** No byte of an object lies in a region. */
  ghost predicate ObjectsOutside(objs: seq<Handed>, rs: seq<Vregion>) {
    forall a, k, x: int | 0 <= a < |objs| && 0 <= k < |rs| && ByteOf(objs[a].obj, x) :: !rs[k].Covers(x / PAGE)
  }

  lemma ByteOutside(s: Sys, lo: nat, tables: set<nat>, live: set<Block>, h: Handed, r: Vregion, x: int)
    requires SysOk(s, lo, tables, live) && h.cache < |s.caches| && IsUsed(s.caches[h.cache], h.obj) && ByteOf(h.obj, x)
    requires SlabApart(s, r, h.cache, h.obj.first)
    ensures !r.Covers(x / PAGE)
  {
    ObjectFits(s, h.cache, h.obj);
    hide Capacity, Obj.Addr, Slabs, IsUsed, CachesOk, ByteOf;
    BytePage(h.obj, s.caches[h.cache].pagesPerSlab, x);
  }

  lemma AllOutside(s: Sys, lo: nat, tables: set<nat>, live: set<Block>, objs: seq<Handed>, rs: seq<Vregion>)
    requires SysOk(s, lo, tables, live) && InHand(s, objs) && SlabsApart(s, rs)
    ensures ObjectsOutside(objs, rs)
  {
    hide SysOk, IsUsed, ByteOf, SlabApart;
    forall a, k, x: int | 0 <= a < |objs| && 0 <= k < |rs| && ByteOf(objs[a].obj, x) ensures !rs[k].Covers(x / PAGE) {
      assert SlabApart(s, rs[k], objs[a].cache, objs[a].obj.first);
      ByteOutside(s, lo, tables, live, objs[a], rs[k], x);
    }
  }

  // ----- physical memory -----

  /** On the hardware, o's byte at x is somewhere, and not in one of these frames. */
  ghost predicate ByteSomewhere(o: Obj, m: Mem, cr3: P.word, frames: set<nat>, x: int) {
    ByteOf(o, x) ==>
      0 <= x < P.PAGES * P.PAGE && P.Walk(m, cr3, x).Some?
      && forall f | f in frames :: f != P.Walk(m, cr3, x).value / P.PAGE
  }

  /** On the hardware, the bytes of o and o' at x and y are in different places. */
  ghost predicate BytesElsewhere(o: Obj, o': Obj, m: Mem, cr3: P.word, x: P.word, y: P.word) {
    ByteOf(o, x) && ByteOf(o', y) ==> P.Walk(m, cr3, x) != P.Walk(m, cr3, y)
  }

  /** Every byte of every object is in physical memory, outside these frames, and no two
      objects share one. */
  ghost predicate NothingShared(objs: seq<Handed>, m: Mem, cr3: P.word, frames: set<nat>) {
    && (forall a, x: int | 0 <= a < |objs| :: ByteSomewhere(objs[a].obj, m, cr3, frames, x))
    && (forall a, b, x: P.word, y: P.word | 0 <= a < b < |objs| ::
        BytesElsewhere(objs[a].obj, objs[b].obj, m, cr3, x, y))
  }

  lemma BytesAreBacked(s: Sys, lo: nat, tables: set<nat>, live: set<Block>, m: Mem, cr3: P.word, frames: set<nat>,
                       h: Handed, x: int)
    requires SysOk(s, lo, tables, live) && Shown(s.mapping, m, cr3) && Untouched(frames, s.mapping, live)
    requires h.cache < |s.caches| && IsUsed(s.caches[h.cache], h.obj)
    ensures ByteSomewhere(h.obj, m, cr3, frames, x)
  {
    hide SysOk, Shown, IsUsed, ByteOf, P.Walk;
    if ByteOf(h.obj, x) {
      ByteIsBacked(s, lo, tables, live, m, cr3, h.cache, h.obj, x);
      FrameOfByte(s.mapping[x / P.PAGE], x % P.PAGE);
    }
  }

  lemma FrameOfByte(f: nat, x: int)
    requires 0 <= x < P.PAGE
    ensures (f * P.PAGE + x) / P.PAGE == f
  {}

  lemma BytesAreApart(s: Sys, lo: nat, tables: set<nat>, live: set<Block>, m: Mem, cr3: P.word, h: Handed, x: P.word,
                      g: Handed, y: P.word)
    requires SysOk(s, lo, tables, live) && Shown(s.mapping, m, cr3)
    requires h.cache < |s.caches| && IsUsed(s.caches[h.cache], h.obj) && ByteOf(h.obj, x)
    requires g.cache < |s.caches| && IsUsed(s.caches[g.cache], g.obj) && ByteOf(g.obj, y) && !g.obj.Overlaps(h.obj)
    ensures P.Walk(m, cr3, x) != P.Walk(m, cr3, y)
  {
    hide SysOk, Shown, IsUsed, ByteOf, Obj.Overlaps, P.Walk;
    OverlapsItself(h.obj, x);
    NoPhysicalSharing(s, lo, tables, live, m, cr3, h.cache, h.obj, x, g.cache, g.obj, y);
  }

  lemma HandIsBacked(s: Sys, lo: nat, tables: set<nat>, live: set<Block>, m: Mem, cr3: P.word, frames: set<nat>,
                     objs: seq<Handed>)
    requires SysOk(s, lo, tables, live) && Shown(s.mapping, m, cr3) && Untouched(frames, s.mapping, live)
    requires InHand(s, objs) && NoOverlap(objs)
    ensures NothingShared(objs, m, cr3, frames)
  {
    hide SysOk, Shown, Untouched, IsUsed, Obj.Overlaps, P.Walk, ByteOf, ByteSomewhere;
    forall a, x: int | 0 <= a < |objs| ensures ByteSomewhere(objs[a].obj, m, cr3, frames, x) {
      BytesAreBacked(s, lo, tables, live, m, cr3, frames, objs[a], x);
    }
    forall a, b, x: P.word, y: P.word | 0 <= a < b < |objs|
      ensures BytesElsewhere(objs[a].obj, objs[b].obj, m, cr3, x, y)
    {
      if ByteOf(objs[a].obj, x) && ByteOf(objs[b].obj, y) {
        BytesAreApart(s, lo, tables, live, m, cr3, objs[a], x, objs[b], y);
      }
    }
  }

  lemma OverlapsItself(o: Obj, x: int)
    requires ByteOf(o, x)
    ensures o.Overlaps(o)
  {
    hide Obj.Addr;
  }

  // ----- what lies behind the kernel's own pages -----

  /** Boot's regions, and everything from lo on, lie behind the first own pages of kernel space. */
  ghost predicate BootsBehind(s: Sys, lo: nat, own: nat) {
    lo >= 0xC0000 + own && forall i | 0 <= i < |s.boots| :: s.boots[i].first >= 0xC0000 + own
  }

  /** No object and no region has a byte in the first own pages of kernel space. */
  ghost predicate OutsideOwn(objs: seq<Handed>, regions: seq<Vregion>, own: nat) {
    && (forall a, x: int | 0 <= a < |objs| && ByteOf(objs[a].obj, x) :: x >= 0xC000_0000 + own * 4096)
    && (forall k | 0 <= k < |regions| :: regions[k].first >= 0xC0000 + own)
  }

  lemma RegionBehind(s: Sys, lo: nat, tables: set<nat>, live: set<Block>, own: nat, r: Vregion)
    requires SysOk(s, lo, tables, live) && BootsBehind(s, lo, own) && r in s.news + s.boots
    ensures r.first >= 0xC0000 + own
  {
    hide CachesOk, SlabsPlaced, TablesPresent, MapOk, SlabMapped;
    var k :| 0 <= k < |s.news + s.boots| && (s.news + s.boots)[k] == r;
    if k < |s.news| { assert s.news[k] == r; } else { assert s.boots[k - |s.news|] == r; }
  }

  lemma RegionOfObject(s: Sys, lo: nat, tables: set<nat>, live: set<Block>, c: nat, o: Obj)
    requires SysOk(s, lo, tables, live) && c < |s.caches| && IsUsed(s.caches[c], o)
    ensures Vregion(o.first, s.caches[c].pagesPerSlab) in s.news + s.boots
  {
    hide CachesOk, TablesPresent, MapOk, SlabMapped, RegionsOk;
    assert SlabPlaced(s, c, o.first);
  }

  lemma BytesFollow(o: Obj, own: nat, x: int)
    requires ByteOf(o, x) && o.first >= 0xC0000 + own
    ensures x >= 0xC000_0000 + own * 4096
  {}

  lemma ObjectBehind(s: Sys, lo: nat, tables: set<nat>, live: set<Block>, own: nat, h: Handed, x: int)
    requires SysOk(s, lo, tables, live) && BootsBehind(s, lo, own)
    requires h.cache < |s.caches| && IsUsed(s.caches[h.cache], h.obj) && ByteOf(h.obj, x)
    ensures x >= 0xC000_0000 + own * 4096
  {
    hide SysOk, BootsBehind, IsUsed, ByteOf;
    RegionOfObject(s, lo, tables, live, h.cache, h.obj);
    RegionBehind(s, lo, tables, live, own, Vregion(h.obj.first, s.caches[h.cache].pagesPerSlab));
    BytesFollow(h.obj, own, x);
  }

  lemma AllBehind(s: Sys, lo: nat, tables: set<nat>, live: set<Block>, own: nat, objs: seq<Handed>, rs: seq<Vregion>)
    requires SysOk(s, lo, tables, live) && BootsBehind(s, lo, own) && InHand(s, objs) && RegionsInUse(s, rs)
    ensures OutsideOwn(objs, rs, own)
  {
    hide SysOk, BootsBehind, IsUsed, ByteOf;
    forall a, x: int | 0 <= a < |objs| && ByteOf(objs[a].obj, x) ensures x >= 0xC000_0000 + own * 4096 {
      ObjectBehind(s, lo, tables, live, own, objs[a], x);
    }
    forall k | 0 <= k < |rs| ensures rs[k].first >= 0xC0000 + own {
      RegionBehind(s, lo, tables, live, own, rs[k]);
    }
  }

  lemma KernelBehind(k: Kernel)
    requires k.Valid()
    ensures BootsBehind(k.View(), k.lo, k.own) && OwnShown(k.machine.mem, k.machine.cr3, k.own)
  {
    hide SysOk, Kernel.Named, Kernel.PhysOk, Agrees, Untouched, OwnShown;
  }

  // ----- what sizes were asked for -----

  /** The sizes of the caches that were created, in order: those of which a slab holds an object. */
  ghost function SizesAsked(requests: seq<Request>): seq<nat>
    decreases |requests|
  {
    if requests == [] then []
    else
      var last := requests[|requests| - 1];
      SizesAsked(requests[..|requests| - 1])
      + if last.Create? && last.pages > 0 && last.objSize <= last.pages * 4096 then [last.objSize] else []
  }

  /** The caches behind the first n are made for objects of these sizes. */
  ghost predicate CachesFit(s: Sys, n: nat, sizes: seq<nat>) {
    |s.caches| == n + |sizes| && forall j | 0 <= j < |sizes| :: s.caches[n + j].size >= sizes[j]
  }

  /** Every object is as large as whoever created its cache asked for. */
  ghost predicate ObjectsFit(objs: seq<Handed>, n: nat, sizes: seq<nat>) {
    forall a | 0 <= a < |objs| && objs[a].cache >= n ::
      objs[a].cache - n < |sizes| && objs[a].obj.size >= sizes[objs[a].cache - n]
  }

  lemma HandFits(s: Sys, objs: seq<Handed>, n: nat, sizes: seq<nat>)
    requires InHand(s, objs) && CachesFit(s, n, sizes)
    ensures ObjectsFit(objs, n, sizes)
  {
    hide Slabs;
    forall a | 0 <= a < |objs| && objs[a].cache >= n
      ensures objs[a].cache - n < |sizes| && objs[a].obj.size >= sizes[objs[a].cache - n]
    {
      assert s.caches[n + (objs[a].cache - n)] == s.caches[objs[a].cache];
    }
  }

  lemma OneMoreFits(requests: seq<Request>, k: nat, n: nat, s: Sys, s': Sys, objs: seq<Handed>, objs': seq<Handed>,
                    regions: seq<Vregion>, regions': seq<Vregion>)
    requires k < |requests| && CachesFit(s, n, SizesAsked(requests[..k])) && Extends(s, s')
    requires Granted(requests[k], s, s', objs, objs', regions, regions')
    ensures CachesFit(s', n, SizesAsked(requests[..k + 1]))
  {
    assert requests[..k + 1][..k] == requests[..k];
    hide IsUsed;
    var sizes := SizesAsked(requests[..k]);
    forall j | 0 <= j < |sizes| ensures s'.caches[n + j].size >= sizes[j] {
      assert SameShape(s.caches[n + j], s'.caches[n + j]);
    }
  }

  lemma NoneAsked(s: Sys, requests: seq<Request>)
    requires requests == []
    ensures CachesFit(s, |s.caches|, SizesAsked(requests))
  {}

  // ----- runs -----

  /** How many caches there are after some requests were served. */
  ghost function CachesAfter(requests: seq<Request>, n: nat): (m: nat)
    ensures m >= n
  {
    n + |SizesAsked(requests)|
  }

  /** The caches that objects were asked of, in order. */
  ghost function Asked(requests: seq<Request>, n: nat): seq<nat>
    decreases |requests|
  {
    if requests == [] then []
    else
      var init, last := requests[..|requests| - 1], requests[|requests| - 1];
      Asked(init, n)
      + if last.Alloc? && last.cache != SLAB && last.cache < CachesAfter(init, n) then [last.cache] else []
  }

  ghost function CachesOf(objs: seq<Handed>): seq<nat> {
    seq(|objs|, k requires 0 <= k < |objs| => objs[k].cache)
  }

  lemma OneMoreAsked(requests: seq<Request>, k: nat, n: nat)
    requires k < |requests|
    ensures CachesAfter(requests[..k + 1], n) == CachesAfter(requests[..k], n)
      + if requests[k].Create? && requests[k].pages > 0 && requests[k].objSize <= requests[k].pages * 4096 then 1 else 0
    ensures Asked(requests[..k + 1], n) == Asked(requests[..k], n)
      + if requests[k].Alloc? && requests[k].cache != SLAB && requests[k].cache < CachesAfter(requests[..k], n)
        then [requests[k].cache] else []
  {
    assert requests[..k + 1][..k] == requests[..k];
  }

  /** What holds between the requests of a run. */
  ghost predicate RunOk(s: Sys, objs: seq<Handed>, regions: seq<Vregion>) {
    && Reserved(s) && InHand(s, objs) && NoOverlap(objs)
    && RegionsInUse(s, regions) && NoPageTwice(regions) && SlabsApart(s, regions)
  }

  lemma ObjectStep(s: Sys, s': Sys, lo: nat, tables: set<nat>, live: set<Block>, objs: seq<Handed>,
          regions: seq<Vregion>, i: nat, o: Obj)
    requires SysOk(s', lo, tables, live) && RunOk(s, objs, regions) && ObjectAllocated(s, s', i, o) && i != SLAB
    ensures RunOk(s', objs + [Handed(i, o)], regions)
  {
    ClientAllocated(s, s', i, o);
    RegionsStay(s, s', regions);
    hide SysOk, Extends, ObjectAllocated, IsUsed, InHand, NoOverlap, NoPageTwice, SlabsApart, NewOnUnused, OnlyNew;
    SlabsStayApart(s, s', regions);
    OneMoreInHand(s, s', lo, tables, live, objs, i, o);
  }

  lemma RegionsStay(s: Sys, s': Sys, regions: seq<Vregion>)
    requires Extends(s, s') && RegionsInUse(s, regions)
    ensures RegionsInUse(s', regions)
  {}

  lemma RegionStep(s: Sys, s': Sys, lo: nat, tables: set<nat>, live: set<Block>, objs: seq<Handed>,
                   regions: seq<Vregion>,
          n: nat, el: Vregion)
    requires SysOk(s', lo, tables, live) && RunOk(s, objs, regions) && RegionAllocated(s, s', n, el)
    ensures RunOk(s', objs, regions + [el])
  {
    hide SysOk, Extends, IsUsed, NoOverlap, NoPageTwice, RegionsInUse, InHand, RegionTaken, Vacant, Unused, SlabsApart,
         NewOnUnused;
    StillInHand(s, s', objs);
    OneMoreRegion(s, s', regions, el);
    SlabsStayApart(s, s', regions);
    OneMoreApart(s', lo, tables, live, regions, el);
  }

  lemma OtherStep(s: Sys, s': Sys, objs: seq<Handed>, regions: seq<Vregion>)
    requires RunOk(s, objs, regions) && Extends(s, s') && NewOnUnused(s, s') && Reserved(s')
    ensures RunOk(s', objs, regions)
  {
    hide Extends, IsUsed, NoOverlap, NoPageTwice, RegionsInUse, InHand, SlabsApart, NewOnUnused;
    StillInHand(s, s', objs);
    RegionsStay(s, s', regions);
    SlabsStayApart(s, s', regions);
  }

  /** The most pages a request may need at once, apart from the single pages of the reserves. */
  ghost function PagesFor(s: Sys, request: Request): nat {
    match request
    case Alloc(i) => if i < |s.caches| then s.caches[i].pagesPerSlab else 1
    case Region(n) => n
    case Create(_, _) => if |s.caches| > OBJS then s.caches[OBJS].pagesPerSlab else 1
  }

  /** Why a request made in state s may halt the kernel. */
  ghost predicate MayHalt(k: Kernel, s: Sys, request: Request, c: Cause)
    reads k, k.phys, k.phys.dscrs
  {
    || k.Exhausted(c, 1)
    || (k.Exhausted(c, PagesFor(s, request)) && (request.Region? ==> c.NoRegion?))
    || (c.Misuse? && request.Create? && request.objSize == 0)
  }

  /** The answer to a request that did not halt the kernel. */
  ghost predicate Granted(request: Request, s: Sys, s': Sys, objs: seq<Handed>, objs': seq<Handed>,
                          regions: seq<Vregion>, regions': seq<Vregion>) {
    match request
    case Alloc(i) =>
      && regions' == regions && |s'.caches| == |s.caches|
      && if i != SLAB && i < |s.caches| then |objs'| == |objs| + 1 && objs' == objs + [Handed(i, objs'[|objs|].obj)]
         else objs' == objs
    case Region(n) =>
      && objs' == objs && |s'.caches| == |s.caches|
      && (regions' == regions || (|regions'| == |regions| + 1
                                  && regions' == regions + [Vregion(regions'[|regions|].first, n)]))
    case Create(objSize, pages) =>
      && objs' == objs && regions' == regions
      && if pages > 0 && objSize <= pages * 4096 then
           |s'.caches| == |s.caches| + 1 && s'.caches[|s.caches|].size >= objSize
         else |s'.caches| == |s.caches|
  }

  /** objs_cache_alloc for a client. */
  method ServeAlloc(k: Kernel, i: nat, objs: seq<Handed>, ghost regions: seq<Vregion>)
    returns (objs': seq<Handed>, halt: Option<Cause>)
    requires k.Valid() && RunOk(k.View(), objs, regions) && i != SLAB && i < |k.caches|
    modifies k, k.machine, k.phys, k.phys.dscrs, k.phys.freeHeads, k.phys.usedHeads
    ensures halt.None? ==>
              && k.Valid() && RunOk(k.View(), objs', regions) && Extends(old(k.View()), k.View())
              && Granted(Alloc(i), old(k.View()), k.View(), objs, objs', regions, regions)
    ensures halt.Some? ==> objs' == objs && MayHalt(k, old(k.View()), Alloc(i), halt.value)
  {
    ghost var s := k.View();
    hide SysOk, Kernel.PhysOk, Kernel.TablesOk, NewOnUnused, RunOk, ObjectAllocated, Extends, Granted, Kernel.Exhausted;
    RunIsReserved(s, objs, regions);
    var o := k.ObjsCacheAlloc(i);
    if o.Halted? {
      return objs, Some(o.cause);
    }
    ObjectGranted(s, k.View(), i, o.value, objs, regions);
    ObjectStep(s, k.View(), k.lo, k.tables, k.phys.Live(), objs, regions, i, o.value);
    return objs + [Handed(i, o.value)], None;
  }

  /** vregion_alloc for a client. */
  method ServeRegion(k: Kernel, n: nat, ghost objs: seq<Handed>, regions: seq<Vregion>)
    returns (regions': seq<Vregion>, halt: Option<Cause>)
    requires k.Valid() && RunOk(k.View(), objs, regions)
    modifies k, k.machine, k.phys, k.phys.dscrs, k.phys.freeHeads, k.phys.usedHeads
    ensures halt.None? ==>
              && k.Valid() && RunOk(k.View(), objs, regions') && Extends(old(k.View()), k.View())
              && Granted(Region(n), old(k.View()), k.View(), objs, objs, regions, regions')
              && (regions' == regions ==> k.Exhausted(NoRegion, n))
    ensures halt.Some? ==> regions' == regions && MayHalt(k, old(k.View()), Region(n), halt.value)
  {
    ghost var s := k.View();
    hide SysOk, Kernel.PhysOk, Kernel.TablesOk, NewOnUnused, RunOk, RegionAllocated, Extends, Granted, Kernel.Exhausted;
    RunIsReserved(s, objs, regions);
    var r := k.VregionAlloc(n);
    if r.Halted? {
      return regions, Some(r.cause);
    }
    if r.value.None? {
      OnwardExtends(s, k.View(), n, objs, regions);
      OtherStep(s, k.View(), objs, regions);
      return regions, None;
    }
    RegionGranted(s, k.View(), n, r.value.value, objs, regions);
    RegionStep(s, k.View(), k.lo, k.tables, k.phys.Live(), objs, regions, n, r.value.value);
    return regions + [r.value.value], None;
  }

  /** One request. A client with no such cache, or with cache_Slab, asks for nothing. */
  method ServeOne(k: Kernel, request: Request, objs: seq<Handed>, regions: seq<Vregion>)
    returns (objs': seq<Handed>, regions': seq<Vregion>, halt: Option<Cause>)
    requires k.Valid() && RunOk(k.View(), objs, regions)
    modifies k, k.machine, k.phys, k.phys.dscrs, k.phys.freeHeads, k.phys.usedHeads
    ensures halt.None? ==>
              && k.Valid() && RunOk(k.View(), objs', regions') && Extends(old(k.View()), k.View())
              && Granted(request, old(k.View()), k.View(), objs, objs', regions, regions')
              && (request.Region? && regions' == regions ==> k.Exhausted(NoRegion, request.pages))
    ensures halt.Some? ==> objs' == objs && regions' == regions && MayHalt(k, old(k.View()), request, halt.value)
  {
    ghost var s := k.View();
    hide SysOk, Kernel.PhysOk, Kernel.TablesOk, NewOnUnused, RunOk, Extends, EmptyCache, MayHalt, Granted;
    objs', regions', halt := objs, regions, None;
    match request {
      case Alloc(i) =>
        if i != SLAB && i < |k.caches| {
          objs', halt := ServeAlloc(k, i, objs, regions);
        } else {
          NothingGranted(s, i, objs, regions);
        }
      case Region(n) =>
        regions', halt := ServeRegion(k, n, objs, regions);
      case Create(objSize, pages) =>
        halt := ServeCreate(k, objSize, pages, objs, regions);
    }
  }

  lemma NothingGranted(s: Sys, i: nat, objs: seq<Handed>, regions: seq<Vregion>)
    requires i == SLAB || i >= |s.caches|
    ensures Granted(Alloc(i), s, s, objs, objs, regions, regions) && Extends(s, s)
  {}

  /** objs_cache_create for a client. */
  method ServeCreate(k: Kernel, objSize: nat, pages: nat, ghost objs: seq<Handed>, ghost regions: seq<Vregion>)
    returns (halt: Option<Cause>)
    requires k.Valid() && RunOk(k.View(), objs, regions)
    modifies k, k.machine, k.phys, k.phys.dscrs, k.phys.freeHeads, k.phys.usedHeads
    ensures halt.None? ==>
              && k.Valid() && RunOk(k.View(), objs, regions) && Extends(old(k.View()), k.View())
              && Granted(Create(objSize, pages), old(k.View()), k.View(), objs, objs, regions, regions)
    ensures halt.Some? ==> MayHalt(k, old(k.View()), Create(objSize, pages), halt.value)
  {
    ghost var s := k.View();
    hide SysOk, Kernel.PhysOk, Kernel.TablesOk, RunOk, Extends, CacheCreated, Granted, Kernel.Exhausted, MayHalt,
         Reserved;
    RunIsReserved(s, objs, regions);
    var r := k.CacheCreate(objSize, pages);
    if r.Halted? {
      CreateMayHalt(k, s, objSize, pages, r.cause);
      return Some(r.cause);
    }
    CacheStep(s, k.View(), objSize, pages, r.value, objs, regions);
    return None;
  }

  lemma CreateMayHalt(k: Kernel, s: Sys, objSize: nat, pages: nat, c: Cause)
    requires |s.caches| > VREG
    requires k.Exhausted(c, 1) || k.Exhausted(c, s.caches[OBJS].pagesPerSlab) || (c.Misuse? && objSize == 0)
    ensures MayHalt(k, s, Create(objSize, pages), c)
  {
    hide Kernel.Exhausted;
  }

  lemma RunIsReserved(s: Sys, objs: seq<Handed>, regions: seq<Vregion>)
    requires RunOk(s, objs, regions)
    ensures Reserved(s)
  {}

  lemma RunBegins(s: Sys)
    requires Reserved(s)
    ensures RunOk(s, [], [])
  {}

  lemma RunFacts(s: Sys, lo: nat, tables: set<nat>, live: set<Block>, objs: seq<Handed>, regions: seq<Vregion>)
    requires SysOk(s, lo, tables, live) && RunOk(s, objs, regions)
    ensures Reserved(s) && InHand(s, objs) && RegionsInUse(s, regions) && NoOverlap(objs) && NoPageTwice(regions)
    ensures ObjectsOutside(objs, regions)
  {
    hide SysOk, InHand, NoOverlap, SlabsApart, ObjectsOutside;
    AllOutside(s, lo, tables, live, objs, regions);
  }

  lemma ObjectGranted(s: Sys, s': Sys, i: nat, o: Obj, objs: seq<Handed>, regions: seq<Vregion>)
    requires ObjectAllocated(s, s', i, o) && i != SLAB
    ensures Extends(s, s') && Granted(Alloc(i), s, s', objs, objs + [Handed(i, o)], regions, regions)
  {
    hide Extends, IsUsed, OnlyNew, HandedFrom;
    ClientAllocated(s, s', i, o);
  }

  lemma RegionGranted(s: Sys, s': Sys, n: nat, el: Vregion, objs: seq<Handed>, regions: seq<Vregion>)
    requires RegionAllocated(s, s', n, el)
    ensures Extends(s, s') && Granted(Region(n), s, s', objs, objs, regions, regions + [el])
  {
    hide Extends, RegionTaken, Vacant, Unused, NewOnUnused;
  }

  lemma OnwardExtends(s: Sys, s': Sys, n: nat, objs: seq<Handed>, regions: seq<Vregion>)
    requires Onward(s, s')
    ensures Extends(s, s') && NewOnUnused(s, s') && Granted(Region(n), s, s', objs, objs, regions, regions)
  {
    hide Extends, NewOnUnused;
  }

  lemma CacheStep(s: Sys, s': Sys, objSize: nat, pages: nat, r: Option<nat>, objs: seq<Handed>, regions: seq<Vregion>)
    requires RunOk(s, objs, regions) && CacheCreated(s, s', objSize, pages, r)
    ensures RunOk(s', objs, regions) && Extends(s, s')
    ensures Granted(Create(objSize, pages), s, s', objs, objs, regions, regions)
  {
    if pages > 0 && objSize <= pages * 4096 { MadeSize(s'.caches[|s.caches|], objSize, pages); }
    hide RunOk, Extends, NewOnUnused, Reserved, MadeFor;
    OtherStep(s, s', objs, regions);
  }

  lemma MadeSize(c: Cache, objSize: nat, pages: nat)
    requires MadeFor(c, objSize, pages)
    ensures c.size >= objSize
  {}

  /** The objects handed out are those asked for, from the caches they were asked of. */
  ghost predicate Answered(served: seq<Request>, n: nat, objs: seq<Handed>, caches: nat) {
    CachesOf(objs) == Asked(served, n) && caches == CachesAfter(served, n)
  }

  lemma NothingAsked(served: seq<Request>, n: nat)
    requires served == []
    ensures Answered(served, n, [], n)
  {}

  lemma OneMoreAnswered(requests: seq<Request>, k: nat, n: nat, s: Sys, s': Sys, objs: seq<Handed>, objs': seq<Handed>,
                        regions: seq<Vregion>, regions': seq<Vregion>)
    requires k < |requests| && Answered(requests[..k], n, objs, |s.caches|)
    requires Granted(requests[k], s, s', objs, objs', regions, regions')
    ensures Answered(requests[..k + 1], n, objs', |s'.caches|)
  {
    OneMoreAsked(requests, k, n);
    hide Asked, CachesAfter;
    if |objs'| == |objs| + 1 { assert CachesOf(objs') == CachesOf(objs) + [objs'[|objs|].cache]; }
  }

  lemma RunIsBacked(k: Kernel, objs: seq<Handed>)
    requires k.Valid() && InHand(k.View(), objs) && NoOverlap(objs)
    ensures NothingShared(objs, k.machine.mem, k.machine.cr3, k.tableFrames)
    ensures HoldTables(k.tableFrames, k.machine.mem, k.machine.cr3)
  {
    hide SysOk, Shown, Untouched, InHand, NoOverlap, NothingShared, PagesOk;
    HandIsBacked(k.View(), k.lo, k.tables, k.phys.Live(), k.machine.mem, k.machine.cr3, k.tableFrames, objs);
  }

  /** What holds of the objects and regions in hand between two requests. */
  lemma HandFacts(k: Kernel, objs: seq<Handed>, regions: seq<Vregion>, n: nat, sizes: seq<nat>)
    requires k.Valid() && RunOk(k.View(), objs, regions) && CachesFit(k.View(), n, sizes)
    ensures Reserved(k.View()) && InHand(k.View(), objs) && RegionsInUse(k.View(), regions)
    ensures NoOverlap(objs) && NoPageTwice(regions) && ObjectsOutside(objs, regions)
    ensures OutsideOwn(objs, regions, k.own) && OwnShown(k.machine.mem, k.machine.cr3, k.own)
    ensures ObjectsFit(objs, n, sizes)
  {
    hide SysOk, Kernel.PhysOk, Kernel.TablesOk, Kernel.Named, RunOk, InHand, NoOverlap, NoPageTwice, ObjectsOutside,
         RegionsInUse, OutsideOwn, OwnShown, BootsBehind, ObjectsFit, CachesFit;
    RunFacts(k.View(), k.lo, k.tables, k.phys.Live(), objs, regions);
    KernelBehind(k);
    AllBehind(k.View(), k.lo, k.tables, k.phys.Live(), k.own, objs, regions);
    HandFits(k.View(), objs, n, sizes);
  }

  /** Serves requests until one halts the kernel. The two reserves hold before every
      request (before is the state before the last one), so none halts but for lack of
      memory, or for a cache of objects of size zero. No two objects handed out share a byte,
      virtual or physical, no two regions a page, and no object has a byte in a region or
      where the page tables are. Objects and regions lie behind the first megabyte, the image
      and the page descriptors, which stay where they are, and every object is as large as the
      creator of its cache asked for. */
  method Serve(k: Kernel, requests: seq<Request>)
    returns (objs: seq<Handed>, regions: seq<Vregion>, done: nat, halt: Option<Cause>, ghost before: Sys)
    requires k.Valid() && Reserved(k.View())
    modifies k, k.machine, k.phys, k.phys.dscrs, k.phys.freeHeads, k.phys.usedHeads
    ensures done <= |requests| && (halt.None? <==> done == |requests|)
    ensures halt.None? ==> k.Valid() && Reserved(k.View()) && InHand(k.View(), objs) && RegionsInUse(k.View(), regions)
    ensures halt.None? ==> NothingShared(objs, k.machine.mem, k.machine.cr3, k.tableFrames)
                           && HoldTables(k.tableFrames, k.machine.mem, k.machine.cr3)
    ensures Reserved(before) && Extends(old(k.View()), before)
    ensures halt.Some? ==> MayHalt(k, before, requests[done], halt.value)
    ensures NoOverlap(objs) && NoPageTwice(regions) && ObjectsOutside(objs, regions)
    ensures OutsideOwn(objs, regions, k.own)
    ensures halt.None? ==> OwnShown(k.machine.mem, k.machine.cr3, k.own)
    ensures ObjectsFit(objs, |old(k.caches)|, SizesAsked(requests[..done]))
    ensures CachesOf(objs) == Asked(requests[..done], |old(k.caches)|)
  {
    hide SysOk, Kernel.PhysOk, Kernel.TablesOk, RunOk, MayHalt, Extends, Granted, Asked, CachesAfter, CachesOf,
         NothingShared, HoldTables, InHand, NoOverlap, NoPageTwice, ObjectsOutside, RegionsInUse, OutsideOwn, OwnShown,
         BootsBehind, ObjectsFit, CachesFit, SizesAsked;
    NoneAsked(k.View(), requests[..0]);
    NothingAsked(requests[..0], |k.caches|);
    objs, regions, done, halt, before := [], [], 0, None, k.View();
    RunBegins(before);
    ExtendsRefl(before);
    while done < |requests|
      invariant done <= |requests| && halt.None?
      invariant k.Valid() && RunOk(k.View(), objs, regions)
      invariant before == k.View() && Extends(old(k.View()), before)
      invariant Answered(requests[..done], |old(k.caches)|, objs, |k.caches|)
      invariant CachesFit(before, |old(k.caches)|, SizesAsked(requests[..done]))
    {
      HandFacts(k, objs, regions, |old(k.caches)|, SizesAsked(requests[..done]));
      ghost var objs0, regions0 := objs, regions;
      objs, regions, halt := ServeOne(k, requests[done], objs, regions);
      if halt.Some? {
        return;
      }
      ExtendsTrans(old(k.View()), before, k.View());
      OneMoreAnswered(requests, done, |old(k.caches)|, before, k.View(), objs0, objs, regions0, regions);
      OneMoreFits(requests, done, |old(k.caches)|, before, k.View(), objs0, objs, regions0, regions);
      done, before := done + 1, k.View();
    }
    HandFacts(k, objs, regions, |old(k.caches)|, SizesAsked(requests[..done]));
    RunIsBacked(k, objs);
  }
}
