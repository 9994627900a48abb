/** The allocators on top of the page tables: what the kernel believes is mapped is what the
    hardware translates, down to the bytes of the objects it hands out. */
module KernelPaging {
  import opened Outcomes
  import opened Blocks
  import opened FreeBlocks
  import opened VirtualRegions
  import opened SlabCaches
  import opened KernelState
  import opened KernelMemory
  import opened PageTables
  import P = Paging

  /** a is the address of a byte of o. */
  predicate ByteOf(o: Obj, a: int) {
    o.Addr() <= a < o.Addr() + o.size
  }

  lemma BytePage(o: Obj, pages: nat, a: int)
    requires o.size > 0 && o.slot < Capacity(pages, o.size) && ByteOf(o, a)
    ensures o.first <= a / P.PAGE < o.first + pages
  {
    SlotInside(o, pages);
  }

  /** Every byte of every object has an address of 32 bits, and is backed by physical memory
      in use. */
  lemma ByteIsBacked(s: Sys, lo: nat, tables: set<nat>, live: set<Block>, m: Mem, cr3: P.word, i: nat, o: Obj, a: int)
    requires SysOk(s, lo, tables, live) && Shown(s.mapping, m, cr3) && i < |s.caches| && IsObject(s, i, o)
    requires ByteOf(o, a)
    ensures 0 <= a < P.PAGES * P.PAGE
    ensures var p: nat := a / P.PAGE;
            && p in s.mapping && Holds(live, s.mapping[p])
            && P.Walk(m, cr3, a) == Some(s.mapping[p] * P.PAGE + a % P.PAGE)
  {
    ObjectFits(s, i, o);
    hide SysOk, Capacity, Obj.Addr, Slabs, IsObject, P.Walk, ByteOf;
    BytePage(o, s.caches[i].pagesPerSlab, a);
    var p: nat := a / P.PAGE;
    SlabPageMapped(s, lo, tables, live, i, o.first, p);
    assert ShownAt(s.mapping, m, cr3, p);
  }

  lemma SlabPageMapped(s: Sys, lo: nat, tables: set<nat>, live: set<Block>, i: nat, f: nat, p: nat)
    requires SysOk(s, lo, tables, live) && i < |s.caches| && f in Slabs(s.caches[i])
    requires f <= p < f + s.caches[i].pagesPerSlab
    ensures p in s.mapping && Holds(live, s.mapping[p])
  {
    hide Slabs, CachesOk, RegionsOk, TablesPresent, SlabsPlaced;
    assert SlabMapped(s, i, f);
  }

  /** No two different objects, whatever their caches, share a byte of physical memory. */
  lemma NoPhysicalSharing(s: Sys, lo: nat, tables: set<nat>, live: set<Block>, m: Mem, cr3: P.word,
                          i: nat, o: Obj, a: P.word, j: nat, o': Obj, b: P.word)
    requires SysOk(s, lo, tables, live) && Shown(s.mapping, m, cr3)
    requires i < |s.caches| && IsObject(s, i, o) && ByteOf(o, a)
    requires j < |s.caches| && IsObject(s, j, o') && ByteOf(o', b) && o != o'
    ensures P.Walk(m, cr3, a).Some? && P.Walk(m, cr3, b).Some? && P.Walk(m, cr3, a) != P.Walk(m, cr3, b)
  {
    ByteIsBacked(s, lo, tables, live, m, cr3, i, o, a);
    ByteIsBacked(s, lo, tables, live, m, cr3, j, o', b);
    ObjectsNeverOverlap(s, lo, tables, live, i, o, j, o');
    BytesDiffer(o, a, o', b);
    SameFrameSamePage(s, live, a / P.PAGE, b / P.PAGE);
    hide SysOk, IsObject, P.Walk, Obj.Addr, Shown;
    FrameAndOffset(s.mapping[a / P.PAGE], a % P.PAGE, s.mapping[b / P.PAGE], b % P.PAGE);
  }

  lemma BytesDiffer(o: Obj, a: int, o': Obj, b: int)
    requires !o.Overlaps(o') && ByteOf(o, a) && ByteOf(o', b)
    ensures a != b
  {
    hide Obj.Addr;
  }

  lemma SameFrameSamePage(s: Sys, live: set<Block>, p: nat, q: nat)
    requires MapOk(s, live) && p in s.mapping && q in s.mapping
    ensures s.mapping[p] == s.mapping[q] ==> p == q
  {}

  lemma FrameAndOffset(f: nat, x: int, g: nat, y: int)
    requires 0 <= x < P.PAGE && 0 <= y < P.PAGE
    ensures f * P.PAGE + x == g * P.PAGE + y ==> f == g && x == y
  {}
}
