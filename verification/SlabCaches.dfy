/** Slabs of equal objects and the caches that own them (src/kernel/mm/slab.c:170-262,
    372-418, 512-585). The free objects of a slab are named by their slot numbers here;
    module SlabThreads shows how they are threaded through the slab's own memory. */
module SlabCaches {
  import opened Outcomes

  const PAGE: nat := 4096       // VPAGE_SIZE
  const PTR_SIZE: nat := 4       // sizeof(void*)

  /** struct Slab: the region it occupies, and its free slots, next to be handed out first. */
  datatype Slab = Slab(first: nat, pages: nat, freeCount: nat, freeList: seq<nat>)

  /** An object handed out by a cache: a slot of the slab at page first. */
  datatype Obj = Obj(first: nat, slot: nat, size: nat) {
    function Addr(): nat { first * PAGE + slot * size }

    predicate Overlaps(other: Obj) {
      Addr() < other.Addr() + other.size && other.Addr() < Addr() + size
    }
  }

  datatype Status = FreeSlab | PartialSlab | FullSlab

  /** The fields of struct Objs_cache. */
  datatype Cache = Cache(size: nat, pagesPerSlab: nat, perSlab: nat,
                         freeObjs: nat, usedObjs: nat,
                         slabs: nat, frees: nat, partials: nat, fulls: nat,
                         freeSlabs: seq<Slab>, partialSlabs: seq<Slab>, fullSlabs: seq<Slab>)

  /** How many objects fit in a slab. */
  function Capacity(pages: nat, size: nat): nat
    requires size > 0
  {
    pages * PAGE / size
  }

  function Times(a: nat, b: nat): nat { a * b }

  // ----- what the lists of a cache add up to -----

  ghost function FreeSum(ss: seq<Slab>): nat {
    if ss == [] then 0 else ss[0].freeCount + FreeSum(ss[1..])
  }

  /** The slabs of a list by the page they start at. */
  ghost function ByPage(ss: seq<Slab>): map<nat, Slab> {
    if ss == [] then map[] else ByPage(ss[1..])[ss[0].first := ss[0]]
  }

  ghost predicate NoneTwice(ss: seq<Slab>) {
    ss == [] || (ss[0].first !in ByPage(ss[1..]) && NoneTwice(ss[1..]))
  }

  /** All slabs of a cache. */
  ghost function Slabs(c: Cache): map<nat, Slab> {
    ByPage(c.freeSlabs) + ByPage(c.partialSlabs) + ByPage(c.fullSlabs)
  }

  /** The objects a cache could still hand out. */
  ghost predicate IsFree(c: Cache, o: Obj) {
    o.size == c.size && o.first in Slabs(c) && o.slot in Slabs(c)[o.first].freeList
  }

  /** The objects a cache has handed out. */
  ghost predicate IsUsed(c: Cache, o: Obj) {
    o.size == c.size && o.first in Slabs(c) && o.slot < c.perSlab && o.slot !in Slabs(c)[o.first].freeList
  }

  // ----- the invariant of a cache -----

  ghost predicate SlabOk(s: Slab, c: Cache) {
    && s.first > 0 && s.pages == c.pagesPerSlab
    && s.freeCount == |s.freeList|
    && (forall i | 0 <= i < |s.freeList| :: s.freeList[i] < c.perSlab)
    && (forall i, j | 0 <= i < j < |s.freeList| :: s.freeList[i] != s.freeList[j])
  }

  /** Which list a slab belongs on. */
  ghost predicate HasStatus(s: Slab, c: Cache, status: Status) {
    match status
    case FreeSlab => s.freeCount == c.perSlab
    case PartialSlab => 0 < s.freeCount < c.perSlab
    case FullSlab => s.freeCount == 0
  }

  ghost predicate SlabsOk(ss: seq<Slab>, c: Cache, status: Status) {
    forall i | 0 <= i < |ss| :: SlabOk(ss[i], c) && HasStatus(ss[i], c, status)
  }

  /** Every slab is on the list its own count calls for, the lists are as long as their
      counters say, and the object counters are the sums over the slabs. */
  ghost predicate CacheOk(c: Cache) {
    && c.perSlab > 0 && c.pagesPerSlab > 0 && c.size >= PTR_SIZE
    && c.perSlab == Capacity(c.pagesPerSlab, c.size)
    && SlabsOk(c.freeSlabs, c, FreeSlab) && SlabsOk(c.partialSlabs, c, PartialSlab) && SlabsOk(c.fullSlabs, c, FullSlab)
    && c.frees == |c.freeSlabs| && c.partials == |c.partialSlabs| && c.fulls == |c.fullSlabs|
    && c.slabs == c.frees + c.partials + c.fulls
    && c.freeObjs == FreeSum(c.freeSlabs) + FreeSum(c.partialSlabs) + FreeSum(c.fullSlabs)
    && c.usedObjs + c.freeObjs == Times(c.slabs, c.perSlab)
    && NoneTwice(c.freeSlabs) && NoneTwice(c.partialSlabs) && NoneTwice(c.fullSlabs)
    && ByPage(c.freeSlabs).Keys !! ByPage(c.partialSlabs).Keys
    && ByPage(c.freeSlabs).Keys !! ByPage(c.fullSlabs).Keys && ByPage(c.partialSlabs).Keys !! ByPage(c.fullSlabs).Keys
  }

  // ----- the code on values -----

  /** objs_cache_add_slab; None is its KASSERT. */
  function Added(c: Cache, s: Slab, status: Status): Option<Cache> {
    if status.FreeSlab? && c.perSlab != s.freeCount then None
    else
      Some(match status
           case FreeSlab =>
             c.(freeObjs := c.freeObjs + c.perSlab, frees := c.frees + 1, freeSlabs := [s] + c.freeSlabs,
                slabs := c.slabs + 1)
           case PartialSlab =>
             c.(freeObjs := c.freeObjs + s.freeCount,
                usedObjs := if s.freeCount <= c.perSlab then c.usedObjs + c.perSlab - s.freeCount else c.usedObjs,
                partials := c.partials + 1, partialSlabs := [s] + c.partialSlabs, slabs := c.slabs + 1)
           case FullSlab =>
             c.(usedObjs := c.usedObjs + c.perSlab, fulls := c.fulls + 1, fullSlabs := [s] + c.fullSlabs,
                slabs := c.slabs + 1))
  }

  /** alloc_obj_from_slab on a slab with a free object. */
  function Popped(s: Slab): (r: (Slab, nat))
    requires s.freeList != [] && s.freeCount > 0
  {
    (s.(freeCount := s.freeCount - 1, freeList := s.freeList[1..]), s.freeList[0])
  }

  /** The cache after _retrieve_free_obj_from_objs_cache took an object from the slab at
      the head of the partial or, failing that, of the free slabs. */
  function Retrieved(c: Cache): (r: Option<(Cache, Obj)>)
    requires c.partialSlabs != [] ==>
               c.partialSlabs[0].freeList != [] && c.partialSlabs[0].freeCount > 0 && c.partials > 0
    requires c.partialSlabs == [] && c.freeSlabs != [] ==>
               c.freeSlabs[0].freeList != [] && c.freeSlabs[0].freeCount > 0 && c.frees > 0
    requires c.partialSlabs != [] || c.freeSlabs != [] ==> c.freeObjs > 0
  {
    if c.partialSlabs != [] then
      var (s, k) := Popped(c.partialSlabs[0]);
      var c1 := c.(freeObjs := c.freeObjs - 1, usedObjs := c.usedObjs + 1);
      var rest := c.partialSlabs[1..];
      Some((if s.freeCount == 0 then c1.(partialSlabs := rest, fullSlabs := [s] + c.fullSlabs,
                                         partials := c.partials - 1, fulls := c.fulls + 1)
            else c1.(partialSlabs := [s] + rest),
            Obj(s.first, k, c.size)))
    else if c.freeSlabs != [] then
      var (s, k) := Popped(c.freeSlabs[0]);
      var c1 := c.(freeObjs := c.freeObjs - 1, usedObjs := c.usedObjs + 1, freeSlabs := c.freeSlabs[1..],
                   frees := c.frees - 1);
      Some((if s.freeCount != 0 then c1.(partialSlabs := [s] + c.partialSlabs, partials := c.partials + 1)
            else c1.(fullSlabs := [s] + c.fullSlabs, fulls := c.fulls + 1),
            Obj(s.first, k, c.size)))
    else None
  }

  // ----- what a new cache and a retrieval are, without the functions above -----

  /** A new cache for objects of objSize bytes: its slots are as large as an object and as a
      pointer and no larger than the larger of these, and a slab has all the slots that fit. */
  ghost predicate MadeFor(c: Cache, objSize: nat, pages: nat) {
    && c.size >= objSize && c.size >= 4 && (c.size == objSize || c.size == 4)
    && c.pagesPerSlab == pages && c.perSlab * c.size <= pages * 4096 < (c.perSlab + 1) * c.size
    && c.freeObjs == c.usedObjs == c.slabs == c.frees == c.partials == c.fulls == 0
    && c.freeSlabs == c.partialSlabs == c.fullSlabs == []
  }

  /** As many slots as fit. */
  lemma CapacityIs(pages: nat, size: nat, k: nat)
    requires size > 0
    ensures k <= Capacity(pages, size) <==> k * size <= pages * 4096
  {
    var n := pages * PAGE / size;
    assert n * size <= pages * PAGE < (n + 1) * size;
    if k <= n { MulMonotone(k, n, size); } else { MulMonotone(n + 1, k, size); }
  }

  lemma EmptyIsMade(objSize: nat, pages: nat)
    ensures MadeFor(EmptyCache(objSize, pages), objSize, pages)
  {
    var c := EmptyCache(objSize, pages);
    CapacityIs(pages, c.size, c.perSlab);
    CapacityIs(pages, c.size, c.perSlab + 1);
    hide Capacity;
  }

  /** The first free slot of the first partial slab is taken, or of the first free slab if no
      slab is partial; the slab ends up at the head of the partial list, or of the full list if
      that was its last slot. Nothing else changes. */
  ghost predicate TakenFirst(c: Cache, c': Cache, o: Obj) {
    && c'.size == c.size && c'.pagesPerSlab == c.pagesPerSlab && c'.perSlab == c.perSlab && c'.slabs == c.slabs
    && c'.freeObjs == c.freeObjs - 1 && c'.usedObjs == c.usedObjs + 1
    && if c.partialSlabs != [] then
         && TakenFrom(c.partialSlabs[0], c, o) && c'.freeSlabs == c.freeSlabs && c'.frees == c.frees
         && if c.partialSlabs[0].freeCount == 1 then
              && c'.partialSlabs == c.partialSlabs[1..] && c'.fullSlabs == [Less(c.partialSlabs[0])] + c.fullSlabs
              && c'.partials == c.partials - 1 && c'.fulls == c.fulls + 1
            else
              && c'.partialSlabs == [Less(c.partialSlabs[0])] + c.partialSlabs[1..] && c'.fullSlabs == c.fullSlabs
              && c'.partials == c.partials && c'.fulls == c.fulls
       else
         && c.freeSlabs != []
         && TakenFrom(c.freeSlabs[0], c, o) && c'.freeSlabs == c.freeSlabs[1..] && c'.frees == c.frees - 1
         && if c.freeSlabs[0].freeCount == 1 then
              && c'.partialSlabs == [] && c'.fullSlabs == [Less(c.freeSlabs[0])] + c.fullSlabs
              && c'.partials == c.partials && c'.fulls == c.fulls + 1
            else
              && c'.partialSlabs == [Less(c.freeSlabs[0])] && c'.fullSlabs == c.fullSlabs
              && c'.partials == c.partials + 1 && c'.fulls == c.fulls
  }

  ghost predicate TakenFrom(s: Slab, c: Cache, o: Obj) {
    s.freeList != [] && o == Obj(s.first, s.freeList[0], c.size)
  }

  /** The slab without its first free slot. */
  ghost function Less(s: Slab): Slab {
    if s.freeCount == 0 || s.freeList == [] then s
    else Slab(s.first, s.pages, s.freeCount - 1, s.freeList[1..])
  }

  lemma RetrievedIsFirst(c: Cache)
    requires CanRetrieve(c)
    ensures match Retrieved(c)
            case None => c.partialSlabs == [] && c.freeSlabs == []
            case Some((c', o)) => TakenFirst(c, c', o)
  {}

  // ----- the class -----

  class ObjsCache {
    const size: nat
    const pagesPerSlab: nat
    const perSlab: nat
    var freeObjs: nat
    var usedObjs: nat
    var slabs: nat
    var frees: nat
    var partials: nat
    var fulls: nat
    var freeSlabs: seq<Slab>
    var partialSlabs: seq<Slab>
    var fullSlabs: seq<Slab>

    ghost function View(): Cache
      reads this
    {
      Cache(size, pagesPerSlab, perSlab, freeObjs, usedObjs, slabs, frees, partials, fulls,
            freeSlabs, partialSlabs, fullSlabs)
    }

    /** objs_cache_init, whose KASSERTs are the preconditions. */
    constructor (objSize: nat, pages: nat)
      requires objSize > 0 && pages > 0 && objSize <= pages * PAGE
      ensures View() == EmptyCache(objSize, pages) && MadeFor(View(), objSize, pages)
    {
      size := if objSize > PTR_SIZE then objSize else PTR_SIZE;
      pagesPerSlab := pages;
      perSlab := Capacity(pages, if objSize > PTR_SIZE then objSize else PTR_SIZE);
      freeObjs, usedObjs := 0, 0;
      slabs, frees, partials, fulls := 0, 0, 0, 0;
      freeSlabs, partialSlabs, fullSlabs := [], [], [];
      EmptyIsMade(objSize, pages);
    }

    /** objs_cache_add_slab; false is its KASSERT. */
    method AddSlab(s: Slab, status: Status) returns (ok: bool)
      requires s.freeCount <= perSlab
      modifies this
      ensures ok <==> Added(old(View()), s, status).Some?
      ensures View() == if ok then Added(old(View()), s, status).value else old(View())
      ensures ok <==> !(status.FreeSlab? && s.freeCount != perSlab)
      ensures freeSlabs == (if ok && status.FreeSlab? then [s] else []) + old(freeSlabs)
      ensures partialSlabs == (if ok && status.PartialSlab? then [s] else []) + old(partialSlabs)
      ensures fullSlabs == (if ok && status.FullSlab? then [s] else []) + old(fullSlabs)
      ensures frees == old(frees) + |freeSlabs| - |old(freeSlabs)|
      ensures partials == old(partials) + |partialSlabs| - |old(partialSlabs)|
      ensures fulls == old(fulls) + |fullSlabs| - |old(fullSlabs)|
      ensures ok ==> slabs == old(slabs) + 1 && freeObjs + usedObjs == old(freeObjs) + old(usedObjs) + perSlab
      ensures ok ==> freeObjs == old(freeObjs) + if status.FullSlab? then 0 else s.freeCount
    {
      if status.FreeSlab? && perSlab != s.freeCount {
        return false;
      }
      match status {
        case FreeSlab =>
          freeObjs := freeObjs + perSlab;
          frees := frees + 1;
          freeSlabs := [s] + freeSlabs;
        case PartialSlab =>
          freeObjs := freeObjs + s.freeCount;
          usedObjs := usedObjs + (perSlab - s.freeCount);
          partials := partials + 1;
          partialSlabs := [s] + partialSlabs;
        case FullSlab =>
          usedObjs := usedObjs + perSlab;
          fulls := fulls + 1;
          fullSlabs := [s] + fullSlabs;
      }
      slabs := slabs + 1;
      return true;
    }

    /** _retrieve_free_obj_from_objs_cache; None is its NULL. */
    method Retrieve() returns (r: Option<Obj>)
      requires CacheOk(View())
      modifies this
      ensures CanRetrieve(old(View()))
      ensures match Retrieved(old(View()))
              case None => r == None && View() == old(View())
              case Some((c, o)) => r == Some(o) && View() == c
      ensures match r
              case None => View() == old(View()) && partialSlabs == [] && freeSlabs == []
              case Some(o) => TakenFirst(old(View()), View(), o)
    {
      hide CacheOk, TakenFirst;
      RetrieveIsSafe(View());
      RetrievedIsFirst(View());
      if partialSlabs != [] {
        var (s, k) := Popped(partialSlabs[0]);
        freeObjs := freeObjs - 1;
        usedObjs := usedObjs + 1;
        if s.freeCount == 0 {
          partialSlabs := partialSlabs[1..];
          fullSlabs := [s] + fullSlabs;
          partials := partials - 1;
          fulls := fulls + 1;
        } else {
          partialSlabs := [s] + partialSlabs[1..];
        }
        return Some(Obj(s.first, k, size));
      } else if freeSlabs != [] {
        var (s, k) := Popped(freeSlabs[0]);
        freeObjs := freeObjs - 1;
        usedObjs := usedObjs + 1;
        freeSlabs := freeSlabs[1..];
        frees := frees - 1;
        if s.freeCount != 0 {
          partialSlabs := [s] + partialSlabs;
          partials := partials + 1;
        } else {
          fullSlabs := [s] + fullSlabs;
          fulls := fulls + 1;
        }
        return Some(Obj(s.first, k, size));
      } else {
        return None;
      }
    }
  }

  function EmptyCache(objSize: nat, pages: nat): Cache {
    var size := if objSize > PTR_SIZE then objSize else PTR_SIZE;
    Cache(size, pages, Capacity(pages, size), 0, 0, 0, 0, 0, 0, [], [], [])
  }

  ghost predicate CanRetrieve(c: Cache) {
    && (c.partialSlabs != [] ==> c.partialSlabs[0].freeList != [] && c.partialSlabs[0].freeCount > 0 && c.partials > 0)
    && (c.partialSlabs == [] && c.freeSlabs != [] ==>
          c.freeSlabs[0].freeList != [] && c.freeSlabs[0].freeCount > 0 && c.frees > 0)
    && (c.partialSlabs != [] || c.freeSlabs != [] ==> c.freeObjs > 0)
  }

  /** In a consistent cache the slab at the head of the list always has a free object. */
  lemma RetrieveIsSafe(c: Cache)
    requires CacheOk(c)
    ensures CanRetrieve(c)
  {
    if c.partialSlabs != [] { assert SlabOk(c.partialSlabs[0], c); }
    if c.freeSlabs != [] { assert SlabOk(c.freeSlabs[0], c); }
  }

  // ----- retrieving keeps the accounts -----

  lemma PopSlab(s: Slab, c: Cache)
    requires SlabOk(s, c) && s.freeCount > 0
    ensures s.freeList != [] && SlabOk(Popped(s).0, c)
    ensures forall x :: x in Popped(s).0.freeList <==> x in s.freeList && x != s.freeList[0]
  {
    var s' := Popped(s).0;
    assert s.freeList == [s.freeList[0]] + s'.freeList;
  }

  lemma PushSlab(s: Slab, ss: seq<Slab>)
    ensures FreeSum([s] + ss) == s.freeCount + FreeSum(ss)
    ensures ByPage([s] + ss) == ByPage(ss)[s.first := s]
    ensures NoneTwice([s] + ss) <==> s.first !in ByPage(ss) && NoneTwice(ss)
  {
    assert ([s] + ss)[1..] == ss;
  }

  lemma PushSlabOk(s: Slab, ss: seq<Slab>, c: Cache, status: Status)
    requires SlabsOk(ss, c, status) && SlabOk(s, c) && HasStatus(s, c, status)
    ensures SlabsOk([s] + ss, c, status)
  {}

  lemma SlabsOkRest(ss: seq<Slab>, c: Cache, status: Status)
    requires SlabsOk(ss, c, status) && ss != []
    ensures SlabsOk(ss[1..], c, status)
  {}

  lemma SlabsOkSameShape(ss: seq<Slab>, c: Cache, c': Cache, status: Status)
    requires SlabsOk(ss, c, status) && c'.perSlab == c.perSlab && c'.pagesPerSlab == c.pagesPerSlab
    ensures SlabsOk(ss, c', status)
  {
    forall i | 0 <= i < |ss| ensures SlabOk(ss[i], c') { assert SlabOk(ss[i], c); }
  }

  lemma NothingLeft(c: Cache)
    requires CacheOk(c)
    ensures c.partialSlabs != [] || c.freeSlabs != [] <==> c.freeObjs > 0
  {
    FullSum(c.fullSlabs, c);
    if c.partialSlabs != [] { assert SlabOk(c.partialSlabs[0], c); }
    if c.freeSlabs != [] { assert SlabOk(c.freeSlabs[0], c); }
  }

  lemma {:induction false} FullSum(ss: seq<Slab>, c: Cache)
    requires SlabsOk(ss, c, FullSlab)
    ensures FreeSum(ss) == 0
    decreases |ss|
  {
    if ss != [] {
      assert SlabOk(ss[0], c);
      SlabsOkRest(ss, c, FullSlab);
      FullSum(ss[1..], c);
    }
  }

  /** The first free slot of one slab changes hands, and nothing else moves. */
  ghost predicate HandedOut(c: Cache, c': Cache, o: Obj) {
    && CacheOk(c')
    && c'.size == c.size && c'.pagesPerSlab == c.pagesPerSlab && c'.perSlab == c.perSlab
    && c'.freeObjs == c.freeObjs - 1 && c'.usedObjs == c.usedObjs + 1
    && o.size == c.size && o.first in Slabs(c)
    && SlabOk(Slabs(c)[o.first], c) && Slabs(c)[o.first].freeCount > 0
    && o.slot == Slabs(c)[o.first].freeList[0]
    && Slabs(c') == Slabs(c)[o.first := Popped(Slabs(c)[o.first]).0]
  }

  /** What was free is used now, and every other object is as it was. */
  lemma HandedOutMoves(c: Cache, c': Cache, o: Obj)
    requires HandedOut(c, c', o)
    ensures IsFree(c, o) && Slabs(c').Keys == Slabs(c).Keys
    ensures forall x :: IsFree(c', x) <==> IsFree(c, x) && x != o
    ensures forall x :: IsUsed(c', x) <==> IsUsed(c, x) || x == o
  {
    var s := Slabs(c)[o.first];
    PopSlab(s, c);
  }

  /** Retrieving from a consistent cache fails exactly when it has no free object, and
      otherwise hands out one free object. */
  lemma RetrieveKeeps(c: Cache)
    requires CacheOk(c)
    ensures CanRetrieve(c)
    ensures Retrieved(c).None? <==> c.freeObjs == 0
    ensures Retrieved(c).Some? ==> HandedOut(c, Retrieved(c).value.0, Retrieved(c).value.1)
  {
    RetrieveIsSafe(c);
    NothingLeft(c);
    if c.partialSlabs != [] {
      RetrieveFromPartial(c);
    } else if c.freeSlabs != [] {
      RetrieveFromFree(c);
    }
  }

  lemma RetrieveFromPartial(c: Cache)
    requires CacheOk(c) && CanRetrieve(c) && c.partialSlabs != []
    ensures HandedOut(c, Retrieved(c).value.0, Retrieved(c).value.1)
  {
    hide Capacity, Times, SlabsOk, SlabOk, FreeSum, ByPage, NoneTwice;
    var old0, rest := c.partialSlabs[0], c.partialSlabs[1..];
    var s := Popped(old0).0;
    HeadOk(c.partialSlabs, c, PartialSlab);
    PartialListsOk(c);
    PushSlab(old0, rest);
    PushSlab(s, rest);
    PushSlab(s, c.fullSlabs);
    PutAnywhere(ByPage(c.freeSlabs), ByPage(rest), ByPage(c.fullSlabs), s.first, old0);
    PutAnywhere(ByPage(c.freeSlabs), ByPage(rest), ByPage(c.fullSlabs), s.first, s);
  }

  lemma HeadOk(ss: seq<Slab>, c: Cache, status: Status)
    requires SlabsOk(ss, c, status) && ss != []
    ensures SlabOk(ss[0], c) && HasStatus(ss[0], c, status) && ss == [ss[0]] + ss[1..]
  {}

  lemma UpdateLeft(a: map<nat, Slab>, b: map<nat, Slab>, k: nat, s: Slab)
    requires k !in b
    ensures a[k := s] + b == (a + b)[k := s]
  {}

  lemma UpdateRight(a: map<nat, Slab>, b: map<nat, Slab>, k: nat, s: Slab)
    ensures a + b[k := s] == (a + b)[k := s]
  {}

  /** A slab put on any one of the three lists is one more slab of the cache. */
  lemma PutAnywhere(a: map<nat, Slab>, b: map<nat, Slab>, d: map<nat, Slab>, k: nat, s: Slab)
    requires k !in b && k !in d
    ensures a[k := s] + b + d == (a + b + d)[k := s]
    ensures a + b[k := s] + d == (a + b + d)[k := s]
    ensures a + b + d[k := s] == (a + b + d)[k := s]
  {
    UpdateLeft(a, b, k, s);
    UpdateLeft(a + b, d, k, s);
    UpdateRight(a, b, k, s);
    UpdateRight(a + b, d, k, s);
  }

  lemma PartialListsOk(c: Cache)
    requires CacheOk(c) && CanRetrieve(c) && c.partialSlabs != []
    ensures var c' := Retrieved(c).value.0;
            SlabsOk(c'.freeSlabs, c', FreeSlab) && SlabsOk(c'.partialSlabs, c', PartialSlab)
                && SlabsOk(c'.fullSlabs, c', FullSlab)
  {
    var s, c' := Popped(c.partialSlabs[0]).0, Retrieved(c).value.0;
    assert SlabOk(c.partialSlabs[0], c);
    PopSlab(c.partialSlabs[0], c);
    SlabsOkRest(c.partialSlabs, c, PartialSlab);
    SlabsOkSameShape(c.partialSlabs[1..], c, c', PartialSlab);
    SlabsOkSameShape(c.fullSlabs, c, c', FullSlab);
    SlabsOkSameShape(c.freeSlabs, c, c', FreeSlab);
    if s.freeCount == 0 {
      PushSlabOk(s, c.fullSlabs, c', FullSlab);
    } else {
      PushSlabOk(s, c.partialSlabs[1..], c', PartialSlab);
    }
  }

  lemma RetrieveFromFree(c: Cache)
    requires CacheOk(c) && CanRetrieve(c) && c.partialSlabs == [] && c.freeSlabs != []
    ensures HandedOut(c, Retrieved(c).value.0, Retrieved(c).value.1)
  {
    hide Capacity, Times, SlabsOk, SlabOk, FreeSum, ByPage, NoneTwice;
    var old0, rest := c.freeSlabs[0], c.freeSlabs[1..];
    var s := Popped(old0).0;
    HeadOk(c.freeSlabs, c, FreeSlab);
    FreeListsOk(c);
    PushSlab(old0, rest);
    PushSlab(s, c.partialSlabs);
    PushSlab(s, c.fullSlabs);
    PutAnywhere(ByPage(rest), ByPage(c.partialSlabs), ByPage(c.fullSlabs), s.first, old0);
    PutAnywhere(ByPage(rest), ByPage(c.partialSlabs), ByPage(c.fullSlabs), s.first, s);
  }

  lemma FreeListsOk(c: Cache)
    requires CacheOk(c) && CanRetrieve(c) && c.partialSlabs == [] && c.freeSlabs != []
    ensures var c' := Retrieved(c).value.0;
            SlabsOk(c'.freeSlabs, c', FreeSlab) && SlabsOk(c'.partialSlabs, c', PartialSlab)
                && SlabsOk(c'.fullSlabs, c', FullSlab)
  {
    var s, c' := Popped(c.freeSlabs[0]).0, Retrieved(c).value.0;
    assert SlabOk(c.freeSlabs[0], c);
    PopSlab(c.freeSlabs[0], c);
    SlabsOkRest(c.freeSlabs, c, FreeSlab);
    SlabsOkSameShape(c.freeSlabs[1..], c, c', FreeSlab);
    SlabsOkSameShape(c.fullSlabs, c, c', FullSlab);
    if s.freeCount == 0 {
      PushSlabOk(s, c.fullSlabs, c', FullSlab);
    } else {
      PushSlabOk(s, c.partialSlabs, c', PartialSlab);
    }
  }

  // ----- adding a slab -----

  /** A slab that was just set up: all slots from used on are free, in ascending order. */
  function NewSlab(first: nat, pages: nat, size: nat, used: nat): (s: Slab)
    requires size > 0 && used <= Capacity(pages, size)
  {
    var n := Capacity(pages, size) - used;
    Slab(first, pages, n, seq(n, i => used + i))
  }

  ghost predicate Grown(c: Cache, c': Cache, s: Slab) {
    && CacheOk(c')
    && c'.size == c.size && c'.pagesPerSlab == c.pagesPerSlab && c'.perSlab == c.perSlab
    && c'.freeObjs == c.freeObjs + s.freeCount
    && Slabs(c') == Slabs(c)[s.first := s]
  }

  lemma AddKeeps(c: Cache, s: Slab, status: Status)
    requires CacheOk(c) && SlabOk(s, c) && HasStatus(s, c, status) && s.first !in Slabs(c)
    ensures Added(c, s, status).Some? && Grown(c, Added(c, s, status).value, s)
  {
    hide Capacity, Times, SlabsOk, SlabOk, FreeSum, ByPage, NoneTwice;
    PushSlab(s, c.freeSlabs);
    PushSlab(s, c.partialSlabs);
    PushSlab(s, c.fullSlabs);
    AddListsOk(c, s, status);
    PerSlabGrows(c.slabs, c.perSlab);
    PutAnywhere(ByPage(c.freeSlabs), ByPage(c.partialSlabs), ByPage(c.fullSlabs), s.first, s);
  }

  lemma AddListsOk(c: Cache, s: Slab, status: Status)
    requires CacheOk(c) && SlabOk(s, c) && HasStatus(s, c, status)
    ensures Added(c, s, status).Some?
    ensures var c' := Added(c, s, status).value;
            SlabsOk(c'.freeSlabs, c', FreeSlab) && SlabsOk(c'.partialSlabs, c', PartialSlab)
                && SlabsOk(c'.fullSlabs, c', FullSlab)
  {
    var c' := Added(c, s, status).value;
    SlabsOkSameShape(c.freeSlabs, c, c', FreeSlab);
    SlabsOkSameShape(c.partialSlabs, c, c', PartialSlab);
    SlabsOkSameShape(c.fullSlabs, c, c', FullSlab);
    match status {
      case FreeSlab => PushSlabOk(s, c.freeSlabs, c', FreeSlab);
      case PartialSlab => PushSlabOk(s, c.partialSlabs, c', PartialSlab);
      case FullSlab => PushSlabOk(s, c.fullSlabs, c', FullSlab);
    }
  }

  lemma PerSlabGrows(slabs: nat, perSlab: nat)
    ensures Times(slabs + 1, perSlab) == Times(slabs, perSlab) + perSlab
  {}

  // ----- objects never overlap -----

  lemma MulMonotone(a: nat, b: nat, m: nat)
    requires a <= b
    ensures a * m <= b * m
  {}

  /** A slot lies inside its slab. */
  lemma SlotInside(o: Obj, pages: nat)
    requires o.size > 0 && o.slot < Capacity(pages, o.size)
    ensures o.first * PAGE <= o.Addr() && o.Addr() + o.size <= (o.first + pages) * PAGE
  {
    var n := pages * PAGE / o.size;
    MulMonotone(o.slot + 1, n, o.size);
    assert n * o.size <= pages * PAGE;
    assert (o.slot + 1) * o.size == o.slot * o.size + o.size;
  }

  /** Different slots of one slab do not overlap. */
  lemma SlotsApart(o: Obj, o': Obj)
    requires o.first == o'.first && o.size == o'.size && o.slot != o'.slot
    ensures !o.Overlaps(o')
  {
    if o.slot < o'.slot {
      MulMonotone(o.slot + 1, o'.slot, o.size);
      assert (o.slot + 1) * o.size == o.slot * o.size + o.size;
    } else {
      MulMonotone(o'.slot + 1, o.slot, o.size);
      assert (o'.slot + 1) * o.size == o'.slot * o.size + o.size;
    }
  }

  /** Objects in slabs whose regions are apart do not overlap. */
  lemma RegionsApart(o: Obj, pages: nat, o': Obj, pages': nat)
    requires o.size > 0 && o.slot < Capacity(pages, o.size)
    requires o'.size > 0 && o'.slot < Capacity(pages', o'.size)
    requires o.first + pages <= o'.first || o'.first + pages' <= o.first
    ensures !o.Overlaps(o')
  {
    SlotInside(o, pages);
    SlotInside(o', pages');
  }
}
