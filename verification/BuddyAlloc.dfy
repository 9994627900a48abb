/** _ppage_block_alloc (src/kernel/mm/physical_pages.c:291-328) on descriptors and
    lists, and its refinement of allocation on sets of blocks. */
module BuddyAlloc {
  import opened Blocks
  import opened FreeBlocks
  import opened BuddyRuns
  import opened Clist
  import opened BuddyLists

  /** What a call leaves behind, or a failed KASSERT or panic(), which halts the kernel. */
  datatype Result = Done(v: Phys, ppn: nat) | Panic

  // ----- the code -----

  /** The free list of this order is not empty: take its head (lines 320-322). */
  function TakeHead(v: Phys, order: nat): (r: Result)
    requires |v.heads| == LISTS && order < MAX_ORDER
    ensures r.Done? ==> |r.v.heads| == LISTS && |r.v.pages| == |v.pages| && r.ppn < |v.pages|
  {
    var el := v.heads[FreeList(order)];
    if !(0 <= el < |v.pages|) then Panic
    else
      var v1 := Link(Unlink(v, FreeList(order), el), UsedList(order), el);
      Done(v1.(pages := v1.pages[el := v1.pages[el].(count := 1)]), el)
  }

  /** The descriptor writes of a split (lines 305-313). */
  function SplitPages(pages: seq<Ppage>, big: nat, upper: nat, order: nat): (pages': seq<Ppage>)
    requires big < |pages| && upper < |pages|
    ensures |pages'| == |pages|
  {
    var cut := pages[upper := pages[upper].(head := true, order := order, count := 0)];
    var o := cut[big].order;
    cut[big := cut[big].(order := if o > 0 then o - 1 else 255)]
  }

  /** Halve the block the next order up returned (lines 303-315). As written, the lower
      half is pushed on its new used list while still on the one of its old order. */
  function Split(text: Text, v: Phys, big: nat, order: nat): (r: Result)
    requires |v.heads| == LISTS && order + 1 < MAX_ORDER && big < |v.pages|
    ensures r.Done? ==> |r.v.heads| == LISTS && |r.v.pages| == |v.pages| && r.ppn == big
  {
    var upper := big + Pow2(order);
    if upper >= |v.pages| then Panic
    else
      var v1 := Phys(SplitPages(v.pages, big, upper, order), v.heads);
      var v2 := Link(v1, FreeList(order), upper);
      var v3 := if text.Repaired? then Unlink(v2, UsedList(order + 1), big) else v2;
      Done(Link(v3, UsedList(order), big), big)
  }

  function BlockAlloc(text: Text, v: Phys, order: nat): (r: Result)
    requires |v.heads| == LISTS
    ensures r.Done? ==> |r.v.heads| == LISTS && |r.v.pages| == |v.pages| && r.ppn < |v.pages|
    ensures r.Done? ==> order < MAX_ORDER
    decreases if order < MAX_ORDER then MAX_ORDER - order else 0
  {
    if order >= MAX_ORDER then Panic
    else if v.heads[FreeList(order)] != NULL then TakeHead(v, order)
    else
      match BlockAlloc(text, v, order + 1)
      case Panic => Panic
      case Done(v1, big) => Split(text, v1, big, order)
  }

  // ----- descriptors as a set of blocks -----

  ghost function FreeSet(pages: seq<Ppage>): (s: set<Block>)
    ensures forall b :: b in s <==>
              b.head < |pages| && pages[b.head].head && pages[b.head].count == 0 && pages[b.head].order == b.order
  {
    set p: nat | p < |pages| && pages[p].head && pages[p].count == 0 :: Block(p, pages[p].order)
  }

  ghost function LiveSet(pages: seq<Ppage>): (s: set<Block>)
    ensures forall b :: b in s <==>
              b.head < |pages| && pages[b.head].head && pages[b.head].count != 0 && pages[b.head].order == b.order
  {
    set p: nat | p < |pages| && pages[p].head && pages[p].count != 0 :: Block(p, pages[p].order)
  }

  ghost function HeapOf(pages: seq<Ppage>): Heap {
    Heap(FreeSet(pages), LiveSet(pages))
  }

  /** The free and the used blocks cover every page exactly once. */
  ghost predicate Tiled(pages: seq<Ppage>) {
    && Tidy(HeapOf(pages))
    && forall p :: Holds(FreeSet(pages) + LiveSet(pages), p) <==> 0 <= p < |pages|
  }

  ghost predicate Valid(v: Phys, lists: seq<seq<nat>>) {
    Threaded(v, lists) && Tiled(v.pages)
  }

  /** Links aside, the two arrays agree. */
  ghost predicate SameData(d: seq<Ppage>, d': seq<Ppage>) {
    |d'| == |d| && forall i | 0 <= i < |d| :: d'[i] == d[i].(prev := d'[i].prev, next := d'[i].next)
  }

  lemma SameDataSameHeap(d: seq<Ppage>, d': seq<Ppage>)
    requires SameData(d, d')
    ensures HeapOf(d') == HeapOf(d) && Homes(d') == Homes(d)
  {
    assert FreeSet(d') == FreeSet(d);
    assert LiveSet(d') == LiveSet(d);
  }

  /** Links do not matter for heads, orders and counts. */
  lemma UnlinkData(v: Phys, k: nat, el: nat)
    requires k < |v.heads|
    ensures SameData(v.pages, Unlink(v, k, el).pages)
  {}

  lemma SetData(d: seq<Ppage>, i: int, l: int)
    ensures SameData(d, SetNext(d, i, l)) && SameData(d, SetPrev(d, i, l))
  {}

  lemma SameDataTrans(d: seq<Ppage>, d1: seq<Ppage>, d2: seq<Ppage>)
    requires SameData(d, d1) && SameData(d1, d2)
    ensures SameData(d, d2)
  {}

  lemma PushData(d: seq<Ppage>, list: int, el: int)
    requires list != NULL
    ensures SameData(d, Push(d, list, el))
  {
    var d1 := SetNext(d, el, list);
    var d2 := SetPrev(d1, el, Prev(d1, list));
    var d3 := SetNext(d2, Prev(d2, list), el);
    hide SameData, SetNext, SetPrev;
    SetData(d, el, list);
    SetData(d1, el, Prev(d1, list));
    SameDataTrans(d, d1, d2);
    SetData(d2, Prev(d2, list), el);
    SameDataTrans(d, d2, d3);
    SetData(d3, list, el);
    SameDataTrans(d, d3, SetPrev(d3, list, el));
  }

  lemma LinkData(v: Phys, k: nat, el: nat)
    requires k < |v.heads|
    ensures SameData(v.pages, Link(v, k, el).pages)
  {
    if v.heads[k] != NULL { PushData(v.pages, v.heads[k], el); }
  }

  // ----- which block is taken, and what becomes of the lists -----

  /** The order of the smallest non-empty free list that will do; MAX_ORDER if there is none. */
  ghost function FitOrder(lists: seq<seq<nat>>, order: nat): (j: nat)
    requires |lists| == LISTS && order <= MAX_ORDER
    ensures order <= j <= MAX_ORDER
    ensures forall i | order <= i < j :: lists[FreeList(i)] == []
    ensures j < MAX_ORDER ==> lists[FreeList(j)] != []
    decreases MAX_ORDER - order
  {
    if order == MAX_ORDER || lists[FreeList(order)] != [] then order else FitOrder(lists, order + 1)
  }

  ghost predicate Fits(lists: seq<seq<nat>>, order: nat) {
    |lists| == LISTS && order < MAX_ORDER && FitOrder(lists, order) < MAX_ORDER
  }

  /** The block at the head of that list. */
  ghost function Source(lists: seq<seq<nat>>, order: nat): Block
    requires Fits(lists, order)
  {
    var j := FitOrder(lists, order);
    Block(lists[FreeList(j)][0], j)
  }

  /** The lists after an allocation: the source leaves the head of its list, its upper
      halves join the tails of the free lists below, the result joins its used list. */
  ghost function CutLists(lists: seq<seq<nat>>, order: nat): (lists': seq<seq<nat>>)
    requires Fits(lists, order)
    ensures |lists'| == LISTS
    ensures forall k | 0 <= k < order || MAX_ORDER <= k < LISTS :: lists'[k] == lists[k]
    decreases MAX_ORDER - order
  {
    var s := lists[FreeList(order)];
    if s != [] then lists[FreeList(order) := s[1..]]
    else CutLists(lists, order + 1)[FreeList(order) := s + [Source(lists, order).head + Pow2(order)]]
  }

  ghost function AllocLists(lists: seq<seq<nat>>, order: nat): (lists': seq<seq<nat>>)
    requires Fits(lists, order)
    ensures |lists'| == LISTS
  {
    CutLists(lists, order)[UsedList(order) := lists[UsedList(order)] + [Source(lists, order).head]]
  }

  /** The head of the first list that is not empty is a smallest fitting block; only the
      free lists matter. */
  lemma FreeListsFit(v: Phys, lists: seq<seq<nat>>, order: nat)
    requires FreeThreads(v, lists, Homes(v.pages)) && Tiled(v.pages) && order < MAX_ORDER
    ensures Fits(lists, order) ==> SmallestFit(FreeSet(v.pages), order, Source(lists, order))
    ensures !Fits(lists, order) ==> forall c :: !SmallestFit(FreeSet(v.pages), order, c)
  {
    forall b | b in FreeSet(v.pages) ensures b.order < MAX_ORDER && lists[FreeList(b.order)] != [] {
      assert b in FreeSet(v.pages) + LiveSet(v.pages);
      assert HoldsPagesAt(lists[FreeList(b.order)], Homes(v.pages), FreeList(b.order));
      assert b.head in lists[FreeList(b.order)];
    }
    if Fits(lists, order) {
      var j := FitOrder(lists, order);
      assert lists[FreeList(j)][0] in lists[FreeList(j)];
      assert HoldsPagesAt(lists[FreeList(j)], Homes(v.pages), FreeList(j));
    }
  }

  lemma SourceIsSmallestFit(v: Phys, lists: seq<seq<nat>>, order: nat)
    requires Valid(v, lists) && order < MAX_ORDER
    ensures Fits(lists, order) ==> SmallestFit(FreeSet(v.pages), order, Source(lists, order))
    ensures !Fits(lists, order) ==> forall c :: !SmallestFit(FreeSet(v.pages), order, c)
  {
    ThreadsAreFree(v, lists, Homes(v.pages));
    hide Threads, FreeThreads, Tiled, SmallestFit, FitOrder, Homes;
    FreeListsFit(v, lists, order);
  }

  lemma ThreadsAreFree(v: Phys, lists: seq<seq<nat>>, at: seq<int>)
    requires Threads(v, lists, at)
    ensures FreeThreads(v, lists, at)
  {
    hide IsClist, HoldsPagesAt;
  }

  // ----- refinement -----

  /** What an allocation of c at the given order does to the heap. */
  ghost function TakenHeap(h: Heap, c: Block, order: nat): Heap {
    Heap(AfterAlloc(h.free, c, order), h.live + {Block(c.head, order)})
  }

  /** Descriptors of pages outside c keep everything but their links. */
  ghost predicate OnlyInside(d: seq<Ppage>, d': seq<Ppage>, c: Block) {
    && |d'| == |d|
    && (forall i: nat | i < |d| && !c.Covers(i) :: d'[i] == d[i].(prev := d'[i].prev, next := d'[i].next))
    && (forall i: nat | i < |d| :: d'[i].slab == d[i].slab && d'[i].mapping == d[i].mapping)
  }

  lemma TakeHeadLists(v: Phys, lists: seq<seq<nat>>, order: nat)
    requires Valid(v, lists) && order < MAX_ORDER && lists[FreeList(order)] != []
    ensures TakeHead(v, order).Done?
    ensures var r, p := TakeHead(v, order), lists[FreeList(order)][0];
            && r.ppn == p < |v.pages|
            && Home(v.pages[p]) == FreeList(order)
            && SameData(v.pages[p := v.pages[p].(count := 1)], r.v.pages)
            && Threads(r.v, AllocLists(lists, order), Homes(v.pages)[p := -1][p := UsedList(order)])
  {
    var k, u := FreeList(order), UsedList(order);
    var at, p := Homes(v.pages), lists[k][0];
    assert IsClist(v.pages, v.heads[k], lists[k]) && HoldsPagesAt(lists[k], at, k) && p in lists[k];
    UnlinkKeeps(v, lists, at, k, 0);
    assert Without(lists[k], 0) == lists[k][1..];
    var v1 := Unlink(v, k, p);
    LinkKeeps(v1, lists[k := lists[k][1..]], at[p := -1], u, p);
    var v2 := Link(v1, u, p);
    RelabelKeeps(v2, AllocLists(lists, order), at[p := -1][p := u], v2.pages[p := v2.pages[p].(count := 1)]);
  }

  lemma TakeHeadRefines(v: Phys, lists: seq<seq<nat>>, order: nat)
    requires Valid(v, lists) && order < MAX_ORDER && lists[FreeList(order)] != []
    ensures TakeHead(v, order).Done?
    ensures var r, c := TakeHead(v, order), Source(lists, order);
            && r.ppn == c.head
            && Threaded(r.v, AllocLists(lists, order))
            && OnlyInside(v.pages, r.v.pages, c)
            && HeapOf(r.v.pages) == TakenHeap(HeapOf(v.pages), c, order)
            && r.v.pages[c.head].count == 1
  {
    TakeHeadLists(v, lists, order);
    hide Threads, Tiled, AllocLists, TakeHead, OnlyInside, TakenHeap, FreeSet, LiveSet, Homes;
    HeadTaken(v.pages, Source(lists, order), TakeHead(v, order).v.pages);
  }

  /** Links aside, taking the head c of a free list sets its count. */
  lemma HeadTaken(d: seq<Ppage>, c: Block, d': seq<Ppage>)
    requires c.head < |d| && Home(d[c.head]) == FreeList(c.order) && c.order < MAX_ORDER
    requires SameData(d[c.head := d[c.head].(count := 1)], d')
    ensures c in FreeSet(d) && HeapOf(d') == TakenHeap(HeapOf(d), c, c.order) && OnlyInside(d, d', c)
    ensures d'[c.head].count == 1 && Homes(d') == Homes(d)[c.head := UsedList(c.order)]
  {
    var d1 := d[c.head := d[c.head].(count := 1)];
    SameDataSameHeap(d1, d');
    assert d[c.head].count == 0;
    TakenSets(d, c, d1);
    TakenInside(d, c, d1, d');
    assert Homes(d1) == Homes(d)[c.head := UsedList(c.order)];
    assert Offcuts(c, c.order) == {};
    hide FreeSet, LiveSet, Homes, OnlyInside;
  }

  lemma TakenInside(d: seq<Ppage>, c: Block, d1: seq<Ppage>, d': seq<Ppage>)
    requires c.head < |d| && d1 == d[c.head := d[c.head].(count := 1)] && SameData(d1, d')
    ensures OnlyInside(d, d', c) && d'[c.head].count == 1
  {
    assert c.Covers(c.head);
    hide Block.Covers, Pow2;
  }

  lemma TakenSets(pages: seq<Ppage>, c: Block, d: seq<Ppage>)
    requires c in FreeSet(pages) && d == pages[c.head := pages[c.head].(count := 1)]
    ensures FreeSet(d) == FreeSet(pages) - {c} && LiveSet(d) == LiveSet(pages) + {c}
  {}

  /** The page that heads the upper half of a live block is in range and heads no block yet. */
  lemma UpperIsPlain(d: seq<Ppage>, big: nat, order: nat)
    requires Tiled(d) && Block(big, order + 1) in LiveSet(d)
    ensures big + Pow2(order) < |d| && !d[big + Pow2(order)].head && d[big].head && d[big].count != 0
  {
    var x, upper := Block(big, order + 1), big + Pow2(order);
    assert x in FreeSet(d) + LiveSet(d) && x.Covers(upper);
    assert Holds(FreeSet(d) + LiveSet(d), upper);
    OverlapExcludes(FreeSet(d) + LiveSet(d), x, Block(upper, d[upper].order));
  }

  ghost function HalfHeap(h: Heap, big: nat, order: nat): Heap {
    Heap(h.free + {Block(big + Pow2(order), order)}, h.live - {Block(big, order + 1)} + {Block(big, order)})
  }

  /** The data a repaired or unrepaired split leaves, links aside. */
  lemma SplitHeap(d: seq<Ppage>, big: nat, order: nat, d': seq<Ppage>)
    requires Tiled(d) && Block(big, order + 1) in LiveSet(d) && big < |d| && big + Pow2(order) < |d|
    requires d' == SplitPages(d, big, big + Pow2(order), order)
    ensures HeapOf(d') == HalfHeap(HeapOf(d), big, order)
    ensures Homes(d') == Homes(d)[big + Pow2(order) := FreeList(order)][big := UsedList(order)]
    ensures OnlyInside(d, d', Block(big, order + 1)) && d'[big].count == d[big].count
  {
    UpperIsPlain(d, big, order);
    hide Tiled, Homes, OnlyInside, FreeSet, LiveSet, SplitPages;
    SplitSets(d, big, big + Pow2(order), order, d');
    SplitHomes(d, big, big + Pow2(order), order, d');
    SplitInside(d, big, order, d');
  }

  lemma SplitHomes(d: seq<Ppage>, big: nat, upper: nat, order: nat, d': seq<Ppage>)
    requires big < upper < |d| && d[big].head && d[big].count != 0 && d[big].order == order + 1
    requires d' == SplitPages(d, big, upper, order)
    ensures Homes(d') == Homes(d)[upper := FreeList(order)][big := UsedList(order)]
  {}

  lemma SplitInside(d: seq<Ppage>, big: nat, order: nat, d': seq<Ppage>)
    requires big < |d| && big + Pow2(order) < |d| && d' == SplitPages(d, big, big + Pow2(order), order)
    ensures OnlyInside(d, d', Block(big, order + 1)) && d'[big].count == d[big].count
  {
    HalvesInside(big, order);
    hide Pow2, Block.Covers, Block.End;
  }

  lemma HalvesInside(big: nat, order: nat)
    ensures Block(big, order + 1).Covers(big) && Block(big, order + 1).Covers(big + Pow2(order))
  {}

  lemma SplitSets(d: seq<Ppage>, big: nat, upper: nat, order: nat, d': seq<Ppage>)
    requires big < upper < |d| && d[big].head && d[big].count != 0 && d[big].order == order + 1 && !d[upper].head
    requires d' == SplitPages(d, big, upper, order)
    ensures FreeSet(d') == FreeSet(d) + {Block(upper, order)}
    ensures LiveSet(d') == LiveSet(d) - {Block(big, order + 1)} + {Block(big, order)}
  {}

  /** The lists after a split: the upper half joins its free list, the lower half leaves
      the used list of the old order, where it was last, for that of the new. */
  ghost predicate SplitMoves(lists: seq<seq<nat>>, big: nat, order: nat, s: seq<nat>, lists': seq<seq<nat>>) {
    && |lists| == LISTS && order + 1 < MAX_ORDER
    && lists[UsedList(order + 1)] == s + [big]
    && lists' == lists[FreeList(order) := lists[FreeList(order)] + [big + Pow2(order)]]
                      [UsedList(order + 1) := s][UsedList(order) := lists[UsedList(order)] + [big]]
  }

  /** Links aside, a split in either text writes what SplitPages does. */
  lemma SplitWrites(text: Text, v: Phys, big: nat, order: nat)
    requires |v.heads| == LISTS && order + 1 < MAX_ORDER && big + Pow2(order) < |v.pages|
    ensures Split(text, v, big, order).Done?
    ensures SameData(SplitPages(v.pages, big, big + Pow2(order), order), Split(text, v, big, order).v.pages)
  {
    hide SplitPages, Link, Unlink, SameData, Pow2;
    var upper := big + Pow2(order);
    var v1 := Phys(SplitPages(v.pages, big, upper, order), v.heads);
    var v2 := Link(v1, FreeList(order), upper);
    LinkData(v1, FreeList(order), upper);
    if text.Repaired? {
      var v3 := Unlink(v2, UsedList(order + 1), big);
      UnlinkData(v2, UsedList(order + 1), big);
      SameDataTrans(v1.pages, v2.pages, v3.pages);
      LinkData(v3, UsedList(order), big);
      SameDataTrans(v1.pages, v3.pages, Link(v3, UsedList(order), big).pages);
    } else {
      LinkData(v2, UsedList(order), big);
      SameDataTrans(v1.pages, v2.pages, Link(v2, UsedList(order), big).pages);
    }
  }

  lemma SplitLists(v: Phys, lists: seq<seq<nat>>, big: nat, order: nat, s: seq<nat>, lists': seq<seq<nat>>)
    requires Valid(v, lists) && SplitMoves(lists, big, order, s, lists') && Block(big, order + 1) in LiveSet(v.pages)
    ensures big + Pow2(order) < |v.pages| && Split(Repaired, v, big, order).Done?
    ensures Threads(Split(Repaired, v, big, order).v, lists',
                    Homes(v.pages)[big + Pow2(order) := FreeList(order)][big := UsedList(order)])
  {
    assert |v.heads| == LISTS;
    hide Tiled, Threads, Homes;
    UpperIsPlain(v.pages, big, order);
    HalvesLinked(v, lists, big, order, s, lists', Split(Repaired, v, big, order));
  }

  lemma HalvesLinked(v: Phys, lists: seq<seq<nat>>, big: nat, order: nat, s: seq<nat>, lists': seq<seq<nat>>, r: Result)
    requires Threaded(v, lists) && SplitMoves(lists, big, order, s, lists') && |v.heads| == LISTS
    requires big + Pow2(order) < |v.pages| && !v.pages[big + Pow2(order)].head && r == Split(Repaired, v, big, order)
    ensures r.Done?
    ensures Threads(r.v, lists', Homes(v.pages)[big + Pow2(order) := FreeList(order)][big := UsedList(order)])
  {
    hide Threads, Homes, Link, Unlink, SplitPages, Pow2;
    var upper, f, o, u := big + Pow2(order), FreeList(order), UsedList(order + 1), UsedList(order);
    var v2 := Link(Phys(SplitPages(v.pages, big, upper, order), v.heads), f, upper);
    UpperLinked(v, lists, big, order);
    Moved(v2, lists[f := lists[f] + [upper]], Homes(v.pages)[upper := f], o, u, s, big);
  }

  lemma SplitKeepsLinks(d: seq<Ppage>, big: nat, upper: nat, order: nat)
    requires big < |d| && upper < |d|
    ensures forall p | 0 <= p < |d| ::
              var d' := SplitPages(d, big, upper, order); d'[p].prev == d[p].prev && d'[p].next == d[p].next
  {}

  /** The upper half joins its free list. */
  lemma UpperLinked(v: Phys, lists: seq<seq<nat>>, big: nat, order: nat)
    requires Threaded(v, lists) && order + 1 < MAX_ORDER && big < |v.pages| && big + Pow2(order) < |v.pages|
    requires !v.pages[big + Pow2(order)].head
    ensures var upper, f := big + Pow2(order), FreeList(order);
            Threads(Link(Phys(SplitPages(v.pages, big, upper, order), v.heads), f, upper),
                    lists[f := lists[f] + [upper]], Homes(v.pages)[upper := f])
  {
    assert |v.heads| == LISTS && |lists| == LISTS;
    hide Threads, Homes, Link, SplitPages, Pow2;
    var upper := big + Pow2(order);
    var v1 := Phys(SplitPages(v.pages, big, upper, order), v.heads);
    SplitKeepsLinks(v.pages, big, upper, order);
    RelabelKeeps(v, lists, Homes(v.pages), v1.pages);
    HomeOf(v.pages, upper);
    LinkKeeps(v1, lists, Homes(v.pages), FreeList(order), upper);
  }

  /** The last element of list o moves to list u. */
  lemma Moved(v: Phys, lists: seq<seq<nat>>, at: seq<int>, o: nat, u: nat, s: seq<nat>, big: nat)
    requires Threads(v, lists, at) && o < LISTS && u < LISTS && o != u && lists[o] == s + [big]
    ensures big < |at|
    ensures Threads(Link(Unlink(v, o, big), u, big), lists[o := s][u := lists[u] + [big]], at[big := u])
  {
    UnlinkKeeps(v, lists, at, o, |s|);
    assert Without(s + [big], |s|) == s;
    assert |lists| == LISTS && |at| == |v.pages|;
    hide Threads, Link, Unlink;
    LinkKeeps(Unlink(v, o, big), lists[o := s], at[big := -1], u, big);
    assert at[big := -1][big := u] == at[big := u];
  }

  lemma HomeOf(d: seq<Ppage>, p: nat)
    requires p < |d|
    ensures Homes(d)[p] == Home(d[p])
  {}

  /** What a split does to descriptors and blocks. */
  ghost predicate SplitEffect(v: Phys, big: nat, order: nat, r: Result) {
    && r.Done? && r.ppn == big < |v.pages| == |r.v.pages|
    && OnlyInside(v.pages, r.v.pages, Block(big, order + 1))
    && HeapOf(r.v.pages) == HalfHeap(HeapOf(v.pages), big, order)
    && big + Pow2(order) < |v.pages|
    && Homes(r.v.pages) == Homes(v.pages)[big + Pow2(order) := FreeList(order)][big := UsedList(order)]
    && r.v.pages[big].count == v.pages[big].count
  }

  lemma InsideThenLinks(d: seq<Ppage>, d': seq<Ppage>, d'': seq<Ppage>, c: Block, p: nat)
    requires OnlyInside(d, d', c) && SameData(d', d'')
    ensures OnlyInside(d, d'', c) && (p < |d| ==> d''[p].count == d'[p].count)
  {}

  lemma EffectFollows(v: Phys, big: nat, order: nat, d': seq<Ppage>, r: Result)
    requires big + Pow2(order) < |v.pages| == |d'| && r.Done? && r.ppn == big
    requires HeapOf(d') == HalfHeap(HeapOf(v.pages), big, order)
    requires Homes(d') == Homes(v.pages)[big + Pow2(order) := FreeList(order)][big := UsedList(order)]
    requires OnlyInside(v.pages, d', Block(big, order + 1)) && d'[big].count == v.pages[big].count
    requires SameData(d', r.v.pages)
    ensures SplitEffect(v, big, order, r)
  {
    SameDataSameHeap(d', r.v.pages);
    InsideThenLinks(v.pages, d', r.v.pages, Block(big, order + 1), big);
    hide HeapOf, HalfHeap, Homes, OnlyInside;
  }

  lemma SplitHasEffect(v: Phys, lists: seq<seq<nat>>, big: nat, order: nat, s: seq<nat>, lists': seq<seq<nat>>)
    requires Valid(v, lists) && SplitMoves(lists, big, order, s, lists') && Block(big, order + 1) in LiveSet(v.pages)
    ensures SplitEffect(v, big, order, Split(Repaired, v, big, order))
    ensures Threaded(Split(Repaired, v, big, order).v, lists')
  {
    assert |v.heads| == LISTS && order + 1 < MAX_ORDER;
    hide Threads, Tiled, Split, SplitPages, SplitMoves, SameData, OnlyInside, FreeSet, LiveSet, Homes, SplitEffect,
         HalfHeap;
    UpperIsPlain(v.pages, big, order);
    SplitLists(v, lists, big, order, s, lists');
    SplitWrites(Repaired, v, big, order);
    HalvesEffect(v, big, order, Split(Repaired, v, big, order));
    SplitThreads(v, big, order, Split(Repaired, v, big, order), lists');
  }

  /** A held block can be split in either text. */
  lemma HeldSplits(text: Text, v: Phys, big: nat, order: nat)
    requires |v.heads| == LISTS && order + 1 < MAX_ORDER && Tiled(v.pages) && Block(big, order + 1) in LiveSet(v.pages)
    ensures big + Pow2(order) < |v.pages| && Split(text, v, big, order).Done?
    ensures SameData(SplitPages(v.pages, big, big + Pow2(order), order), Split(text, v, big, order).v.pages)
  {
    hide Tiled, Split, SplitPages, SameData, Pow2;
    UpperIsPlain(v.pages, big, order);
    SplitWrites(text, v, big, order);
  }

  lemma HalvesEffect(v: Phys, big: nat, order: nat, r: Result)
    requires Tiled(v.pages) && Block(big, order + 1) in LiveSet(v.pages) && big + Pow2(order) < |v.pages|
    requires r.Done? && r.ppn == big && SameData(SplitPages(v.pages, big, big + Pow2(order), order), r.v.pages)
    ensures SplitEffect(v, big, order, r)
  {
    hide Tiled, SplitPages, SameData, OnlyInside, Homes, SplitEffect, HalfHeap, HeapOf;
    SplitHeap(v.pages, big, order, SplitPages(v.pages, big, big + Pow2(order), order));
    EffectFollows(v, big, order, SplitPages(v.pages, big, big + Pow2(order), order), r);
  }

  lemma SplitThreads(v: Phys, big: nat, order: nat, r: Result, lists': seq<seq<nat>>)
    requires SplitEffect(v, big, order, r)
    requires Threads(r.v, lists', Homes(v.pages)[big + Pow2(order) := FreeList(order)][big := UsedList(order)])
    ensures Threaded(r.v, lists')
  {
    hide Threads, HeapOf, OnlyInside;
  }

  /** Halving the block just taken is the same as having taken the half. */
  lemma HalvedHeap(h: Heap, c: Block, order: nat)
    requires order < c.order && Block(c.head, order + 1) !in h.live
    ensures HalfHeap(TakenHeap(h, c, order + 1), c.head, order) == TakenHeap(h, c, order)
  {
    assert Offcuts(c, order) == Offcuts(c, order + 1) + {Block(c.head + Pow2(order), order)};
  }

  /** A heap that lost and gained the same pages still tiles them. */
  lemma StillTiled(d: seq<Ppage>, d': seq<Ppage>, c: Block, order: nat)
    requires Tiled(d) && |d'| == |d| && c in FreeSet(d) && order <= c.order
    requires HeapOf(d') == TakenHeap(HeapOf(d), c, order)
    ensures Tiled(d') && (Canonical(FreeSet(d)) ==> Canonical(FreeSet(d')))
    ensures Block(c.head, order) in LiveSet(d') && Block(c.head, order) !in LiveSet(d)
  {
    TakeKeeps(HeapOf(d), c, order, HeapOf(d'));
    ApartSets(FreeSet(d), LiveSet(d));
    Pow2Grows(order, c.order);
  }

  /** What an allocation does to blocks and descriptors, whatever becomes of the lists. */
  ghost predicate Took(v: Phys, lists: seq<seq<nat>>, order: nat, r: Result)
    requires Fits(lists, order)
  {
    var c := Source(lists, order);
    && r.Done?
    && r.ppn == c.head < |r.v.pages| && |r.v.heads| == LISTS
    && HeapOf(r.v.pages) == TakenHeap(HeapOf(v.pages), c, order)
    && OnlyInside(v.pages, r.v.pages, c)
    && r.v.pages[c.head].count == 1
  }

  /** The state an allocation of c reaches. */
  ghost predicate Allocated(v: Phys, lists: seq<seq<nat>>, order: nat, r: Result)
    requires Fits(lists, order)
  {
    Took(v, lists, order, r) && Valid(r.v, AllocLists(lists, order))
  }

  /** One level of the recursion: halving what the next order up returned. */
  lemma {:induction false} SplitAllocated(v: Phys, lists: seq<seq<nat>>, order: nat, r1: Result)
    requires Valid(v, lists) && order + 1 < MAX_ORDER && lists[FreeList(order)] == []
    requires Fits(lists, order + 1) && Allocated(v, lists, order + 1, r1)
    requires Source(lists, order + 1) in FreeSet(v.pages)
    ensures Fits(lists, order) && Source(lists, order) == Source(lists, order + 1)
    ensures Allocated(v, lists, order, Split(Repaired, r1.v, r1.ppn, order))
  {
    hide Threads, Split, SplitPages, Tiled, SplitMoves, AllocLists;
    var c, v1 := Source(lists, order + 1), r1.v;
    StillTiled(v.pages, v1.pages, c, order + 1);
    SplitListsMatch(lists, order);
    SplitHasEffect(v1, AllocLists(lists, order + 1), c.head, order, lists[UsedList(order + 1)],
                   AllocLists(lists, order));
    SplitHeapMatches(v, c, order, v1, Split(Repaired, v1, c.head, order));
  }

  lemma SplitHeapMatches(v: Phys, c: Block, order: nat, v1: Phys, r: Result)
    requires Tiled(v.pages) && c in FreeSet(v.pages) && order + 1 <= c.order
    requires HeapOf(v1.pages) == TakenHeap(HeapOf(v.pages), c, order + 1) && OnlyInside(v.pages, v1.pages, c)
    requires Block(c.head, order + 1) !in LiveSet(v.pages)
    requires SplitEffect(v1, c.head, order, r)
    ensures HeapOf(r.v.pages) == TakenHeap(HeapOf(v.pages), c, order)
    ensures OnlyInside(v.pages, r.v.pages, c) && Tiled(r.v.pages)
  {
    HalvedHeap(HeapOf(v.pages), c, order);
    hide TakenHeap, HalfHeap, OnlyInside, Tiled, FreeSet, LiveSet, Homes;
    SplitStaysInside(v.pages, v1.pages, r.v.pages, c, order);
    StillTiled(v.pages, r.v.pages, c, order);
  }

  lemma SplitListsMatch(lists: seq<seq<nat>>, order: nat)
    requires |lists| == LISTS && order + 1 < MAX_ORDER && lists[FreeList(order)] == [] && Fits(lists, order + 1)
    ensures Fits(lists, order) && Source(lists, order) == Source(lists, order + 1)
    ensures AllocLists(lists, order + 1)[UsedList(order + 1)] == lists[UsedList(order + 1)]
            + [Source(lists, order).head]
    ensures SplitMoves(AllocLists(lists, order + 1), Source(lists, order).head, order, lists[UsedList(order + 1)],
                       AllocLists(lists, order))
  {}

  lemma SplitStaysInside(d: seq<Ppage>, d1: seq<Ppage>, d2: seq<Ppage>, c: Block, order: nat)
    requires OnlyInside(d, d1, c) && OnlyInside(d1, d2, Block(c.head, order + 1)) && order + 1 <= c.order
    ensures OnlyInside(d, d2, c)
  {
    Pow2Grows(order + 1, c.order);
  }

  /** One level: the head of a list that is not empty is taken. */
  lemma TakesHead(v: Phys, lists: seq<seq<nat>>, order: nat)
    requires Valid(v, lists) && order < MAX_ORDER && lists[FreeList(order)] != []
    ensures Fits(lists, order) && BlockAlloc(Repaired, v, order) == TakeHead(v, order)
    ensures Allocated(v, lists, order, TakeHead(v, order))
  {
    assert IsClist(v.pages, v.heads[FreeList(order)], lists[FreeList(order)]);
    hide Threads, Tiled, IsClist, TakeHead, Split;
    SourceIsSmallestFit(v, lists, order);
    TakeHeadRefines(v, lists, order);
    StillTiled(v.pages, TakeHead(v, order).v.pages, Source(lists, order), order);
  }

  /** One level of the recursion, in either text. */
  lemma OneLevel(text: Text, v: Phys, order: nat)
    requires |v.heads| == LISTS && order < MAX_ORDER
    ensures BlockAlloc(text, v, order) ==
            if v.heads[FreeList(order)] != NULL then TakeHead(v, order)
            else match BlockAlloc(text, v, order + 1)
                 case Panic => Panic
                 case Done(v1, big) => Split(text, v1, big, order)
  {
    hide TakeHead, Split;
  }

  lemma HeadIsThere(v: Phys, lists: seq<seq<nat>>, at: seq<int>, order: nat)
    requires FreeThreads(v, lists, at) && order < MAX_ORDER
    ensures v.heads[FreeList(order)] == NULL <==> lists[FreeList(order)] == []
    ensures lists[FreeList(order)] != [] ==> v.heads[FreeList(order)] == lists[FreeList(order)][0] < |v.pages|
  {
    var k := FreeList(order);
    assert IsClist(v.pages, v.heads[k], lists[k]);
    if lists[k] != [] { assert LinkedAt(v.pages, lists[k], 0); }
  }

  lemma FitsNext(lists: seq<seq<nat>>, order: nat)
    requires |lists| == LISTS && order < MAX_ORDER && lists[FreeList(order)] == []
    ensures Fits(lists, order) <==> Fits(lists, order + 1)
  {}

  /** One level: with an empty list everything is up to the next one. */
  lemma AsksNext(text: Text, v: Phys, lists: seq<seq<nat>>, order: nat)
    requires Threaded(v, lists) && order < MAX_ORDER && lists[FreeList(order)] == []
    ensures |v.heads| == LISTS
    ensures Fits(lists, order) <==> Fits(lists, order + 1)
    ensures BlockAlloc(text, v, order) == match BlockAlloc(text, v, order + 1)
                                          case Panic => Panic
                                          case Done(v1, big) => Split(text, v1, big, order)
  {
    ThreadsAreFree(v, lists, Homes(v.pages));
    hide Threads, TakeHead, Split, BlockAlloc, Fits;
    HeadIsThere(v, lists, Homes(v.pages), order);
    FitsNext(lists, order);
    OneLevel(text, v, order);
  }

  /** The recursive code allocates the block at the head of the first list that is not
      empty, and fails exactly when no free block is large enough. */
  lemma {:induction false} AllocRefines(v: Phys, lists: seq<seq<nat>>, order: nat)
    requires Valid(v, lists) && order < MAX_ORDER
    ensures !Fits(lists, order) ==> BlockAlloc(Repaired, v, order).Panic?
    ensures Fits(lists, order) ==> Allocated(v, lists, order, BlockAlloc(Repaired, v, order))
    decreases MAX_ORDER - order
  {
    assert |lists| == LISTS;
    hide Threads, Tiled, Allocated, BlockAlloc, Split, FitOrder;
    if lists[FreeList(order)] != [] {
      TakesHead(v, lists, order);
    } else {
      AsksNext(Repaired, v, lists, order);
      if order + 1 < MAX_ORDER {
        AllocRefines(v, lists, order + 1);
        if Fits(lists, order + 1) { SplitsNext(v, lists, order, BlockAlloc(Repaired, v, order + 1)); }
      }
    }
  }

  lemma SplitsNext(v: Phys, lists: seq<seq<nat>>, order: nat, r1: Result)
    requires Valid(v, lists) && order + 1 < MAX_ORDER && lists[FreeList(order)] == [] && Fits(lists, order + 1)
    requires Allocated(v, lists, order + 1, r1)
    ensures Fits(lists, order) && r1.Done? && |r1.v.heads| == LISTS && r1.ppn < |r1.v.pages|
    ensures Allocated(v, lists, order, Split(Repaired, r1.v, r1.ppn, order))
  {
    assert r1.Done? && |r1.v.heads| == LISTS && r1.ppn < |r1.v.pages|;
    hide Threads, Tiled, Split, Allocated, FitOrder;
    SourceIsSmallestFit(v, lists, order + 1);
    SplitAllocated(v, lists, order, r1);
  }
}
