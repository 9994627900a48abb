/** How boot divides a range of pages into blocks: always the largest aligned block that
    starts at the next page and fits (src/kernel/mm/physical_pages.c:142-204). */
module PageRanges {
  import opened Blocks
  import opened FreeBlocks
  import opened BuddyRuns
  import opened Clist
  import opened BuddyLists
  import opened BuddyAlloc

  /** Whether a block of this order may start at page p of a range that ends before end. */
  predicate FitsAt(p: nat, order: nat, end: nat) {
    Low(p, order) == 0 && p + Pow2(order) <= end
  }

  /** The largest order, no larger than the given one, that fits at p. */
  function LargestFit(p: nat, end: nat, order: nat): (o: nat)
    requires p < end
    ensures o <= order && FitsAt(p, o, end)
    ensures forall i | o < i <= order :: !FitsAt(p, i, end)
  {
    if order == 0 || FitsAt(p, order, end) then order else LargestFit(p, end, order - 1)
  }

  function Greedy(p: nat, end: nat): (bs: seq<Block>)
    ensures p < end ==> |bs| > 0
    decreases end - p
  {
    if p >= end then []
    else
      var b := Block(p, LargestFit(p, end, MAX_ORDER - 1));
      [b] + Greedy(b.End(), end)
  }

  /** Consecutive aligned blocks from page p up to, not including, page end. */
  predicate TilesRange(bs: seq<Block>, p: nat, end: nat)
    decreases |bs|
  {
    if bs == [] then p == end
    else bs[0].head == p && bs[0].Aligned() && bs[0].order < MAX_ORDER && TilesRange(bs[1..], bs[0].End(), end)
  }

  lemma {:induction false} GreedyTiles(p: nat, end: nat)
    requires p <= end
    ensures TilesRange(Greedy(p, end), p, end)
    decreases end - p
  {
    if p < end {
      var b := Block(p, LargestFit(p, end, MAX_ORDER - 1));
      GreedyTiles(b.End(), end);
      assert Greedy(p, end)[1..] == Greedy(b.End(), end);
    }
  }

  lemma {:induction false} GreedyCovers(p: nat, end: nat, q: nat) returns (b: Block)
    requires p <= q < end
    ensures b in Greedy(p, end) && b.Covers(q)
    decreases end - p
  {
    b := Block(p, LargestFit(p, end, MAX_ORDER - 1));
    if q >= b.End() { b := GreedyCovers(b.End(), end, q); }
  }

  lemma {:induction false} GreedyInside(p: nat, end: nat, b: Block)
    requires p <= end && b in Greedy(p, end)
    ensures p <= b.head && b.End() <= end
    decreases end - p
  {
    var c := Greedy(p, end)[0];
    if b != c {
      assert Greedy(p, end) == [c] + Greedy(c.End(), end);
      GreedyInside(c.End(), end, b);
    }
  }

  /** The blocks of a range hold exactly its pages. */
  lemma GreedyHolds(p: nat, end: nat, q: int)
    requires p <= end
    ensures Holds(BlocksOf(Greedy(p, end)), q) <==> p <= q < end
  {
    if p <= q < end { var b := GreedyCovers(p, end, q); }
    if Holds(BlocksOf(Greedy(p, end)), q) {
      var b :| b in BlocksOf(Greedy(p, end)) && b.Covers(q);
      GreedyInside(p, end, b);
    }
  }

  /** From any page inside the first greedy block, going on takes at least as many blocks
      as going on from its end. */
  lemma {:induction false} NoShortcut(p: nat, q: nat, end: nat)
    requires p < end
    requires var b := Greedy(p, end)[0]; p < q <= b.End()
    ensures |Greedy(q, end)| >= |Greedy(Greedy(p, end)[0].End(), end)|
    decreases end - q
  {
    var b := Greedy(p, end)[0];
    if q < b.End() {
      var c := Greedy(q, end)[0];
      assert c.Aligned() && b.Aligned() && b.End() <= end;
      if c.order <= b.order { NestedOrApart(c, b); } else { NestedOrApart(b, c); }
      assert c.End() <= b.End();
      NoShortcut(p, c.End(), end);
    }
  }

  /** The greedy division of a range uses the fewest blocks of any division. */
  lemma {:induction false} FewestBlocks(bs: seq<Block>, p: nat, end: nat)
    requires TilesRange(bs, p, end)
    ensures |Greedy(p, end)| <= |bs|
    decreases |bs|
  {
    if bs != [] {
      var q := bs[0].End();
      TilesForward(bs[1..], q, end);
      FewestBlocks(bs[1..], q, end);
      var b := Greedy(p, end)[0];
      assert FitsAt(p, bs[0].order, end) && bs[0].order <= b.order;
      Pow2Grows(bs[0].order, b.order);
      NoShortcut(p, q, end);
    }
  }

  lemma {:induction false} TilesForward(bs: seq<Block>, p: nat, end: nat)
    requires TilesRange(bs, p, end)
    ensures p <= end
    decreases |bs|
  {
    if bs != [] { TilesForward(bs[1..], bs[0].End(), end); }
  }

  // ----- the greedy blocks as a set -----

  ghost function BlocksOf(bs: seq<Block>): set<Block> {
    set b | b in bs
  }

  /** Each greedy block is the largest that fits where it starts. */
  lemma {:induction false} GreedyMember(p: nat, end: nat, b: Block)
    requires b in Greedy(p, end)
    ensures p <= b.head < end && b.order == LargestFit(b.head, end, MAX_ORDER - 1)
    decreases end - p
  {
    var c := Greedy(p, end)[0];
    if b != c {
      assert Greedy(p, end) == [c] + Greedy(c.End(), end);
      GreedyMember(c.End(), end, b);
    }
  }

  /** Boot leaves the free blocks in canonical form: no two buddies in one range. */
  lemma GreedyIsCanonical(p: nat, end: nat)
    ensures Canonical(BlocksOf(Greedy(p, end)))
  {
    forall b | b in BlocksOf(Greedy(p, end)) && b.order < MAX_ORDER - 1
      ensures b.Buddy() !in BlocksOf(Greedy(p, end))
    {
      GreedyMember(p, end, b);
      if b.Buddy() in Greedy(p, end) {
        GreedyMember(p, end, b.Buddy());
        ParentWouldFit(b, end);
      }
    }
  }

  lemma ParentWouldFit(b: Block, end: nat)
    requires b.Aligned() && b.End() <= end && b.Buddy().End() <= end
    ensures FitsAt(b.Parent().head, b.order + 1, end)
    ensures b.Parent().head == b.head || b.Parent().head == b.Buddy().head
  {
    BuddyFacts(b);
  }

  // ----- descriptors and lists -----

  // PPAGE_STATUS_FREE and PPAGE_STATUS_USED: the reference count every page starts with.
  const STATUS_FREE: nat := 0
  const STATUS_USED: nat := 1

  function HeadPage(order: nat, status: nat): Ppage {
    Ppage(true, order, status, 0, 0, NULL, NULL)
  }

  function InnerPage(order: nat, status: nat): Ppage {
    Ppage(false, order, status, 0, 0, NULL, NULL)
  }

  function StatusList(order: nat, status: nat): nat {
    if status == STATUS_FREE then FreeList(order) else UsedList(order)
  }

  /** Descriptors and lists once a block has been set up behind all pages set up so far. */
  function WithBlock(v: Phys, order: nat, status: nat): (v': Phys)
    requires |v.heads| == LISTS && order < MAX_ORDER
    ensures |v'.heads| == LISTS && |v'.pages| == |v.pages| + Pow2(order)
  {
    var inner := seq(Pow2(order) - 1, i => InnerPage(order, status));
    Link(Phys(v.pages + [HeadPage(order, status)] + inner, v.heads), StatusList(order, status), |v.pages|)
  }

  /** The same in two steps: the head, which joins its list, and then the other pages. */
  function WithHead(v: Phys, order: nat, status: nat): (v': Phys)
    requires |v.heads| == LISTS && order < MAX_ORDER
    ensures |v'.heads| == LISTS && |v'.pages| == |v.pages| + 1
  {
    Link(v.(pages := v.pages + [HeadPage(order, status)]), StatusList(order, status), |v.pages|)
  }

  function WithInner(v: Phys, order: nat, status: nat): Phys {
    v.(pages := v.pages + seq(Pow2(order) - 1, i => InnerPage(order, status)))
  }

  /** Descriptors and lists once the blocks bs have been set up one after the other. */
  function WithBlocks(v: Phys, bs: seq<Block>, status: nat): (v': Phys)
    requires |v.heads| == LISTS && forall b | b in bs :: b.order < MAX_ORDER
    ensures |v'.heads| == LISTS
    decreases |bs|
  {
    if bs == [] then v else WithBlocks(WithBlock(v, bs[0].order, status), bs[1..], status)
  }

  ghost function ListsWith(lists: seq<seq<nat>>, b: Block, status: nat): (lists': seq<seq<nat>>)
    requires |lists| == LISTS && b.order < MAX_ORDER
    ensures |lists'| == LISTS
  {
    var k := StatusList(b.order, status);
    lists[k := lists[k] + [b.head]]
  }

  ghost function HeapWith(h: Heap, bs: set<Block>, status: nat): Heap {
    if status == STATUS_FREE then Heap(h.free + bs, h.live) else Heap(h.free, h.live + bs)
  }

  /** Descriptors appended behind a list leave it alone. */
  lemma ExtendKeeps(v: Phys, lists: seq<seq<nat>>, at: seq<int>, more: seq<Ppage>, at': seq<int>)
    requires Threads(v, lists, at) && |at'| == |at| + |more|
    requires forall i | 0 <= i < |at'| :: at'[i] == if i < |at| then at[i] else -1
    ensures Threads(Phys(v.pages + more, v.heads), lists, at')
  {
    forall k | 0 <= k < LISTS
      ensures IsClist(v.pages + more, v.heads[k], lists[k]) && HoldsPagesAt(lists[k], at', k)
    {
      assert HoldsPagesAt(lists[k], at, k) && IsClist(v.pages, v.heads[k], lists[k]);
      ListUnaffected(v.pages, v.heads[k], lists[k], v.pages + more);
    }
  }

  lemma WithBlockThreaded(v: Phys, lists: seq<seq<nat>>, order: nat, status: nat)
    requires Threaded(v, lists) && order < MAX_ORDER
    ensures Threaded(WithBlock(v, order, status), ListsWith(lists, Block(|v.pages|, order), status))
    ensures var d := v.pages + [HeadPage(order, status)] + seq(Pow2(order) - 1, i => InnerPage(order, status));
            SameData(d, WithBlock(v, order, status).pages)
  {
    var p, k := |v.pages|, StatusList(order, status);
    var more := [HeadPage(order, status)] + seq(Pow2(order) - 1, i => InnerPage(order, status));
    var d := v.pages + [HeadPage(order, status)] + seq(Pow2(order) - 1, i => InnerPage(order, status));
    assert d == v.pages + more;
    var at := Homes(v.pages) + seq(Pow2(order), i => -1);
    ExtendKeeps(v, lists, Homes(v.pages), more, at);
    LinkKeeps(Phys(d, v.heads), lists, at, k, p);
    SameDataSameHeap(d, WithBlock(v, order, status).pages);
    assert Homes(d) == at[p := k];
  }

  lemma WithBlockHeap(v: Phys, lists: seq<seq<nat>>, order: nat, status: nat)
    requires Threaded(v, lists) && order < MAX_ORDER
    ensures HeapOf(WithBlock(v, order, status).pages) == HeapWith(HeapOf(v.pages), {Block(|v.pages|, order)}, status)
  {
    WithBlockThreaded(v, lists, order, status);
    var d := v.pages + [HeadPage(order, status)] + seq(Pow2(order) - 1, i => InnerPage(order, status));
    SameDataSameHeap(d, WithBlock(v, order, status).pages);
    var b := Block(|v.pages|, order);
    MorePages(v.pages, order, status, d);
    hide FreeSet, LiveSet, Threaded, WithBlock, HeadPage, InnerPage;
  }

  lemma MorePages(pages: seq<Ppage>, order: nat, status: nat, d: seq<Ppage>)
    requires d == pages + [HeadPage(order, status)] + seq(Pow2(order) - 1, i => InnerPage(order, status))
    ensures FreeSet(d) == FreeSet(pages) + (if status == STATUS_FREE then {Block(|pages|, order)} else {})
    ensures LiveSet(d) == LiveSet(pages) + (if status == STATUS_FREE then {} else {Block(|pages|, order)})
  {}

  lemma WithBlockTiled(d: seq<Ppage>, b: Block, status: nat, d': seq<Ppage>)
    requires Tiled(d) && b.head == |d| && b.Aligned() && b.order < MAX_ORDER && |d'| == b.End()
    requires HeapOf(d') == HeapWith(HeapOf(d), {b}, status)
    ensures Tiled(d')
  {
    var all := FreeSet(d) + LiveSet(d);
    forall c | c in all ensures c.Apart(b) {
      assert c.Covers(c.End() - 1) && Holds(all, c.End() - 1);
    }
    PackedAdd(all, b);
    assert FreeSet(d') + LiveSet(d') == all + {b};
    assert b !in all;
    forall p ensures Holds(all + {b}, p) <==> 0 <= p < |d'| {
      HoldsUnion(all, {b}, p);
      HoldsOne(b, p);
    }
  }

  /** Setting up one aligned block keeps descriptors, lists and blocks in step. */
  lemma WithBlockKeeps(v: Phys, lists: seq<seq<nat>>, order: nat, status: nat)
    requires Valid(v, lists) && order < MAX_ORDER && Low(|v.pages|, order) == 0
    ensures var b, v' := Block(|v.pages|, order), WithBlock(v, order, status);
            && Valid(v', ListsWith(lists, b, status))
            && HeapOf(v'.pages) == HeapWith(HeapOf(v.pages), {b}, status)
  {
    WithBlockThreaded(v, lists, order, status);
    WithBlockHeap(v, lists, order, status);
    WithBlockTiled(v.pages, Block(|v.pages|, order), status, WithBlock(v, order, status).pages);
  }

  // ----- a whole range -----

  ghost function ListsAfter(lists: seq<seq<nat>>, bs: seq<Block>, status: nat): (lists': seq<seq<nat>>)
    requires |lists| == LISTS && forall b | b in bs :: b.order < MAX_ORDER
    ensures |lists'| == LISTS
    decreases |bs|
  {
    if bs == [] then lists else ListsAfter(ListsWith(lists, bs[0], status), bs[1..], status)
  }

  lemma GreedyOrders(p: nat, end: nat)
    ensures forall b | b in Greedy(p, end) :: b.order < MAX_ORDER
  {
    forall b | b in Greedy(p, end) ensures b.order < MAX_ORDER { GreedyMember(p, end, b); }
  }

  lemma HeapWithMore(h: Heap, b: Block, bs: set<Block>, status: nat)
    ensures HeapWith(HeapWith(h, {b}, status), bs, status) == HeapWith(h, {b} + bs, status)
  {
    assert h.free + {b} + bs == h.free + ({b} + bs);
    assert h.live + {b} + bs == h.live + ({b} + bs);
  }

  lemma HeapWithNone(h: Heap, status: nat)
    ensures HeapWith(h, {}, status) == h
  {
    assert h.free + {} == h.free && h.live + {} == h.live;
  }

  /** Setting up the blocks bs behind all pages of v turns the pages up to end into exactly
      these blocks, all free or all used, and keeps descriptors, lists and blocks in step. */
  ghost predicate SetUp(v: Phys, lists: seq<seq<nat>>, bs: seq<Block>, end: nat, status: nat) {
    && |v.heads| == LISTS && |lists| == LISTS && (forall b | b in bs :: b.order < MAX_ORDER)
    && Valid(WithBlocks(v, bs, status), ListsAfter(lists, bs, status))
    && |WithBlocks(v, bs, status).pages| == end
    && HeapOf(WithBlocks(v, bs, status).pages) == HeapWith(HeapOf(v.pages), BlocksOf(bs), status)
  }

  /** The greedy blocks of a range are set up so. */
  lemma {:induction false} RangeKeeps(v: Phys, lists: seq<seq<nat>>, end: nat, status: nat)
    requires Valid(v, lists) && |v.pages| <= end
    ensures SetUp(v, lists, Greedy(|v.pages|, end), end, status)
    decreases end - |v.pages|
  {
    var p := |v.pages|;
    var bs := Greedy(p, end);
    if p < end {
      var b := bs[0];
      assert bs == [b] + Greedy(b.End(), end);
      assert b == Block(p, b.order) && Low(p, b.order) == 0 && b.End() <= end;
      hide BuddyAlloc.Valid, WithBlock, ListsWith, HeapOf, HeapWith, Greedy, LargestFit, Low, SetUp;
      WithBlockKeeps(v, lists, b.order, status);
      RangeKeeps(WithBlock(v, b.order, status), ListsWith(lists, b, status), end, status);
      SetUpMore(v, lists, b, Greedy(b.End(), end), end, status);
    } else {
      NothingSetUp(v, lists, status);
    }
  }

  lemma NothingSetUp(v: Phys, lists: seq<seq<nat>>, status: nat)
    requires Valid(v, lists)
    ensures SetUp(v, lists, [], |v.pages|, status)
  {
    assert BlocksOf([]) == {};
    HeapWithNone(HeapOf(v.pages), status);
  }

  lemma SetUpMore(v: Phys, lists: seq<seq<nat>>, b: Block, bs: seq<Block>, end: nat, status: nat)
    requires |v.heads| == LISTS && |lists| == LISTS && b.order < MAX_ORDER && b.head == |v.pages|
    requires HeapOf(WithBlock(v, b.order, status).pages) == HeapWith(HeapOf(v.pages), {b}, status)
    requires SetUp(WithBlock(v, b.order, status), ListsWith(lists, b, status), bs, end, status)
    ensures SetUp(v, lists, [b] + bs, end, status)
  {
    hide BuddyAlloc.Valid, WithBlock, ListsWith, HeapOf, HeapWith;
    assert ([b] + bs)[1..] == bs;
    HeapWithMore(HeapOf(v.pages), b, BlocksOf(bs), status);
    assert BlocksOf([b] + bs) == {b} + BlocksOf(bs);
  }

  // ----- what pushing does to descriptors behind the list -----

  lemma PushPrefix(d: seq<Ppage>, n: nat, list: int, s: seq<nat>, el: nat)
    requires n <= |d| && IsClist(d[..n], list, s) && el < n
    ensures Push(d, list, el)[..n] == Push(d[..n], list, el)
    ensures Push(d, list, el)[n..] == d[n..]
  {
    if s != [] {
      assert LinkedAt(d[..n], s, 0) && LinkedAt(d[..n], s, |s| - 1);
    }
  }

  lemma PushIgnoresOldLinks(d: seq<Ppage>, list: int, s: seq<nat>, el: nat, p: int, n: int)
    requires IsClist(d, list, s) && el < |d| && el !in s
    ensures Push(d[el := d[el].(prev := p, next := n)], list, el) == Push(d, list, el)
  {
    if s != [] {
      assert LinkedAt(d, s, 0) && LinkedAt(d, s, |s| - 1);
    }
  }

  lemma WithBlockInSteps(v: Phys, lists: seq<seq<nat>>, order: nat, status: nat)
    requires Threaded(v, lists) && order < MAX_ORDER
    ensures WithBlock(v, order, status)
         == WithInner(WithHead(v, order, status), order, status)
  {
    var k, p := StatusList(order, status), |v.pages|;
    var clean, inner := v.pages + [HeadPage(order, status)], seq(Pow2(order) - 1, i => InnerPage(order, status));
    assert IsClist(v.pages, v.heads[k], lists[k]);
    hide Threaded, IsClist, Push, PushedTail, HeadPage, InnerPage;
    ListUnaffected(v.pages, v.heads[k], lists[k], clean);
    assert (clean + inner)[..p + 1] == clean && (clean + inner)[p + 1..] == inner;
    PushPrefix(clean + inner, p + 1, v.heads[k], lists[k], p);
    var pushed := Push(clean + inner, v.heads[k], p);
    assert pushed == pushed[..p + 1] + pushed[p + 1..];
  }

  // ----- pages that were just set up -----

  /** No page belongs to a slab or is mapped, and no block has more than one user. */
  ghost predicate Pristine(d: seq<Ppage>) {
    forall i | 0 <= i < |d| :: d[i].slab == 0 && d[i].mapping == 0 && d[i].count <= 1
  }

  lemma WithBlockIsPristine(v: Phys, order: nat, status: nat)
    requires |v.heads| == LISTS && order < MAX_ORDER && Pristine(v.pages) && status <= 1
    ensures Pristine(WithBlock(v, order, status).pages)
  {
    var inner := seq(Pow2(order) - 1, i => InnerPage(order, status));
    var d := v.pages + [HeadPage(order, status)] + inner;
    var k := StatusList(order, status);
    assert Pristine(d);
    PushKeepsData(d, v.heads[k], |v.pages|);
  }

  lemma PushKeepsData(d: seq<Ppage>, list: int, el: int)
    ensures SameData(d, Push(d, list, el))
  {}

  /** Before boot there are no descriptors and twenty empty lists. */
  lemma NothingIsValid(v: Phys, lists: seq<seq<nat>>)
    requires v.pages == [] && v.heads == seq(LISTS, i => NULL) && |lists| == LISTS
    requires forall k | 0 <= k < LISTS :: lists[k] == []
    ensures Valid(v, lists) && HeapOf(v.pages) == Heap({}, {})
  {
    assert FreeSet(v.pages) == {} && LiveSet(v.pages) == {};
  }

  /** The free blocks of two ranges with a used page in between are canonical together. */
  lemma CanonicalApart(p: nat, q: nat, r: nat, end: nat)
    requires q < r || p >= q
    ensures Canonical(BlocksOf(Greedy(p, q)) + BlocksOf(Greedy(r, end)))
  {
    var bs, cs := BlocksOf(Greedy(p, q)), BlocksOf(Greedy(r, end));
    GreedyIsCanonical(p, q);
    GreedyIsCanonical(r, end);
    forall b: Block | b in bs + cs && b.order < MAX_ORDER - 1 ensures b.Buddy() !in bs + cs {
      if b in bs { BuddyStaysLow(p, q, r, end, b); } else { BuddyStaysHigh(p, q, r, end, b); }
    }
  }

  lemma BuddyStaysLow(p: nat, q: nat, r: nat, end: nat, b: Block)
    requires q < r && b in Greedy(p, q)
    ensures b.Buddy() !in Greedy(r, end)
  {
    GreedyMember(p, q, b);
    BuddyFacts(b);
    if b.Buddy() in Greedy(r, end) { GreedyMember(r, end, b.Buddy()); }
  }

  lemma BuddyStaysHigh(p: nat, q: nat, r: nat, end: nat, b: Block)
    requires (q < r || p >= q) && b in Greedy(r, end)
    ensures b.Buddy() !in Greedy(p, q)
  {
    GreedyMember(r, end, b);
    BuddyFacts(b);
    if b.Buddy() in Greedy(p, q) { GreedyMember(p, q, b.Buddy()); }
  }
}
