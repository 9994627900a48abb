/** _ppage_block_free (src/kernel/mm/physical_pages.c:336-378) on descriptors and
    lists, and its refinement of freeing on sets of blocks. */
module BuddyFree {
  import opened Blocks
  import opened FreeBlocks
  import opened BuddyRuns
  import opened Clist
  import opened BuddyLists
  import opened BuddyAlloc

  // ----- the code -----

  /** The descriptor writes of a merge step (lines 361-367). */
  function MergePages(pages: seq<Ppage>, block: nat, buddy: nat, merged: nat, order: nat): (pages': seq<Ppage>)
    requires block < |pages| && buddy < |pages| && merged < |pages|
    ensures |pages'| == |pages|
  {
    var d1 := pages[block := pages[block].(head := false)];
    var d2 := d1[buddy := d1[buddy].(head := false)];
    d2[merged := d2[merged].(head := true, order := order + 1)]
  }

  /** The test that ends the merge loop (lines 356-358). */
  predicate MergeTest(pages: seq<Ppage>, buddy: nat, order: nat)
    requires buddy < |pages|
  {
    pages[buddy].count == 0 && pages[buddy].head && pages[buddy].order == order
  }

  /** The state after one turn of the loop that merges x and buddy. */
  function Turned(v: Phys, x: Block, buddy: nat, merged: nat): (v': Phys)
    requires |v.heads| == LISTS && x.order < MAX_ORDER
    requires x.head < |v.pages| && buddy < |v.pages| && merged < |v.pages|
    ensures |v'.heads| == LISTS && |v'.pages| == |v.pages|
  {
    var v1 := Unlink(v, FreeList(x.order), buddy);
    v1.(pages := MergePages(v1.pages, x.head, buddy, merged, x.order))
  }

  /** The merge loop and the push that ends it (lines 351-377). */
  function MergeLoop(text: Text, v: Phys, block: nat, order: nat): (r: Result)
    requires |v.heads| == LISTS && block < |v.pages| && order < MAX_ORDER
    ensures r.Done? ==> |r.v.heads| == LISTS && |r.v.pages| == |v.pages| && r.ppn < |v.pages|
    decreases MAX_ORDER - order
  {
    if order >= MAX_ORDER - 1 then Done(Link(v, FreeList(order), block), block)
    else
      var buddy := FindBuddy(text, Block(block, v.pages[block].order)).head;
      if buddy >= |v.pages| then Panic
      else if MergeTest(v.pages, buddy, order) then
        var merged := And(block, buddy);
        if merged >= |v.pages| then Panic
        else MergeLoop(text, Turned(v, Block(block, order), buddy, merged), merged, order + 1)
      else Done(Link(v, FreeList(order), block), block)
  }

  /** The KASSERTs on entry (lines 338-345). */
  predicate Freeable(v: Phys, block: nat, order: nat) {
    && block < |v.pages| && order < MAX_ORDER
    && v.pages[block].head && v.pages[block].order == order && v.pages[block].count == 1
    && v.pages[block].mapping == 0 && v.pages[block].slab == 0
  }

  /** The block leaves its used list and counts as free (lines 347-348). */
  function TakenBack(v: Phys, block: nat, order: nat): (v': Phys)
    requires |v.heads| == LISTS && block < |v.pages| && order < MAX_ORDER
    ensures |v'.heads| == LISTS && |v'.pages| == |v.pages|
  {
    var v1 := Unlink(v, UsedList(order), block);
    v1.(pages := v1.pages[block := v1.pages[block].(count := 0)])
  }

  function BlockFree(text: Text, v: Phys, block: nat, order: nat): (r: Result)
    requires |v.heads| == LISTS
    ensures r.Done? ==> |r.v.heads| == LISTS && |r.v.pages| == |v.pages|
  {
    if !Freeable(v, block, order) then Panic
    else MergeLoop(text, TakenBack(v, block, order), block, order)
  }

  // ----- links that are followed -----

  /** The merge loop, with x in hand, or the push behind it follows a link that is NULL. */
  ghost predicate MergeFollows(text: Text, v: Phys, x: Block)
    requires |v.heads| == LISTS && x.head < |v.pages| && x.order < MAX_ORDER
    decreases MAX_ORDER - x.order
  {
    var list, buddy := v.heads[FreeList(x.order)], FindBuddy(text, x).head;
    if x.order < MAX_ORDER - 1 && buddy < |v.pages| && MergeTest(v.pages, buddy, x.order) then
      var merged := And(x.head, buddy);
      || DeleteFollows(v.pages, list, buddy)
      || (merged < |v.pages| && MergeFollows(text, Turned(v, x, buddy, merged), Block(merged, x.order + 1)))
    else PushFollows(v.pages, list)
  }

  /** _ppage_block_free does. */
  ghost predicate FreeFollows(text: Text, v: Phys, x: Block)
    requires |v.heads| == LISTS && Freeable(v, x.head, x.order)
  {
    || DeleteFollows(v.pages, v.heads[UsedList(x.order)], x.head)
    || MergeFollows(text, TakenBack(v, x.head, x.order), x)
  }

  // ----- what becomes of the lists -----

  ghost function IndexOf(s: seq<nat>, p: nat): (i: nat)
    requires p in s
    ensures i < |s| && s[i] == p
  {
    var i :| 0 <= i < |s| && s[i] == p; i
  }

  /** Every buddy that is merged leaves its free list; the merged block joins the tail of
      the free list of its final order. */
  ghost function MergeLists(lists: seq<seq<nat>>, x: Block): (lists': seq<seq<nat>>)
    requires |lists| == LISTS && x.order < MAX_ORDER
    ensures |lists'| == LISTS
    decreases MAX_ORDER - x.order
  {
    var s := lists[FreeList(x.order)];
    if x.order < MAX_ORDER - 1 && x.Buddy().head in s then
      MergeLists(lists[FreeList(x.order) := Without(s, IndexOf(s, x.Buddy().head))], x.Parent())
    else lists[FreeList(x.order) := s + [x.head]]
  }

  ghost function FreeLists(lists: seq<seq<nat>>, x: Block): (lists': seq<seq<nat>>)
    requires |lists| == LISTS && x.order < MAX_ORDER && x.head in lists[UsedList(x.order)]
    ensures |lists'| == LISTS
  {
    var s := lists[UsedList(x.order)];
    MergeLists(lists[UsedList(x.order) := Without(s, IndexOf(s, x.head))], x)
  }

  // ----- refinement -----

  /** Memory ends on a boundary of the largest order, so no buddy lies beyond it
      (src/kernel/main.c:50, src/kernel/main.c:66). */
  ghost predicate WholeBlocks(pages: seq<Ppage>) {
    Low(|pages|, MAX_ORDER - 1) == 0
  }

  lemma ParentFits(x: Block, n: nat)
    requires x.Aligned() && x.order < MAX_ORDER - 1 && x.End() <= n && Low(n, MAX_ORDER - 1) == 0
    ensures x.Parent().End() <= n && x.Buddy().End() <= n
  {
    BuddyFacts(x);
    AlignedBelow(n, x.order + 1, MAX_ORDER - 1);
    MultiplesApart(x.Parent().head, n, x.order + 1);
  }

  /** The block being freed heads a block of free pages but is on no list yet. */
  ghost predicate InHand(v: Phys, lists: seq<seq<nat>>, x: Block) {
    && x in FreeSet(v.pages)
    && Threads(v, lists, Homes(v.pages)[x.head := -1])
    && Tiled(v.pages) && WholeBlocks(v.pages)
  }

  lemma InHandFacts(v: Phys, lists: seq<seq<nat>>, x: Block)
    requires InHand(v, lists, x)
    ensures |v.heads| == |lists| == LISTS
    ensures x.Aligned() && x.order < MAX_ORDER && x.End() <= |v.pages|
    ensures Packed(FreeSet(v.pages) - {x}) && ApartFrom(FreeSet(v.pages) - {x}, x)
  {
    var f := FreeSet(v.pages);
    assert x in f + LiveSet(v.pages);
    assert x.Covers(x.End() - 1) && Holds(f + LiveSet(v.pages), x.End() - 1);
    PackedPart(f + LiveSet(v.pages), f);
    PackedPart(f + LiveSet(v.pages), f - {x});
  }

  /** The code's test finds the buddy free exactly when it is a free block, and then it
      is on the free list of that order. */
  lemma TestMeansFree(v: Phys, lists: seq<seq<nat>>, x: Block)
    requires InHand(v, lists, x) && x.order < MAX_ORDER - 1
    ensures x.Aligned() && FindBuddy(Repaired, x) == x.Buddy() && x.Buddy().head < |v.pages|
    ensures MergeTest(v.pages, x.Buddy().head, x.order) <==> Merges(Repaired, FreeSet(v.pages) - {x}, x)
    ensures MergeTest(v.pages, x.Buddy().head, x.order) <==> x.Buddy() in FreeSet(v.pages)
    ensures MergeTest(v.pages, x.Buddy().head, x.order) <==> x.Buddy().head in lists[FreeList(x.order)]
  {
    InHandFacts(v, lists, x);
    RepairedStep(x);
    BuddyFacts(x);
    ParentFits(x, |v.pages|);
    assert HoldsPagesAt(lists[FreeList(x.order)], Homes(v.pages)[x.head := -1], FreeList(x.order));
  }

  lemma MergeStepLists(v: Phys, lists: seq<seq<nat>>, x: Block, i: nat)
    requires InHand(v, lists, x) && x.order < MAX_ORDER - 1
    requires i < |lists[FreeList(x.order)]| && x.Buddy().head == lists[FreeList(x.order)][i]
    ensures x.Buddy().head < |v.pages| && x.Parent().head < |v.pages|
    ensures var v1 := Unlink(v, FreeList(x.order), x.Buddy().head);
            && OnlyLinks(v.pages, v1.pages, lists[FreeList(x.order)])
            && Threads(v1.(pages := MergePages(v1.pages, x.head, x.Buddy().head, x.Parent().head, x.order)),
                       lists[FreeList(x.order) := Without(lists[FreeList(x.order)], i)],
                       Homes(v.pages)[x.head := -1][x.Buddy().head := -1])
  {
    TestMeansFree(v, lists, x);
    BuddyFacts(x);
    var at, k, b := Homes(v.pages)[x.head := -1], FreeList(x.order), x.Buddy().head;
    UnlinkKeeps(v, lists, at, k, i);
    var v1 := Unlink(v, k, b);
    RelabelKeeps(v1, lists[k := Without(lists[k], i)], at[b := -1],
                 MergePages(v1.pages, x.head, b, x.Parent().head, x.order));
  }

  /** The data of a merge step: x and its buddy become their parent. */
  lemma MergeStepHeap(d: seq<Ppage>, x: Block)
    requires x.Aligned() && x in FreeSet(d) && x.Buddy() in FreeSet(d)
    ensures x.Parent().head < |d|
    ensures var d' := MergePages(d, x.head, x.Buddy().head, x.Parent().head, x.order);
            && FreeSet(d') == FreeSet(d) - {x} - {x.Buddy()} + {x.Parent()}
            && LiveSet(d') == LiveSet(d)
            && Homes(d')[x.Parent().head := -1] == Homes(d)[x.head := -1][x.Buddy().head := -1]
  {
    BuddyFacts(x);
  }

  /** Replacing two buddies by their parent covers the same pages. */
  lemma MergeStepTiled(h: Heap, x: Block, h': Heap)
    requires Tidy(h) && x in h.free && x.Buddy() in h.free && x.order < MAX_ORDER - 1
    requires h' == Heap(h.free - {x} - {x.Buddy()} + {x.Parent()}, h.live)
    ensures Tidy(h') && SamePages(h'.free + h'.live, h.free + h.live)
  {
    var f, g := h.free - {x}, Heap(h.free - {x}, h.live + {x});
    assert g.free + g.live == h.free + h.live;
    LiveApart(g, x);
    BuddyFacts(x);
    ParentApart(f, x);
    PackedPart(f, f - {x.Buddy()});
    AddedWithoutMerge(f - {x.Buddy()}, x.Parent());
    forall p ensures Holds(h'.free, p) <==> Holds(f, p) || x.Covers(p) {
      BuddyRemoved(f, x, p);
    }
    assert h'.live == g.live - {x};
    GiveKeeps(g, x, h');
  }

  /** The state after one merge step. */
  function MergedState(v: Phys, x: Block): Phys
    requires |v.heads| == LISTS && x.order < MAX_ORDER
    requires x.head < |v.pages| && x.Buddy().head < |v.pages| && x.Parent().head < |v.pages|
  {
    Turned(v, x, x.Buddy().head, x.Parent().head)
  }

  /** No count, slab or mapping changes. */
  ghost predicate KeepsRest(d: seq<Ppage>, d': seq<Ppage>) {
    |d'| == |d| && forall i: nat | i < |d| ::
      d'[i].count == d[i].count && d'[i].slab == d[i].slab && d'[i].mapping == d[i].mapping
  }

  lemma MergedHeap(v: Phys, lists: seq<seq<nat>>, x: Block)
    requires InHand(v, lists, x) && x.order < MAX_ORDER - 1 && x.Buddy() in FreeSet(v.pages)
    requires OnlyLinks(v.pages, Unlink(v, FreeList(x.order), x.Buddy().head).pages, lists[FreeList(x.order)])
    ensures x.Aligned() && x.Buddy().head < |v.pages| && x.Parent().head < |v.pages|
    ensures var v' := MergedState(v, x);
            && x.Parent() in FreeSet(v'.pages)
            && FreeSet(v'.pages) - {x.Parent()} == FreeSet(v.pages) - {x} - {x.Buddy()}
            && LiveSet(v'.pages) == LiveSet(v.pages) && Tiled(v'.pages)
            && Homes(v'.pages)[x.Parent().head := -1] == Homes(v.pages)[x.head := -1][x.Buddy().head := -1]
  {
    InHandFacts(v, lists, x);
    BuddyFacts(x);
    var v1 := Unlink(v, FreeList(x.order), x.Buddy().head);
    SameDataSameHeap(v.pages, v1.pages);
    MergeStepHeap(v1.pages, x);
    ParentIsNew(v.pages, x);
    MergeStepTiled(HeapOf(v.pages), x, HeapOf(MergedState(v, x).pages));
  }

  lemma MergeStepInHand(v: Phys, lists: seq<seq<nat>>, x: Block, i: nat)
    requires InHand(v, lists, x) && x.order < MAX_ORDER - 1
    requires i < |lists[FreeList(x.order)]| && x.Buddy().head == lists[FreeList(x.order)][i]
    ensures x.Buddy().head < |v.pages| && x.Parent().head < |v.pages|
    ensures var v' := MergedState(v, x);
            && InHand(v', lists[FreeList(x.order) := Without(lists[FreeList(x.order)], i)], x.Parent())
            && FreeSet(v'.pages) - {x.Parent()} == FreeSet(v.pages) - {x} - {x.Buddy()}
            && LiveSet(v'.pages) == LiveSet(v.pages)
            && KeepsRest(v.pages, v'.pages)
  {
    TestMeansFree(v, lists, x);
    MergeStepLists(v, lists, x, i);
    MergedHeap(v, lists, x);
    TurnKeepsRest(v, x, x.Buddy().head, x.Parent().head);
    hide Threads, Tiled, Homes, KeepsRest, OnlyLinks, MergePages, Unlink, FreeSet, LiveSet, MergeTest, Block.Buddy,
         Block.Parent;
  }

  lemma KeepsRestTrans(d: seq<Ppage>, d1: seq<Ppage>, d2: seq<Ppage>)
    requires KeepsRest(d, d1) && KeepsRest(d1, d2)
    ensures KeepsRest(d, d2)
  {}

  lemma MergePagesKeepRest(d: seq<Ppage>, block: nat, buddy: nat, merged: nat, order: nat)
    requires block < |d| && buddy < |d| && merged < |d|
    ensures KeepsRest(d, MergePages(d, block, buddy, merged, order))
  {
    var d1 := d[block := d[block].(head := false)];
    var d2 := d1[buddy := d1[buddy].(head := false)];
    assert KeepsRest(d, d1) && KeepsRest(d1, d2);
    KeepsRestTrans(d, d1, d2);
    assert KeepsRest(d2, d2[merged := d2[merged].(head := true, order := order + 1)]);
    KeepsRestTrans(d, d2, d2[merged := d2[merged].(head := true, order := order + 1)]);
  }

  lemma LinksKeepRest(d: seq<Ppage>, d': seq<Ppage>)
    requires SameData(d, d')
    ensures KeepsRest(d, d')
  {}

  lemma TurnKeepsRest(v: Phys, x: Block, buddy: nat, merged: nat)
    requires |v.heads| == LISTS && x.order < MAX_ORDER
    requires x.head < |v.pages| && buddy < |v.pages| && merged < |v.pages|
    ensures KeepsRest(v.pages, Turned(v, x, buddy, merged).pages)
  {
    var v1 := Unlink(v, FreeList(x.order), buddy);
    UnlinkData(v, FreeList(x.order), buddy);
    hide Unlink, KeepsRest, SameData, MergePages;
    LinksKeepRest(v.pages, v1.pages);
    MergePagesKeepRest(v1.pages, x.head, buddy, merged, x.order);
    KeepsRestTrans(v.pages, v1.pages, MergePages(v1.pages, x.head, buddy, merged, x.order));
  }

  lemma ParentIsNew(d: seq<Ppage>, x: Block)
    requires Tiled(d) && x in FreeSet(d)
    ensures x.Parent() !in FreeSet(d)
  {
    assert x in FreeSet(d) + LiveSet(d);
    BuddyFacts(x);
    OverlapExcludes(FreeSet(d) + LiveSet(d), x, x.Parent());
  }

  /** The state the merge loop reaches from a block in hand. */
  ghost predicate MergedInto(v: Phys, lists: seq<seq<nat>>, x: Block, r: Result)
    requires |lists| == LISTS && x.order < MAX_ORDER
  {
    && r.Done?
    && Valid(r.v, MergeLists(lists, x))
    && FreeSet(r.v.pages) == Coalesce(Repaired, FreeSet(v.pages) - {x}, x)
    && LiveSet(r.v.pages) == LiveSet(v.pages)
    && KeepsRest(v.pages, r.v.pages)
  }

  lemma PutBack(v: Phys, lists: seq<seq<nat>>, x: Block)
    requires InHand(v, lists, x)
    ensures x.head < |v.pages| && x.order < MAX_ORDER
    ensures var v' := Link(v, FreeList(x.order), x.head);
            && Valid(v', lists[FreeList(x.order) := lists[FreeList(x.order)] + [x.head]])
            && HeapOf(v'.pages) == HeapOf(v.pages) && KeepsRest(v.pages, v'.pages)
  {
    InHandFacts(v, lists, x);
    var at := Homes(v.pages);
    LinkKeeps(v, lists, at[x.head := -1], FreeList(x.order), x.head);
    SameDataSameHeap(v.pages, Link(v, FreeList(x.order), x.head).pages);
    assert at[x.head := -1][x.head := FreeList(x.order)] == at;
  }

  /** The merge loop computes Coalesce. */
  lemma {:induction false} MergeLoopRefines(v: Phys, lists: seq<seq<nat>>, x: Block)
    requires InHand(v, lists, x) && x.order < MAX_ORDER && x.head < |v.pages|
    ensures MergedInto(v, lists, x, MergeLoop(Repaired, v, x.head, x.order))
    decreases MAX_ORDER - x.order
  {
    PutBack(v, lists, x);
    if x.order < MAX_ORDER - 1 {
      TestMeansFree(v, lists, x);
      if x.Buddy().head in lists[FreeList(x.order)] {
        MergeLoopStep(v, lists, x);
      } else {
        assert FreeSet(v.pages) == FreeSet(v.pages) - {x} + {x};
      }
    } else {
      assert FreeSet(v.pages) == FreeSet(v.pages) - {x} + {x};
    }
  }

  lemma {:induction false} MergeLoopStep(v: Phys, lists: seq<seq<nat>>, x: Block)
    requires InHand(v, lists, x) && x.order < MAX_ORDER - 1 && x.head < |v.pages|
    requires x.Buddy().head in lists[FreeList(x.order)]
    ensures MergedInto(v, lists, x, MergeLoop(Repaired, v, x.head, x.order))
    decreases MAX_ORDER - x.order, 0
  {
    TestMeansFree(v, lists, x);
    RepairedStep(x);
    var i := IndexOf(lists[FreeList(x.order)], x.Buddy().head);
    MergeStepInHand(v, lists, x, i);
    var v', lists' := MergedState(v, x), lists[FreeList(x.order) := Without(lists[FreeList(x.order)], i)];
    MergeLoopRefines(v', lists', x.Parent());
    assert MergeLoop(Repaired, v, x.head, x.order) == MergeLoop(Repaired, v', x.Parent().head, x.order + 1);
  }

  lemma TakenBackData(v: Phys, x: Block)
    requires |v.heads| == LISTS && Freeable(v, x.head, x.order)
    ensures var d' := TakenBack(v, x.head, x.order).pages;
            && FreeSet(d') == FreeSet(v.pages) + {x} && LiveSet(d') == LiveSet(v.pages) - {x}
            && KeepsRest(v.pages[x.head := v.pages[x.head].(count := 0)], d')
            && x !in FreeSet(v.pages)
  {
    var v1 := Unlink(v, UsedList(x.order), x.head);
    UnlinkData(v, UsedList(x.order), x.head);
    SameDataSameHeap(v.pages, v1.pages);
    hide Unlink;
  }

  lemma TakenBackThreads(v: Phys, lists: seq<seq<nat>>, x: Block, i: nat)
    requires Threaded(v, lists) && Freeable(v, x.head, x.order)
    requires i < |lists[UsedList(x.order)]| && lists[UsedList(x.order)][i] == x.head
    ensures Threads(TakenBack(v, x.head, x.order), lists[UsedList(x.order) := Without(lists[UsedList(x.order)], i)],
                    Homes(v.pages)[x.head := -1])
  {
    var u, at := UsedList(x.order), Homes(v.pages);
    UnlinkKeeps(v, lists, at, u, i);
    var v1 := Unlink(v, u, x.head);
    RelabelKeeps(v1, lists[u := Without(lists[u], i)], at[x.head := -1],
                 v1.pages[x.head := v1.pages[x.head].(count := 0)]);
  }

  lemma TakenBackHomes(v: Phys, x: Block)
    requires |v.heads| == LISTS && Freeable(v, x.head, x.order)
    ensures Homes(TakenBack(v, x.head, x.order).pages)[x.head := -1] == Homes(v.pages)[x.head := -1]
  {
    UnlinkData(v, UsedList(x.order), x.head);
    SameDataSameHeap(v.pages, Unlink(v, UsedList(x.order), x.head).pages);
  }

  lemma StaysTiled(d: seq<Ppage>, x: Block, d': seq<Ppage>)
    requires Tiled(d) && WholeBlocks(d) && |d'| == |d| && x in LiveSet(d)
    requires FreeSet(d') == FreeSet(d) + {x} && LiveSet(d') == LiveSet(d) - {x}
    ensures Tiled(d') && WholeBlocks(d')
  {
    assert FreeSet(d') + LiveSet(d') == FreeSet(d) + LiveSet(d);
  }

  lemma TakenBackInHand(v: Phys, lists: seq<seq<nat>>, x: Block, i: nat)
    requires Valid(v, lists) && WholeBlocks(v.pages) && Freeable(v, x.head, x.order)
    requires i < |lists[UsedList(x.order)]| && lists[UsedList(x.order)][i] == x.head
    ensures var v2 := TakenBack(v, x.head, x.order);
            && InHand(v2, lists[UsedList(x.order) := Without(lists[UsedList(x.order)], i)], x)
            && FreeSet(v2.pages) - {x} == FreeSet(v.pages)
            && LiveSet(v2.pages) == LiveSet(v.pages) - {x}
            && KeepsRest(v.pages[x.head := v.pages[x.head].(count := 0)], v2.pages)
  {
    TakenBackThreads(v, lists, x, i);
    TakenBackHomes(v, x);
    TakenBackData(v, x);
    hide Threads, Tiled, WholeBlocks, TakenBack, Homes, KeepsRest;
    StaysTiled(v.pages, x, TakenBack(v, x.head, x.order).pages);
  }

  lemma LiveIsListed(v: Phys, lists: seq<seq<nat>>, x: Block)
    requires Valid(v, lists) && Freeable(v, x.head, x.order)
    ensures x in LiveSet(v.pages) && x.head in lists[UsedList(x.order)]
  {
    var u := UsedList(x.order);
    assert HoldsPagesAt(lists[u], Homes(v.pages), u);
  }

  /** The state after the block was freed. */
  ghost predicate Freed(v: Phys, lists: seq<seq<nat>>, x: Block, r: Result)
    requires |lists| == LISTS && x.order < MAX_ORDER && x.head in lists[UsedList(x.order)] && x.head < |v.pages|
  {
    && r.Done?
    && Valid(r.v, FreeLists(lists, x))
    && FreeSet(r.v.pages) == Coalesce(Repaired, FreeSet(v.pages), x)
    && LiveSet(r.v.pages) == LiveSet(v.pages) - {x}
    && KeepsRest(v.pages[x.head := v.pages[x.head].(count := 0)], r.v.pages)
  }

  /** Freeing a block takes it off its used list and runs Coalesce on it. */
  lemma FreeRefines(v: Phys, lists: seq<seq<nat>>, x: Block)
    requires Valid(v, lists) && WholeBlocks(v.pages) && Freeable(v, x.head, x.order)
    ensures x in LiveSet(v.pages) && x.head in lists[UsedList(x.order)]
    ensures Freed(v, lists, x, BlockFree(Repaired, v, x.head, x.order))
  {
    LiveIsListed(v, lists, x);
    var i := IndexOf(lists[UsedList(x.order)], x.head);
    TakenBackInHand(v, lists, x, i);
    MergeLoopRefines(TakenBack(v, x.head, x.order), lists[UsedList(x.order) := Without(lists[UsedList(x.order)], i)],
                     x);
  }

  /** Lists hold the pages with their homes, so in hand the loop follows no NULL link. */
  lemma TurnIsSafe(v: Phys, lists: seq<seq<nat>>, x: Block)
    requires InHand(v, lists, x) && x.order < MAX_ORDER
    ensures |v.heads| == |lists| == LISTS && !PushFollows(v.pages, v.heads[FreeList(x.order)])
    ensures x.Buddy().head in lists[FreeList(x.order)] ==>
              !DeleteFollows(v.pages, v.heads[FreeList(x.order)], x.Buddy().head)
  {
    var k := FreeList(x.order);
    assert IsClist(v.pages, v.heads[k], lists[k]);
    PushIsSafe(v.pages, v.heads[k], lists[k]);
    if x.Buddy().head in lists[k] {
      DeleteIsSafe(v.pages, v.heads[k], lists[k], IndexOf(lists[k], x.Buddy().head));
    }
  }

  lemma {:induction false} LoopIsSafe(v: Phys, lists: seq<seq<nat>>, x: Block)
    requires InHand(v, lists, x) && x.order < MAX_ORDER && x.head < |v.pages| && |v.heads| == |lists| == LISTS
    ensures !MergeFollows(Repaired, v, x)
    decreases MAX_ORDER - x.order
  {
    hide InHand, DeleteFollows, PushFollows, MergeTest, Turned, Xor, And, Pow2;
    TurnIsSafe(v, lists, x);
    if x.order < MAX_ORDER - 1 {
      TestMeansFree(v, lists, x);
      if x.Buddy().head in lists[FreeList(x.order)] {
        var i := IndexOf(lists[FreeList(x.order)], x.Buddy().head);
        MergeStepInHand(v, lists, x, i);
        RepairedStep(x);
        LoopIsSafe(MergedState(v, x), lists[FreeList(x.order) := Without(lists[FreeList(x.order)], i)], x.Parent());
      }
    }
  }

  /** Once repaired, freeing follows no NULL link. */
  lemma FreeIsSafe(v: Phys, lists: seq<seq<nat>>, x: Block)
    requires Valid(v, lists) && WholeBlocks(v.pages) && Freeable(v, x.head, x.order)
    ensures !FreeFollows(Repaired, v, x)
  {
    LiveIsListed(v, lists, x);
    var u := UsedList(x.order);
    var i := IndexOf(lists[u], x.head);
    assert IsClist(v.pages, v.heads[u], lists[u]);
    DeleteIsSafe(v.pages, v.heads[u], lists[u], i);
    TakenBackInHand(v, lists, x, i);
    hide InHand, DeleteFollows, MergeFollows, TakenBack, Threads;
    LoopIsSafe(TakenBack(v, x.head, x.order), lists[u := Without(lists[u], i)], x);
  }

  // ----- the code takes the steps of BuddyRuns -----

  lemma AllocIsStep(v: Phys, lists: seq<seq<nat>>, order: nat)
    requires Valid(v, lists) && Fits(lists, order)
    ensures BlockAlloc(Repaired, v, order).Done?
    ensures Step(HeapOf(v.pages), Take(order, Source(lists, order)), HeapOf(BlockAlloc(Repaired, v, order).v.pages))
  {
    AllocRefines(v, lists, order);
    SourceIsSmallestFit(v, lists, order);
    hide Threads, Tiled, BlockAlloc, SmallestFit, OnlyInside, AllocLists;
  }

  lemma FreeIsStep(v: Phys, lists: seq<seq<nat>>, x: Block)
    requires Valid(v, lists) && WholeBlocks(v.pages) && Freeable(v, x.head, x.order)
    ensures BlockFree(Repaired, v, x.head, x.order).Done?
    ensures Step(HeapOf(v.pages), Give(x), HeapOf(BlockFree(Repaired, v, x.head, x.order).v.pages))
  {
    FreeRefines(v, lists, x);
    hide Threads, Tiled, BlockFree, Coalesce, FreeLists;
  }

  /** A block that is allocated and given back leaves exactly the free blocks there were,
      however often it was split on the way out. */
  lemma AllocThenFreeRestores(v: Phys, lists: seq<seq<nat>>, order: nat)
    requires Valid(v, lists) && WholeBlocks(v.pages) && Fits(lists, order) && Canonical(FreeSet(v.pages))
    requires var r := BlockAlloc(Repaired, v, order); r.Done? && Freeable(r.v, r.ppn, order)
    ensures var r := BlockAlloc(Repaired, v, order);
            var q := BlockFree(Repaired, r.v, r.ppn, order);
            q.Done? && FreeSet(q.v.pages) == FreeSet(v.pages) && LiveSet(q.v.pages) == LiveSet(v.pages)
  {
    var r := BlockAlloc(Repaired, v, order);
    AllocIsStep(v, lists, order);
    AllocRefines(v, lists, order);
    SourceIsSmallestFit(v, lists, order);
    var x, h := Block(r.ppn, order), HeapOf(v.pages);
    assert x !in h.live by { NotHeldYet(h, Source(lists, order), x); }
    hide Threads, IsClist, BlockAlloc, BlockFree, FreeSet, LiveSet, AllocLists, Coalesce, AfterAlloc, SmallestFit;
    FreeIsStep(r.v, AllocLists(lists, order), x);
    var m, h' := HeapOf(r.v.pages), HeapOf(BlockFree(Repaired, r.v, r.ppn, order).v.pages);
    TwoSteps(h, Take(order, Source(lists, order)), m, Give(x), h');
    BalancedRunRestores(h, [Take(order, Source(lists, order)), Give(x)], h');
  }

  lemma NotHeldYet(h: Heap, c: Block, x: Block)
    requires Tidy(h) && c in h.free && x.head == c.head
    ensures x !in h.live
  {
    ApartSets(h.free, h.live);
    assert c.Covers(c.head) && x.Covers(x.head);
  }

  lemma TwoSteps(h: Heap, a: Op, m: Heap, b: Op, h': Heap)
    requires Step(h, a, m) && Step(m, b, h')
    ensures Run(h, [a, b], h')
  {
    hide Step;
    assert [a, b][1..] == [b] && [b][1..] == [];
    assert Run(h', [], h');
    assert Run(m, [b], h');
  }
}
