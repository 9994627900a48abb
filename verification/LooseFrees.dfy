/** When the lists survive a free as written (src/kernel/mm/physical_pages.c:347-377): a split
    may have left the block given back linked from other blocks in use. */
module LooseFrees {
  import opened Blocks
  import opened FreeBlocks
  import opened BuddyRuns
  import opened BuddyAsWritten
  import opened Clist
  import opened BuddyLists
  import opened BuddyAlloc
  import opened BuddyFree
  import opened FreeAsWritten
  import opened LooseLists

  // ----- the block leaves its used list -----

  /** Once the block is deleted from its list, no used list begins with it and no block in use
      is linked to it. */
  predicate LetGo(v: Phys, x: Block)
    requires |v.heads| == LISTS && x.order < MAX_ORDER && x.head < |v.pages|
  {
    var v1 := Unlink(v, UsedList(x.order), x.head);
    && (forall k: nat | MAX_ORDER <= k < LISTS :: v1.heads[k] != x.head)
    && (forall p: nat | p < |v1.pages| && p != x.head && v1.pages[p].head && v1.pages[p].count != 0 ::
          v1.pages[p].prev != x.head && v1.pages[p].next != x.head)
  }

  /** All pages in use but el lead to pages in use. */
  ghost predicate ClosedBut(d: seq<Ppage>, at: seq<int>, el: nat) {
    |d| == |at| && forall p: nat {:trigger d[p]} | InUse(at, p) && p != el :: LeadsInUse(at, d[p])
  }

  lemma DeletePages(d: seq<Ppage>, at: seq<int>, list: int, el: nat)
    requires Closed(d, at) && InUse(at, el)
    ensures ClosedBut(Delete(d, list, el), at, el)
    ensures forall p: nat | p < |d| && !InUse(at, p) :: Delete(d, list, el)[p] == d[p]
  {
    if Prev(d, list) == list && Next(d, list) == list {
      AloneClosed(d, at, el);
    } else {
      var d1 := SetNext(d, Prev(d, el), Next(d, el));
      assert LeadsInUse(at, d[el]);
      NextKeepsClosed(d, at, Prev(d, el), Next(d, el));
      SetLeaves(d, at, Prev(d, el), Next(d, el));
      assert LeadsInUse(at, d1[el]);
      PrevKeepsClosed(d1, at, Next(d1, el), Prev(d1, el));
      SetLeaves(d1, at, Next(d1, el), Prev(d1, el));
      hide SetNext, SetPrev, InUse;
    }
  }

  lemma AloneClosed(d: seq<Ppage>, at: seq<int>, el: nat)
    requires Closed(d, at) && InUse(at, el)
    ensures var d' := SetNext(SetPrev(d, el, NULL), el, NULL);
            ClosedBut(d', at, el) && forall p: nat | p < |d| && p != el :: d'[p] == d[p]
  {}

  lemma DeletedInUse(d: seq<Ppage>, at: seq<int>, list: int, el: nat)
    requires Closed(d, at) && InUse(at, el) && (list == NULL || InUse(at, list))
    ensures Deleted(d, list, el) == NULL || InUse(at, Deleted(d, list, el))
  {
    if !(Prev(d, list) == list && Next(d, list) == list) && list == el {
      assert LeadsInUse(at, d[el]);
      var d1 := SetNext(d, Prev(d, el), Next(d, el));
      NextKeepsClosed(d, at, Prev(d, el), Next(d, el));
      assert LeadsInUse(at, d1[el]);
      PrevKeepsClosed(d1, at, Next(d1, el), Prev(d1, el));
      assert LeadsInUse(at, Delete(d, list, el)[el]);
    }
  }

  lemma BackLoose(v: Phys, lists: seq<seq<nat>>, at: seq<int>, u: nat, el: nat)
    requires LooseBy(v, lists, at) && MAX_ORDER <= u < LISTS && |v.heads| == LISTS && InUse(at, el)
    ensures FreeThreads(Unlink(v, u, el), lists, at[el := -1])
    ensures ClosedBut(Unlink(v, u, el).pages, at, el) && HeadsInUse(Unlink(v, u, el).heads, at)
  {
    hide Closed, IsClist, HoldsPagesAt, Delete, Deleted, ClosedBut;
    var v1, at1 := Unlink(v, u, el), at[el := -1];
    DeletePages(v.pages, at, v.heads[u], el);
    DeletedInUse(v.pages, at, v.heads[u], el);
    forall j: nat | j < MAX_ORDER ensures IsClist(v1.pages, v1.heads[j], lists[j]) && HoldsPagesAt(lists[j], at1, j) {
      FreeListStays(v, lists, at, j, v1, at1, el);
    }
  }

  /** Nothing in use leads to el. */
  ghost predicate Unnamed(v: Phys, at: seq<int>, el: nat) {
    && |v.heads| == LISTS && |at| == |v.pages|
    && (forall k: nat | MAX_ORDER <= k < LISTS :: v.heads[k] != el)
    && (forall p: nat {:trigger v.pages[p]} | InUse(at, p) && p != el :: v.pages[p].prev != el && v.pages[p].next != el)
  }

  lemma InUseMeansHeld(d: seq<Ppage>)
    requires Tiled(d)
    ensures forall p: nat | p < |d| :: InUse(Homes(d), p) <==> d[p].head && d[p].count != 0
  {
    forall p: nat | p < |d| ensures InUse(Homes(d), p) <==> d[p].head && d[p].count != 0 {
      if d[p].head { assert Block(p, d[p].order) in FreeSet(d) + LiveSet(d); }
    }
  }

  lemma LetGoIsUnnamed(v: Phys, x: Block)
    requires Tiled(v.pages) && |v.heads| == LISTS && x.order < MAX_ORDER && x.head < |v.pages|
    ensures LetGo(v, x) <==> Unnamed(Unlink(v, UsedList(x.order), x.head), Homes(v.pages), x.head)
  {
    InUseMeansHeld(v.pages);
    UnlinkData(v, UsedList(x.order), x.head);
    hide Unlink, Tiled, Homes, InUse;
  }

  /** A page that nothing in use leads to can count as being on no list. */
  lemma GoneClosed(v: Phys, at: seq<int>, el: nat)
    requires ClosedBut(v.pages, at, el) && HeadsInUse(v.heads, at) && el < |at| && Unnamed(v, at, el)
    ensures Closed(v.pages, at[el := -1]) && HeadsInUse(v.heads, at[el := -1])
  {
    var at1 := at[el := -1];
    forall p: nat | InUse(at1, p) ensures LeadsInUse(at1, v.pages[p]) { assert LeadsInUse(at, v.pages[p]); }
  }

  // ----- back on a free list -----

  lemma GoneLoose(v: Phys, lists: seq<seq<nat>>, at: seq<int>, u: nat, el: nat)
    requires LooseBy(v, lists, at) && MAX_ORDER <= u < LISTS && |v.heads| == LISTS && InUse(at, el)
    requires Unnamed(Unlink(v, u, el), at, el)
    ensures LooseBy(Unlink(v, u, el), lists, at[el := -1])
  {
    hide LooseBy, Closed, ClosedBut, HeadsInUse, Unnamed, FreeThreads, Unlink;
    BackLoose(v, lists, at, u, el);
    GoneClosed(Unlink(v, u, el), at, el);
    IsLooseBy(Unlink(v, u, el), lists, at[el := -1]);
  }

  /** The links and homes once the count is 0 and the page is on its free list again. */
  lemma BackLinked(v1: Phys, lists: seq<seq<nat>>, at: seq<int>, f: nat, el: nat, v2: Phys)
    requires el < |at| == |v1.pages| && f < MAX_ORDER && |v1.heads| == |lists| == LISTS
    requires LooseBy(v1, lists, at[el := -1])
    requires v2 == v1.(pages := v1.pages[el := v1.pages[el].(count := 0)])
    ensures LooseBy(Link(v2, f, el), lists[f := lists[f] + [el]], at[el := f])
  {
    hide LooseBy, Link;
    RelabelLoose(v1, lists, at[el := -1], v2.pages);
    LinkLoose(v2, lists, at[el := -1], f, el);
    assert at[el := -1][el := f] == at[el := f];
  }

  lemma OnFreeAgain(v: Phys, lists: seq<seq<nat>>, x: Block, v3: Phys)
    requires Loose(v, lists) && Freeable(v, x.head, x.order) && |v.heads| == |lists| == LISTS
    requires LetGo(v, x) && v3 == Link(TakenBack(v, x.head, x.order), FreeList(x.order), x.head)
    ensures LooseBy(v3, lists[FreeList(x.order) := lists[FreeList(x.order)] + [x.head]],
                    Homes(v.pages)[x.head := FreeList(x.order)])
  {
    hide Homes, LooseBy, Tiled, LetGo, Unnamed, Unlink, Link, InUse;
    InUseMeansHeld(v.pages);
    LetGoIsUnnamed(v, x);
    GoneLoose(v, lists, Homes(v.pages), UsedList(x.order), x.head);
    BackLinked(Unlink(v, UsedList(x.order), x.head), lists, Homes(v.pages), FreeList(x.order), x.head,
               TakenBack(v, x.head, x.order));
  }

  lemma IsLooseBy(v: Phys, lists: seq<seq<nat>>, at: seq<int>)
    requires FreeThreads(v, lists, at) && Closed(v.pages, at) && HeadsInUse(v.heads, at)
    ensures LooseBy(v, lists, at)
  {}

  lemma NoMergeIsPush(v: Phys, x: Block)
    requires |v.heads| == LISTS && Freeable(v, x.head, x.order) && !Merges(AsWritten, FreeSet(v.pages), x)
    ensures BlockFree(AsWritten, v, x.head, x.order).Done?
    ensures BlockFree(AsWritten, v, x.head, x.order).v == Link(TakenBack(v, x.head, x.order), FreeList(x.order), x.head)
  {
    TakenBackData(v, x);
    hide Link, TakenBack, MergeLoop, FreeSet, LiveSet;
    OneTurn(TakenBack(v, x.head, x.order), x);
    TestIsMember(TakenBack(v, x.head, x.order).pages, FindBuddy(AsWritten, x).head, x.order);
  }

  lemma TestIsMember(d: seq<Ppage>, p: nat, order: nat)
    requires p < |d|
    ensures MergeTest(d, p, order) <==> Block(p, order) in FreeSet(d)
  {}

  lemma HomesAgain(v: Phys, x: Block, v3: Phys)
    requires |v.heads| == LISTS && Freeable(v, x.head, x.order)
    requires v3 == Link(TakenBack(v, x.head, x.order), FreeList(x.order), x.head)
    ensures Homes(v3.pages) == Homes(v.pages)[x.head := FreeList(x.order)]
  {
    var v1, v2 := Unlink(v, UsedList(x.order), x.head), TakenBack(v, x.head, x.order);
    UnlinkData(v, UsedList(x.order), x.head);
    LinkData(v2, FreeList(x.order), x.head);
    hide Link, Unlink;
    SameDataSameHeap(v.pages, v1.pages);
    SameDataSameHeap(v2.pages, v3.pages);
    HomesOfFreed(v1.pages, x);
  }

  lemma HomesOfFreed(d: seq<Ppage>, x: Block)
    requires x.head < |d| && d[x.head].head && d[x.head].order == x.order
    ensures Homes(d[x.head := d[x.head].(count := 0)]) == Homes(d)[x.head := FreeList(x.order)]
  {}

  lemma FreedTiled(d: seq<Ppage>, x: Block, d': seq<Ppage>)
    requires Tiled(d) && x in LiveSet(d) && |d'| == |d| && !Merges(AsWritten, FreeSet(d), x)
    requires GivenBack(AsWritten, d, x, d')
    ensures Tiled(d')
  {
    assert FreeSet(d') + LiveSet(d') == FreeSet(d) + LiveSet(d);
    assert x !in FreeSet(d);
    hide KeepsRest, Packed;
  }

  /** Where nothing merges and the block is let go, the free leaves a loose state. */
  lemma FreeLoose(v: Phys, lists: seq<seq<nat>>, x: Block)
    requires Loose(v, lists) && |v.heads| == |lists| == LISTS && Freeable(v, x.head, x.order)
    requires !Merges(AsWritten, FreeSet(v.pages), x) && LetGo(v, x)
    ensures BlockFree(AsWritten, v, x.head, x.order).Done?
    ensures Loose(BlockFree(AsWritten, v, x.head, x.order).v,
                  lists[FreeList(x.order) := lists[FreeList(x.order)] + [x.head]])
  {
    var v3 := Link(TakenBack(v, x.head, x.order), FreeList(x.order), x.head);
    assert x in LiveSet(v.pages);
    hide LooseBy, Tiled, Homes, BlockFree, TakenBack, Link, GivenBack, LetGo, FreeSet, LiveSet;
    NoMergeIsPush(v, x);
    OnFreeAgain(v, lists, x, v3);
    HomesAgain(v, x, v3);
    FreeData(v, x);
    FreedTiled(v.pages, x, v3.pages);
  }

  // ----- and where they do not -----

  /** A page with two blocks on it. */
  lemma TwoOnPage(bs: set<Block>, a: Block, b: Block, p: int)
    requires Packed(bs) && a in bs && b in bs && a.Covers(p) && b.Covers(p)
    ensures a == b
  {}

  /** Merging as written, the free blocks no longer fill the gaps between the held ones. */
  lemma MergeUntiles(d: seq<Ppage>, x: Block, d': seq<Ppage>)
    requires Tiled(d) && x in LiveSet(d) && |d'| == |d| && Merges(AsWritten, FreeSet(d), x)
    requires GivenBack(AsWritten, d, x, d')
    ensures !Tiled(d')
  {
    var free, live, after := FreeSet(d), LiveSet(d), FreeSet(d');
    if Tiled(d') {
      HeldApart(free, live, x);
      ConservesIffNoMerge(free, x);
      PackedPart(after + LiveSet(d'), after);
      var p :| Holds(after, p) != (Holds(free, p) || x.Covers(p));
      HoldsUnion(free, live, p);
      HoldsUnion(after, live - {x}, p);
      HoldsUnion(live - {x}, {x}, p);
      HoldsOne(x, p);
      assert live == live - {x} + {x};
      hide Tiled, Conserves, Coalesce, Merges, KeepsRest;
      Mismatch(free, live, x, after, p);
    }
  }

  lemma HeldApart(free: set<Block>, live: set<Block>, x: Block)
    requires Packed(free + live) && free !! live && x in live
    ensures Packed(free) && x.Aligned() && x.order < MAX_ORDER && ApartFrom(free, x)
  {
    PackedPart(free + live, free);
  }

  lemma Mismatch(free: set<Block>, live: set<Block>, x: Block, after: set<Block>, p: int)
    requires Packed(free + live) && free !! live && x in live && Packed(after + (live - {x})) && after !! live - {x}
    requires Holds(free, p) || Holds(live - {x}, p) || x.Covers(p) <==> Holds(after, p) || Holds(live - {x}, p)
    ensures Holds(after, p) <==> Holds(free, p) || x.Covers(p)
  {
    if b :| b in live - {x} && b.Covers(p) {
      if a :| a in after && a.Covers(p) { TwoOnPage(after + (live - {x}), a, b, p); }
      if a :| a in free && a.Covers(p) { TwoOnPage(free + live, a, b, p); }
      if x.Covers(p) { TwoOnPage(free + live, x, b, p); }
    }
  }

  /** The push on the free list leaves the pages in use as they are. */
  lemma PushLeavesUsed(v1: Phys, lists: seq<seq<nat>>, at: seq<int>, f: nat, el: nat, v2: Phys, p: nat)
    requires el < |at| == |v1.pages| && f < MAX_ORDER && FreeThreads(v1, lists, at[el := -1])
    requires v2 == v1.(pages := v1.pages[el := v1.pages[el].(count := 0)]) && InUse(at, p) && p != el
    ensures Link(v2, f, el).pages[p] == v1.pages[p]
  {
    var s := lists[f];
    assert IsClist(v1.pages, v1.heads[f], s) && HoldsPagesAt(s, at[el := -1], f);
    ListUnaffected(v1.pages, v1.heads[f], s, v2.pages);
    PushAppends(v2.pages, v2.heads[f], s, el);
    hide IsClist, Push;
  }

  /** A page given back while something in use still leads to it: whatever one takes the lists
      to be, a page in use now leads to one that is free. */
  lemma NamedStays(v: Phys, lists: seq<seq<nat>>, at: seq<int>, u: nat, f: nat, el: nat, v2: Phys,
                   lists': seq<seq<nat>>)
    requires LooseBy(v, lists, at) && MAX_ORDER <= u < LISTS && f < MAX_ORDER && |v.heads| == LISTS && InUse(at, el)
    requires !Unnamed(Unlink(v, u, el), at, el) && el < |at| == |v.pages|
    requires var v1 := Unlink(v, u, el); v2 == v1.(pages := v1.pages[el := v1.pages[el].(count := 0)])
    ensures !LooseBy(Link(v2, f, el), lists', at[el := f])
  {
    hide LooseBy, FreeThreads, Unlink, Push, Closed, ClosedBut, HeadsInUse, InUse, Unnamed;
    var v1, v3 := Unlink(v, u, el), Link(v2, f, el);
    BackLoose(v, lists, at, u, el);
    var byHead, n := WhoNames(v1, at, el);
    if byHead {
      HeadNamed(v3.heads, at, f, el, n);
    } else {
      PushLeavesUsed(v1, lists, at, f, el, v2, n);
      LinkNamed(v3.pages, at, f, el, n);
    }
    Unloosed(v3, lists', at[el := f]);
  }

  lemma Unloosed(v: Phys, lists: seq<seq<nat>>, at: seq<int>)
    requires !HeadsInUse(v.heads, at) || !Closed(v.pages, at)
    ensures !LooseBy(v, lists, at)
  {}

  /** The used list that begins with el, or the page in use that is linked to it. */
  lemma WhoNames(v: Phys, at: seq<int>, el: nat) returns (byHead: bool, n: nat)
    requires |v.heads| == LISTS && |at| == |v.pages| && !Unnamed(v, at, el)
    ensures byHead ==> MAX_ORDER <= n < LISTS && v.heads[n] == el
    ensures !byHead ==> n < |at| && InUse(at, n) && n != el && (v.pages[n].prev == el || v.pages[n].next == el)
  {
    byHead := exists k: nat | MAX_ORDER <= k < LISTS :: v.heads[k] == el;
    if byHead {
      n :| MAX_ORDER <= n < LISTS && v.heads[n] == el;
    } else {
      n :| n < |at| && InUse(at, n) && n != el && (v.pages[n].prev == el || v.pages[n].next == el);
    }
  }

  lemma HeadNamed(heads: seq<int>, at: seq<int>, f: nat, el: nat, k: nat)
    requires |heads| == LISTS && MAX_ORDER <= k < LISTS && heads[k] == el < |at| && f < MAX_ORDER
    ensures !HeadsInUse(heads, at[el := f])
  {}

  lemma LinkNamed(d: seq<Ppage>, at: seq<int>, f: nat, el: nat, p: nat)
    requires |d| == |at| && el < |at| && f < MAX_ORDER && InUse(at, p) && p != el
    requires (d[p].prev == el || d[p].next == el)
    ensures !Closed(d, at[el := f])
  {
    assert InUse(at[el := f], p) && !LeadsInUse(at[el := f], d[p]);
  }

  lemma FreeUnlooses(v: Phys, lists: seq<seq<nat>>, x: Block, lists': seq<seq<nat>>)
    requires Loose(v, lists) && |v.heads| == |lists| == LISTS && Freeable(v, x.head, x.order)
    requires !Merges(AsWritten, FreeSet(v.pages), x) && !LetGo(v, x)
    ensures BlockFree(AsWritten, v, x.head, x.order).Done?
    ensures !Loose(BlockFree(AsWritten, v, x.head, x.order).v, lists')
  {
    hide LooseBy, Tiled, Homes, BlockFree, LetGo, FreeSet, LiveSet, Unlink, Link, Unnamed, InUse;
    NoMergeIsPush(v, x);
    InUseMeansHeld(v.pages);
    LetGoIsUnnamed(v, x);
    NamedStays(v, lists, Homes(v.pages), UsedList(x.order), FreeList(x.order), x.head, TakenBack(v, x.head, x.order),
               lists');
    HomesAgain(v, x, BlockFree(AsWritten, v, x.head, x.order).v);
  }

  /** As written a free leaves a state that serves the next allocation exactly if it merges
      nothing and the block was let go; FollowsIffListEmpty says when it gets that far. */
  lemma LooseAfterFreeIff(v: Phys, lists: seq<seq<nat>>, x: Block)
    requires Loose(v, lists) && |v.heads| == |lists| == LISTS && Freeable(v, x.head, x.order)
    ensures BlockFree(AsWritten, v, x.head, x.order).Done?
    ensures (exists lists' :: Loose(BlockFree(AsWritten, v, x.head, x.order).v, lists'))
       <==> !Merges(AsWritten, FreeSet(v.pages), x) && LetGo(v, x)
  {
    hide LooseBy, Tiled, BlockFree, LetGo, FreeSet, LiveSet, Merges, GivenBack, Freeable;
    FreeData(v, x);
    IsLive(v, x);
    var v' := BlockFree(AsWritten, v, x.head, x.order).v;
    if Merges(AsWritten, FreeSet(v.pages), x) {
      MergeUntiles(v.pages, x, v'.pages);
    } else if LetGo(v, x) {
      FreeLoose(v, lists, x);
    } else {
      forall lists' ensures !Loose(v', lists') { FreeUnlooses(v, lists, x, lists'); }
    }
  }

  lemma IsLive(v: Phys, x: Block)
    requires Freeable(v, x.head, x.order) && |v.heads| == LISTS && BlockFree(AsWritten, v, x.head, x.order).Done?
    ensures x.head < |v.pages| && x.order < MAX_ORDER
    ensures x in LiveSet(v.pages) && |BlockFree(AsWritten, v, x.head, x.order).v.pages| == |v.pages|
  {
    hide BlockFree;
  }

  // ----- the links a free follows -----

  /** The used lists lead from blocks in use to blocks in use: deleting one can fail only for
      want of a list. */
  lemma DeletesIffList(v: Phys, lists: seq<seq<nat>>, x: Block)
    requires Loose(v, lists) && Freeable(v, x.head, x.order) && |v.heads| == LISTS
    ensures DeleteFollows(v.pages, v.heads[UsedList(x.order)], x.head) <==> v.heads[UsedList(x.order)] == NULL
  {
    hide FreeThreads, Tiled, Homes, Closed, DeleteFollows, InUse;
    InUseMeansHeld(v.pages);
    LeadsToPages(v.pages, Homes(v.pages), v.heads[UsedList(x.order)], x.head);
  }

  lemma LeadsToPages(d: seq<Ppage>, at: seq<int>, list: int, el: nat)
    requires Closed(d, at) && InUse(at, el) && (list == NULL || InUse(at, list))
    ensures DeleteFollows(d, list, el) <==> list == NULL
  {
    assert LeadsInUse(at, d[el]);
    hide Closed;
  }

  lemma PushesBack(v: Phys, v1: Phys, lists: seq<seq<nat>>, at: seq<int>, x: Block)
    requires |v.heads| == LISTS && Freeable(v, x.head, x.order) && v1 == Unlink(v, UsedList(x.order), x.head)
    requires FreeThreads(v1, lists, at)
    ensures !PushFollows(TakenBack(v, x.head, x.order).pages, TakenBack(v, x.head, x.order).heads[FreeList(x.order)])
  {
    hide Unlink;
    var k := FreeList(x.order);
    assert IsClist(v1.pages, v1.heads[k], lists[k]);
    PushIsSafe(v1.pages, v1.heads[k], lists[k]);
  }

  lemma NoTest(v: Phys, x: Block)
    requires |v.heads| == LISTS && Freeable(v, x.head, x.order) && !Merges(AsWritten, FreeSet(v.pages), x)
    requires !PushFollows(TakenBack(v, x.head, x.order).pages, TakenBack(v, x.head, x.order).heads[FreeList(x.order)])
    ensures !MergeFollows(AsWritten, TakenBack(v, x.head, x.order), x)
  {
    hide TakenBack, PushFollows, And, Pow2, LiveSet;
    TakenBackData(v, x);
    assert FindBuddy(AsWritten, x).order == x.order;
  }

  /** Where it merges nothing, a free as written follows a NULL link exactly if there is no used
      list of that order left. */
  lemma FollowsIffListEmpty(v: Phys, lists: seq<seq<nat>>, x: Block)
    requires Loose(v, lists) && Freeable(v, x.head, x.order) && |v.heads| == |lists| == LISTS
    requires !Merges(AsWritten, FreeSet(v.pages), x)
    ensures FreeFollows(AsWritten, v, x) <==> v.heads[UsedList(x.order)] == NULL
  {
    hide LooseBy, Homes, Tiled, TakenBack, DeleteFollows, InUse;
    DeletesIffList(v, lists, x);
    InUseMeansHeld(v.pages);
    UnlinkData(v, UsedList(x.order), x.head);
    BackLoose(v, lists, Homes(v.pages), UsedList(x.order), x.head);
    PushesBack(v, Unlink(v, UsedList(x.order), x.head), lists, Homes(v.pages)[x.head := -1], x);
    NoTest(v, x);
  }

  /** As long as the lists are whole, every block is let go. */
  lemma ValidLetsGo(v: Phys, lists: seq<seq<nat>>, x: Block)
    requires Valid(v, lists) && Freeable(v, x.head, x.order) && |v.heads| == |lists| == LISTS
    ensures LetGo(v, x) && !DeleteFollows(v.pages, v.heads[UsedList(x.order)], x.head)
  {
    LiveIsListed(v, lists, x);
    var u, at := UsedList(x.order), Homes(v.pages);
    var i := IndexOf(lists[u], x.head);
    assert IsClist(v.pages, v.heads[u], lists[u]);
    DeleteIsSafe(v.pages, v.heads[u], lists[u], i);
    UnlinkKeeps(v, lists, at, u, i);
    LetGoIsUnnamed(v, x);
    HomesBound(v, lists);
    hide Threads, Unlink, Tiled, Homes, LetGo, DeleteFollows;
    WholeIsUnnamed(Unlink(v, u, x.head), lists[u := Without(lists[u], i)], at, x.head);
  }

  lemma WholeIsUnnamed(v: Phys, lists: seq<seq<nat>>, at: seq<int>, el: nat)
    requires el < |at| && Threads(v, lists, at[el := -1]) && forall p | 0 <= p < |at| :: at[p] < LISTS
    ensures Unnamed(v, at, el)
  {
    var at1 := at[el := -1];
    forall k: nat | MAX_ORDER <= k < LISTS ensures v.heads[k] != el { ElementsInUse(v, lists, at1, k); }
    forall p: nat | InUse(at, p) && p != el ensures v.pages[p].prev != el && v.pages[p].next != el {
      ElementsInUse(v, lists, at1, at[p]);
      assert LeadsInUse(at1, v.pages[p]);
    }
  }
}
