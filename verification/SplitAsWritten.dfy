/** What a split does as physical_pages.c spells it: the lower half is pushed on its new
    used list without leaving the one of its old order (lines 299-321). */
module SplitAsWritten {
  import opened Blocks
  import opened FreeBlocks
  import opened BuddyRuns
  import opened Clist
  import opened BuddyLists
  import opened BuddyAlloc

  /** The used lists left broken by splitting a block of order j down to the given order. */
  function Broken(order: nat, j: nat): set<nat> {
    set i | order < i <= j :: UsedList(i)
  }

  /** The state after allocating as written: descriptors as the repaired code leaves them,
      and the same lists too except for the broken ones. */
  ghost predicate AllocatedBut(v: Phys, lists: seq<seq<nat>>, order: nat, good: Result, r: Result)
    requires Fits(lists, order)
  {
    && Allocated(v, lists, order, good)
    && r.Done? && r.ppn == good.ppn
    && SameData(good.v.pages, r.v.pages)
    && ThreadsBut(r.v, AllocLists(lists, order), Homes(r.v.pages), Broken(order, FitOrder(lists, order)))
  }

  /** The lists after a split as written, but for the one it breaks. */
  ghost predicate SplitAdds(lists: seq<seq<nat>>, big: nat, order: nat, lists': seq<seq<nat>>) {
    && |lists| == LISTS && order + 1 < MAX_ORDER
    && lists' == lists[FreeList(order) := lists[FreeList(order)] + [big + Pow2(order)]]
                      [UsedList(order) := lists[UsedList(order)] + [big]]
  }

  lemma SplitLinks(v: Phys, lists: seq<seq<nat>>, broken: set<nat>, big: nat, order: nat, at: seq<int>,
          lists': seq<seq<nat>>)
    requires SplitAdds(lists, big, order, lists') && big + Pow2(order) < |v.pages| && ThreadsBut(v, lists, at, broken)
    requires at[big] == UsedList(order + 1) && at[big + Pow2(order)] == -1
    requires FreeList(order) !in broken && UsedList(order) !in broken
    ensures Split(AsWritten, v, big, order).Done?
    ensures SameData(SplitPages(v.pages, big, big + Pow2(order), order), Split(AsWritten, v, big, order).v.pages)
    ensures ThreadsBut(Split(AsWritten, v, big, order).v, lists',
                       at[big + Pow2(order) := FreeList(order)][big := UsedList(order)], broken + {UsedList(order + 1)})
  {
    assert |v.heads| == LISTS && |at| == |v.pages|;
    hide ThreadsBut, SplitPages, SameData, Split, Pow2;
    SplitWrites(AsWritten, v, big, order);
    HalvesOnLists(v, lists, broken, big, big + Pow2(order), order, at, Split(AsWritten, v, big, order));
  }

  /** The upper half joins its free list, and the lower one the used list of its new order. */
  lemma HalvesOnLists(v: Phys, lists: seq<seq<nat>>, broken: set<nat>, big: nat, upper: nat, order: nat, at: seq<int>,
                      r: Result)
    requires |lists| == |v.heads| == LISTS && |at| == |v.pages| && order + 1 < MAX_ORDER
    requires ThreadsBut(v, lists, at, broken)
    requires upper == big + Pow2(order) < |at| && at[big] == UsedList(order + 1) && at[upper] == -1
    requires FreeList(order) !in broken && UsedList(order) !in broken && r == Split(AsWritten, v, big, order)
    ensures r.Done?
    ensures ThreadsBut(r.v,
                       lists[FreeList(order) := lists[FreeList(order)] + [upper]]
                            [UsedList(order) := lists[UsedList(order)] + [big]],
                       at[upper := FreeList(order)][big := UsedList(order)], broken + {UsedList(order + 1)})
  {
    hide ThreadsBut, Link, SplitPages, Pow2;
    var f, u, v1 := FreeList(order), UsedList(order), Phys(SplitPages(v.pages, big, upper, order), v.heads);
    SplitKeepsLinks(v.pages, big, upper, order);
    RelabelKeepsBut(v, lists, at, broken, v1.pages);
    LinkKeepsBut(v1, lists, at, broken, f, upper);
    JoinsUsed(Link(v1, f, upper), lists[f := lists[f] + [upper]], at[upper := f], broken, u, UsedList(order + 1), big);
  }

  /** Page big of list k joins list u as well. */
  lemma JoinsUsed(v: Phys, lists: seq<seq<nat>>, at: seq<int>, broken: set<nat>, u: nat, k: nat, big: nat)
    requires ThreadsBut(v, lists, at, broken) && |lists| == |v.heads| == LISTS && |at| == |v.pages|
    requires big < |at| && at[big] == k && u < LISTS && u != k && u !in broken
    ensures ThreadsBut(Link(v, u, big), lists[u := lists[u] + [big]], at[big := u], broken + {k})
  {
    hide ThreadsBut, Link;
    Forget(v, lists, at, broken, k, big);
    LinkKeepsBut(v, lists, at[big := -1], broken + {k}, u, big);
    assert at[big := -1][big := u] == at[big := u];
  }

  lemma SplitBreaksOne(v: Phys, lists: seq<seq<nat>>, broken: set<nat>, big: nat, order: nat, lists': seq<seq<nat>>)
    requires Tiled(v.pages) && Block(big, order + 1) in LiveSet(v.pages)
    requires order + 1 < MAX_ORDER && SplitAdds(lists, big, order, lists')
    requires ThreadsBut(v, lists, Homes(v.pages), broken)
    requires FreeList(order) !in broken && UsedList(order) !in broken
    ensures big + Pow2(order) < |v.pages| && Split(AsWritten, v, big, order).Done?
    ensures SameData(SplitPages(v.pages, big, big + Pow2(order), order), Split(AsWritten, v, big, order).v.pages)
    ensures var r := Split(AsWritten, v, big, order);
            ThreadsBut(r.v, lists', Homes(r.v.pages), broken + {UsedList(order + 1)})
  {
    hide ThreadsBut, Tiled, Split, SplitPages, SplitAdds, SameData, OnlyInside;
    ThreadsSizes(v, lists, Homes(v.pages), broken);
    UpperIsPlain(v.pages, big, order);
    var at, r, d' := Homes(v.pages), Split(AsWritten, v, big, order),
        SplitPages(v.pages, big, big + Pow2(order), order);
    assert at[big] == UsedList(order + 1) && at[big + Pow2(order)] == -1;
    SplitLinks(v, lists, broken, big, order, at, lists');
    SplitHeap(v.pages, big, order, d');
    SameDataSameHeap(d', r.v.pages);
  }

  lemma IgnoreBroken(v: Phys, lists: seq<seq<nat>>, at: seq<int>, broken: set<nat>, lists': seq<seq<nat>>,
          broken': set<nat>)
    requires ThreadsBut(v, lists, at, broken) && |lists'| == LISTS && broken <= broken'
    requires forall k: nat | k < LISTS && k !in broken' :: lists'[k] == lists[k]
    ensures ThreadsBut(v, lists', at, broken')
  {
    forall k: nat | k < LISTS && k !in broken'
      ensures IsClist(v.pages, v.heads[k], lists'[k]) && HoldsPagesAt(lists'[k], at, k)
    {
      assert IsClist(v.pages, v.heads[k], lists[k]) && HoldsPagesAt(lists[k], at, k);
    }
  }

  /** Giving up on list k, page el on it can be counted as being on no list. */
  lemma Forget(v: Phys, lists: seq<seq<nat>>, at: seq<int>, broken: set<nat>, k: nat, el: nat)
    requires ThreadsBut(v, lists, at, broken) && el < |at| && at[el] == k
    ensures ThreadsBut(v, lists, at[el := -1], broken + {k})
  {
    forall j: nat | j < LISTS && j !in broken + {k} ensures HoldsPagesAt(lists[j], at[el := -1], j) {
      assert HoldsPagesAt(lists[j], at, j);
    }
  }

  lemma SplitSameData(d: seq<Ppage>, d': seq<Ppage>, big: nat, upper: nat, order: nat)
    requires SameData(d, d') && big < |d| && upper < |d|
    ensures SameData(SplitPages(d, big, upper, order), SplitPages(d', big, upper, order))
  {}

  lemma SameDataSymm(d1: seq<Ppage>, d2: seq<Ppage>)
    requires SameData(d1, d2)
    ensures SameData(d2, d1)
  {}

  /** One level of the recursion as written, next to the same level repaired. */
  lemma SplitAgrees(v: Phys, lists: seq<seq<nat>>, order: nat, good1: Result, r1: Result)
    requires Valid(v, lists) && order + 1 < MAX_ORDER && lists[FreeList(order)] == []
    requires Fits(lists, order + 1) && Source(lists, order + 1) in FreeSet(v.pages)
    requires AllocatedBut(v, lists, order + 1, good1, r1)
    ensures Fits(lists, order) && Source(lists, order) == Source(lists, order + 1)
    ensures AllocatedBut(v, lists, order, Split(Repaired, good1.v, good1.ppn, order),
                         Split(AsWritten, r1.v, r1.ppn, order))
  {
    hide Threads, ThreadsBut, Split, SplitPages, Tiled, AllocLists, SameData, Allocated;
    HeadsStay(v, lists, order + 1, good1, r1);
    SameSplit(v, lists, order, good1, r1);
    SplitBreaksMatch(v, lists, order, r1);
    HeldSplits(Repaired, good1.v, good1.ppn, order);
    SplitAllocated(v, lists, order, good1);
    var big, upper := good1.ppn, good1.ppn + Pow2(order);
    var good, r := Split(Repaired, good1.v, big, order), Split(AsWritten, r1.v, big, order);
    SplitSameData(good1.v.pages, r1.v.pages, big, upper, order);
    SameDataSymm(SplitPages(good1.v.pages, big, upper, order), good.v.pages);
    SameDataTrans(good.v.pages, SplitPages(good1.v.pages, big, upper, order),
                  SplitPages(r1.v.pages, big, upper, order));
    SameDataTrans(good.v.pages, SplitPages(r1.v.pages, big, upper, order), r.v.pages);
  }

  lemma HeadsStay(v: Phys, lists: seq<seq<nat>>, order: nat, good: Result, r: Result)
    requires Fits(lists, order) && AllocatedBut(v, lists, order, good, r)
    ensures good.Done? && r.Done? && |good.v.heads| == LISTS && |r.v.heads| == LISTS
    ensures good.ppn == r.ppn < |good.v.pages| == |r.v.pages|
  {}

  lemma SameSplit(v: Phys, lists: seq<seq<nat>>, order: nat, good1: Result, r1: Result)
    requires Valid(v, lists) && order + 1 < MAX_ORDER && lists[FreeList(order)] == []
    requires Fits(lists, order + 1) && Source(lists, order + 1) in FreeSet(v.pages)
    requires AllocatedBut(v, lists, order + 1, good1, r1)
    ensures r1.Done? && r1.ppn == Source(lists, order + 1).head && |r1.v.heads| == LISTS
    ensures |r1.v.pages| == |good1.v.pages| && good1.ppn < |r1.v.pages|
    ensures Tiled(r1.v.pages) && Block(r1.ppn, order + 1) in LiveSet(r1.v.pages)
    ensures Tiled(good1.v.pages) && Block(good1.ppn, order + 1) in LiveSet(good1.v.pages)
    ensures ThreadsBut(r1.v, AllocLists(lists, order + 1), Homes(r1.v.pages),
                       Broken(order + 1, FitOrder(lists, order + 1)))
  {
    StillTiled(v.pages, good1.v.pages, Source(lists, order + 1), order + 1);
    SameDataSameHeap(good1.v.pages, r1.v.pages);
  }

  lemma SplitBreaksMatch(v: Phys, lists: seq<seq<nat>>, order: nat, r1: Result)
    requires |lists| == LISTS && order + 1 < MAX_ORDER && lists[FreeList(order)] == [] && Fits(lists, order + 1)
    requires r1.Done? && r1.ppn == Source(lists, order + 1).head && |r1.v.heads| == LISTS
    requires Tiled(r1.v.pages) && Block(r1.ppn, order + 1) in LiveSet(r1.v.pages)
    requires ThreadsBut(r1.v, AllocLists(lists, order + 1), Homes(r1.v.pages),
                        Broken(order + 1, FitOrder(lists, order + 1)))
    ensures Fits(lists, order) && Split(AsWritten, r1.v, r1.ppn, order).Done?
    ensures r1.ppn + Pow2(order) < |r1.v.pages|
    ensures SameData(SplitPages(r1.v.pages, r1.ppn, r1.ppn + Pow2(order), order),
                     Split(AsWritten, r1.v, r1.ppn, order).v.pages)
    ensures var r := Split(AsWritten, r1.v, r1.ppn, order);
            ThreadsBut(r.v, AllocLists(lists, order), Homes(r.v.pages), Broken(order, FitOrder(lists, order)))
  {
    hide ThreadsBut, Tiled, Split, SplitPages, SameData, Homes;
    var big, lists1, broken1 := r1.ppn, AllocLists(lists, order + 1), Broken(order + 1, FitOrder(lists, order + 1));
    var lists2 := lists1[FreeList(order) := lists1[FreeList(order)] + [big + Pow2(order)]]
                        [UsedList(order) := lists1[UsedList(order)] + [big]];
    SplitBreaksOne(r1.v, lists1, broken1, big, order, lists2);
    SplitListsMatch(lists, order);
    var r := Split(AsWritten, r1.v, big, order);
    IgnoreBroken(r.v, lists2, Homes(r.v.pages), broken1 + {UsedList(order + 1)},
                 AllocLists(lists, order), Broken(order, FitOrder(lists, order)));
  }

  /** As written, allocation returns the same block and leaves the same descriptors as
      the repaired code; it fails in the same cases. */
  lemma {:induction false} AllocAsWritten(v: Phys, lists: seq<seq<nat>>, order: nat)
    requires Valid(v, lists) && order < MAX_ORDER
    ensures !Fits(lists, order) ==> BlockAlloc(AsWritten, v, order).Panic?
    ensures Fits(lists, order) ==>
              AllocatedBut(v, lists, order, BlockAlloc(Repaired, v, order), BlockAlloc(AsWritten, v, order))
    decreases MAX_ORDER - order
  {
    assert |v.heads| == |lists| == LISTS;
    hide Threads, Tiled, AllocatedBut, Allocated, BlockAlloc, Split, FitOrder, TakeHead;
    if lists[FreeList(order)] != [] {
      TakesHead(v, lists, order);
      HeadAsWritten(v, lists, order);
    } else {
      AsksNext(AsWritten, v, lists, order);
      AsksNext(Repaired, v, lists, order);
      if order + 1 < MAX_ORDER {
        AllocAsWritten(v, lists, order + 1);
        if Fits(lists, order + 1) {
          SourceIsSmallestFit(v, lists, order + 1);
          SplitAsWrittenAgrees(v, lists, order, BlockAlloc(Repaired, v, order + 1),
                               BlockAlloc(AsWritten, v, order + 1));
        }
      } else {
        OverTheTop(v, order + 1);
      }
    }
  }

  lemma OverTheTop(v: Phys, order: nat)
    requires |v.heads| == LISTS && order >= MAX_ORDER
    ensures BlockAlloc(AsWritten, v, order).Panic?
  {}

  lemma SplitAsWrittenAgrees(v: Phys, lists: seq<seq<nat>>, order: nat, good1: Result, r1: Result)
    requires Valid(v, lists) && order + 1 < MAX_ORDER && lists[FreeList(order)] == []
    requires Fits(lists, order + 1) && Source(lists, order + 1) in FreeSet(v.pages)
    requires AllocatedBut(v, lists, order + 1, good1, r1)
    ensures Fits(lists, order) && good1.Done? && r1.Done? && |good1.v.heads| == |r1.v.heads| == LISTS
    ensures good1.ppn < |good1.v.pages| && r1.ppn < |r1.v.pages|
    ensures AllocatedBut(v, lists, order, Split(Repaired, good1.v, good1.ppn, order),
                         Split(AsWritten, r1.v, r1.ppn, order))
  {
    hide AllocatedBut, Split, Tiled, Threads;
    HeadsStay(v, lists, order + 1, good1, r1);
    SplitAgrees(v, lists, order, good1, r1);
  }

  lemma HeadAsWritten(v: Phys, lists: seq<seq<nat>>, order: nat)
    requires Valid(v, lists) && order < MAX_ORDER && lists[FreeList(order)] != []
    requires Fits(lists, order) && Allocated(v, lists, order, TakeHead(v, order))
    ensures BlockAlloc(AsWritten, v, order) == TakeHead(v, order)
    ensures AllocatedBut(v, lists, order, TakeHead(v, order), TakeHead(v, order))
  {
    ThreadsAreFree(v, lists, Homes(v.pages));
    assert FitOrder(lists, order) == order;
    hide Threads, Tiled, BlockAlloc, Split, TakeHead, AllocLists;
    HeadIsThere(v, lists, Homes(v.pages), order);
    OneLevel(AsWritten, v, order);
    NothingBroken(TakeHead(v, order).v, AllocLists(lists, order), order);
  }

  lemma NothingBroken(v: Phys, lists: seq<seq<nat>>, order: nat)
    requires Threaded(v, lists)
    ensures ThreadsBut(v, lists, Homes(v.pages), Broken(order, order))
  {}

  // ----- which lists are broken -----

  lemma PushLeaves(v: Phys, lists: seq<seq<nat>>, at: seq<int>, broken: set<nat>, k: nat, el: nat, h: nat)
    requires ThreadsBut(v, lists, at, broken) && k < LISTS && k !in broken && el < |v.pages| && at[el] == -1
    requires h < |v.pages| && at[h] != k && h != el
    ensures Link(v, k, el).pages[h] == v.pages[h]
  {
    LinkKeepsBut(v, lists, at, broken, k, el);
    assert HoldsPagesAt(lists[k], at, k);
  }

  lemma FirstPushLeaves(v: Phys, lists: seq<seq<nat>>, broken: set<nat>, big: nat, order: nat, at: seq<int>, h: nat,
          v2: Phys)
    requires order + 1 < MAX_ORDER && big + Pow2(order) < |v.pages| && ThreadsBut(v, lists, at, broken)
    requires at[big] == UsedList(order + 1) && at[big + Pow2(order)] == -1 && FreeList(order) !in broken
    requires h < |v.pages| && at[h] == UsedList(order + 1) && h != big
    requires v2 == Link(Phys(SplitPages(v.pages, big, big + Pow2(order), order), v.heads), FreeList(order),
                        big + Pow2(order))
    ensures v2.pages[h] == v.pages[h]
    ensures ThreadsBut(v2, lists[FreeList(order) := lists[FreeList(order)] + [big + Pow2(order)]],
                       at[big + Pow2(order) := FreeList(order)][big := -1], broken + {UsedList(order + 1)})
  {
    var upper, f, o := big + Pow2(order), FreeList(order), UsedList(order + 1);
    var v1 := Phys(SplitPages(v.pages, big, upper, order), v.heads);
    RelabelKeepsBut(v, lists, at, broken, v1.pages);
    PushLeaves(v1, lists, at, broken, f, upper, h);
    LinkKeepsBut(v1, lists, at, broken, f, upper);
    hide ThreadsBut, Push;
    Forget(v2, lists[f := lists[f] + [upper]], at[upper := f], broken, o, big);
  }

  /** A split as written touches no page of the used list of the old order except the
      block itself. */
  lemma SplitLeaves(v: Phys, lists: seq<seq<nat>>, broken: set<nat>, big: nat, order: nat, at: seq<int>, h: nat)
    requires order + 1 < MAX_ORDER && big + Pow2(order) < |v.pages| && ThreadsBut(v, lists, at, broken)
    requires at[big] == UsedList(order + 1) && at[big + Pow2(order)] == -1
    requires FreeList(order) !in broken && UsedList(order) !in broken
    requires h < |v.pages| && at[h] == UsedList(order + 1) && h != big
    ensures Split(AsWritten, v, big, order).Done?
    ensures Split(AsWritten, v, big, order).v.pages[h] == v.pages[h]
  {
    hide ThreadsBut, SplitPages, Link;
    ThreadsSizes(v, lists, at, broken);
    var upper, f, u, o := big + Pow2(order), FreeList(order), UsedList(order), UsedList(order + 1);
    var v2 := Link(Phys(SplitPages(v.pages, big, upper, order), v.heads), f, upper);
    FirstPushLeaves(v, lists, broken, big, order, at, h, v2);
    PushLeaves(v2, lists[f := lists[f] + [upper]], at[upper := f][big := -1], broken + {o}, u, big, h);
  }

  /** If a list begins with big, or with a page whose prev is big, big is on it. */
  lemma ReachesBig(v: Phys, lists: seq<seq<nat>>, k: nat, big: nat)
    requires Threaded(v, lists) && k < LISTS && big < |v.pages|
    requires 0 <= v.heads[k] < |v.pages|
    requires v.heads[k] == big || v.pages[v.heads[k]].prev == big
    ensures Home(v.pages[big]) == k
  {
    var s := lists[k];
    assert IsClist(v.pages, v.heads[k], s) && HoldsPagesAt(s, Homes(v.pages), k);
    assert LinkedAt(v.pages, s, 0);
    assert s[Before(0, |s|)] in s && s[0] in s;
  }

  /** The used list of the old order still begins with the block itself or with a page
      whose prev is the block. */
  lemma OldListStillReaches(v: Phys, lists: seq<seq<nat>>, broken: set<nat>, big: nat, order: nat, s: seq<nat>)
    requires Tiled(v.pages) && order + 1 < MAX_ORDER && Block(big, order + 1) in LiveSet(v.pages)
    requires ThreadsBut(v, lists, Homes(v.pages), broken) && UsedList(order + 1) !in broken
    requires FreeList(order) !in broken && UsedList(order) !in broken
    requires lists[UsedList(order + 1)] == s + [big]
    ensures Split(AsWritten, v, big, order).Done?
    ensures var r := Split(AsWritten, v, big, order).v;
            var h := r.heads[UsedList(order + 1)];
            0 <= h < |r.pages| && (h == big || r.pages[h].prev == big)
  {
    UpperIsPlain(v.pages, big, order);
    var k, at := UsedList(order + 1), Homes(v.pages);
    var h := (s + [big])[0];
    assert IsClist(v.pages, v.heads[k], s + [big]) && HoldsPagesAt(s + [big], at, k) && h in s + [big];
    assert LinkedAt(v.pages, s + [big], 0);
    if h != big {
      SplitLeaves(v, lists, broken, big, order, at, h);
    }
  }

  lemma HalfChangesHome(v: Phys, lists: seq<seq<nat>>, broken: set<nat>, big: nat, order: nat)
    requires Tiled(v.pages) && order + 1 < MAX_ORDER && Block(big, order + 1) in LiveSet(v.pages)
    requires ThreadsBut(v, lists, Homes(v.pages), broken)
    requires FreeList(order) !in broken && UsedList(order) !in broken
    ensures Split(AsWritten, v, big, order).Done? && big < |Split(AsWritten, v, big, order).v.pages|
    ensures Home(Split(AsWritten, v, big, order).v.pages[big]) == UsedList(order)
  {
    UpperIsPlain(v.pages, big, order);
    SplitLinks(v, lists, broken, big, order, Homes(v.pages),
               lists[FreeList(order) := lists[FreeList(order)] + [big + Pow2(order)]]
                    [UsedList(order) := lists[UsedList(order)] + [big]]);
  }

  lemma SplitUnthreads(v: Phys, lists: seq<seq<nat>>, broken: set<nat>, big: nat, order: nat, s: seq<nat>,
          lists': seq<seq<nat>>)
    requires Tiled(v.pages) && order + 1 < MAX_ORDER && Block(big, order + 1) in LiveSet(v.pages)
    requires ThreadsBut(v, lists, Homes(v.pages), broken) && UsedList(order + 1) !in broken
    requires FreeList(order) !in broken && UsedList(order) !in broken
    requires lists[UsedList(order + 1)] == s + [big]
    ensures Split(AsWritten, v, big, order).Done? && !Threaded(Split(AsWritten, v, big, order).v, lists')
  {
    OldListStillReaches(v, lists, broken, big, order, s);
    var r := Split(AsWritten, v, big, order);
    HalfChangesHome(v, lists, broken, big, order);
    hide Split, ThreadsBut, Threaded, Tiled;
    if Threaded(r.v, lists') {
      ReachesBig(r.v, lists', UsedList(order + 1), big);
    }
  }

  /** As written, an allocation leaves every block on exactly the list of its own order
      if and only if it did not have to split, that is, if the list it looked at first
      was not empty. */
  lemma ListsSurviveIffNoSplit(v: Phys, lists: seq<seq<nat>>, order: nat)
    requires Valid(v, lists) && order < MAX_ORDER && Fits(lists, order)
    ensures BlockAlloc(AsWritten, v, order).Done?
    ensures (exists lists' :: Threaded(BlockAlloc(AsWritten, v, order).v, lists')) <==> v.heads[FreeList(order)] != NULL
  {
    AllocAsWritten(v, lists, order);
    AllocRefines(v, lists, order);
    assert IsClist(v.pages, v.heads[FreeList(order)], lists[FreeList(order)]);
    if lists[FreeList(order)] != [] {
      assert Threaded(BlockAlloc(AsWritten, v, order).v, AllocLists(lists, order));
    } else {
      forall lists' ensures !Threaded(BlockAlloc(AsWritten, v, order).v, lists') {
        SplitSpoils(v, lists, order, lists');
      }
    }
  }

  lemma SplitSpoils(v: Phys, lists: seq<seq<nat>>, order: nat, lists': seq<seq<nat>>)
    requires Valid(v, lists) && order + 1 < MAX_ORDER && Fits(lists, order) && lists[FreeList(order)] == []
    ensures BlockAlloc(AsWritten, v, order).Done?
    ensures !Threaded(BlockAlloc(AsWritten, v, order).v, lists')
  {
    assert IsClist(v.pages, v.heads[FreeList(order)], lists[FreeList(order)]);
    AllocAsWritten(v, lists, order + 1);
    var good1, r1, j := BlockAlloc(Repaired, v, order + 1), BlockAlloc(AsWritten, v, order + 1),
        FitOrder(lists, order + 1);
    assert Tiled(r1.v.pages) && Block(r1.ppn, order + 1) in LiveSet(r1.v.pages) by {
      SourceIsSmallestFit(v, lists, order + 1);
      StillTiled(v.pages, good1.v.pages, Source(lists, order + 1), order + 1);
      SameDataSameHeap(good1.v.pages, r1.v.pages);
    }
    SplitListsMatch(lists, order);
    SplitUnthreads(r1.v, AllocLists(lists, order + 1), Broken(order + 1, j), r1.ppn, order, lists[UsedList(order + 1)],
                   lists');
  }
}
