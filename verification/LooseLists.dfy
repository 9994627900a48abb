/** What the lists are good for as written (src/kernel/mm/physical_pages.c:291-328): a split
    spoils used lists, but it never writes a link of a page that is not in use. */
module LooseLists {
  import opened Blocks
  import opened FreeBlocks
  import opened BuddyRuns
  import opened Clist
  import opened BuddyLists
  import opened BuddyAlloc
  import opened SplitAsWritten

  /** Page p belongs on a used list. */
  predicate InUse(at: seq<int>, p: int) {
    0 <= p < |at| && at[p] >= MAX_ORDER
  }

  /** Both links of a page lead to pages in use. */
  predicate LeadsInUse(at: seq<int>, p: Ppage) {
    InUse(at, p.prev) && InUse(at, p.next)
  }

  /** Whatever the used lists have become, they lead from pages in use to pages in use. */
  ghost predicate Closed(d: seq<Ppage>, at: seq<int>) {
    |d| == |at| && forall p: nat {:trigger d[p]} | InUse(at, p) :: LeadsInUse(at, d[p])
  }

  ghost predicate HeadsInUse(heads: seq<int>, at: seq<int>) {
    |heads| == LISTS && forall k: nat | MAX_ORDER <= k < LISTS :: heads[k] == NULL || InUse(at, heads[k])
  }

  /** The free lists are whole, and the used ones keep to the pages in use. */
  ghost predicate LooseBy(v: Phys, lists: seq<seq<nat>>, at: seq<int>) {
    FreeThreads(v, lists, at) && Closed(v.pages, at) && HeadsInUse(v.heads, at)
  }

  ghost predicate Loose(v: Phys, lists: seq<seq<nat>>) {
    LooseBy(v, lists, Homes(v.pages)) && Tiled(v.pages)
  }

  lemma LooseSizes(v: Phys, lists: seq<seq<nat>>, at: seq<int>)
    requires LooseBy(v, lists, at)
    ensures |v.heads| == |lists| == LISTS && |at| == |v.pages|
  {}

  // ----- whole lists are loose ones -----

  lemma ElementsInUse(v: Phys, lists: seq<seq<nat>>, at: seq<int>, k: nat)
    requires Threads(v, lists, at) && MAX_ORDER <= k < LISTS
    ensures v.heads[k] == NULL || InUse(at, v.heads[k])
    ensures forall p: nat | p < |at| && at[p] == k :: LeadsInUse(at, v.pages[p])
  {
    var s := lists[k];
    assert IsClist(v.pages, v.heads[k], s) && HoldsPagesAt(s, at, k);
    assert forall i | 0 <= i < |s| :: s[i] in s;
    forall p: nat | p < |at| && at[p] == k ensures LeadsInUse(at, v.pages[p]) {
      assert p in s;
      var i :| 0 <= i < |s| && s[i] == p;
      assert LinkedAt(v.pages, s, i);
      assert s[Before(i, |s|)] in s && s[After(i, |s|)] in s;
    }
  }

  lemma ValidIsLoose(v: Phys, lists: seq<seq<nat>>)
    requires Valid(v, lists)
    ensures Loose(v, lists)
  {
    var at := Homes(v.pages);
    HomesBound(v, lists);
    forall k: nat | MAX_ORDER <= k < LISTS ensures v.heads[k] == NULL || InUse(at, v.heads[k]) {
      ElementsInUse(v, lists, at, k);
    }
    forall p: nat | InUse(at, p) ensures LeadsInUse(at, v.pages[p]) { ElementsInUse(v, lists, at, at[p]); }
  }

  /** Every block belongs on one of the twenty lists. */
  lemma HomesBound(v: Phys, lists: seq<seq<nat>>)
    requires Tiled(v.pages)
    ensures forall p: nat | p < |v.pages| :: Homes(v.pages)[p] < LISTS
  {
    forall p: nat | p < |v.pages| ensures Homes(v.pages)[p] < LISTS {
      if v.pages[p].head { assert Block(p, v.pages[p].order) in FreeSet(v.pages) + LiveSet(v.pages); }
    }
  }

  // ----- what the macros do to loose lists -----

  lemma SameClosed(d: seq<Ppage>, at: seq<int>, d': seq<Ppage>, at': seq<int>)
    requires Closed(d, at) && |d'| == |d| == |at'| && forall p: int :: InUse(at', p) <==> InUse(at, p)
    requires forall p: nat | InUse(at, p) :: d'[p].prev == d[p].prev && d'[p].next == d[p].next
    ensures Closed(d', at')
  {}

  /** Lists k of pages that did not change stay whole. */
  lemma FreeListStays(v: Phys, lists: seq<seq<nat>>, at: seq<int>, k: nat, v': Phys, at': seq<int>, el: nat)
    requires FreeThreads(v, lists, at) && k < MAX_ORDER && |v'.heads| == LISTS && v'.heads[k] == v.heads[k]
    requires |v'.pages| == |v.pages| && el < |at| == |at'| && at' == at[el := at'[el]] && at[el] != k && at'[el] != k
    requires forall p: nat | p < |at| && at[p] == k ::
             v'.pages[p].prev == v.pages[p].prev && v'.pages[p].next == v.pages[p].next
    ensures IsClist(v'.pages, v'.heads[k], lists[k]) && HoldsPagesAt(lists[k], at', k)
  {
    assert IsClist(v.pages, v.heads[k], lists[k]) && HoldsPagesAt(lists[k], at, k);
    ListUnaffected(v.pages, v.heads[k], lists[k], v'.pages);
  }

  /** Writing fields other than links. */
  lemma RelabelLoose(v: Phys, lists: seq<seq<nat>>, at: seq<int>, pages': seq<Ppage>)
    requires LooseBy(v, lists, at) && |pages'| == |v.pages|
    requires forall p | 0 <= p < |pages'| :: pages'[p].prev == v.pages[p].prev && pages'[p].next == v.pages[p].next
    ensures LooseBy(Phys(pages', v.heads), lists, at)
  {
    SameClosed(v.pages, at, pages', at);
    forall k: nat | k < MAX_ORDER ensures IsClist(pages', v.heads[k], lists[k]) {
      assert IsClist(v.pages, v.heads[k], lists[k]);
      ListUnaffected(v.pages, v.heads[k], lists[k], pages');
    }
  }

  lemma SameInUse(at: seq<int>, el: nat, home: int)
    requires el < |at| && at[el] < MAX_ORDER && home < MAX_ORDER
    ensures forall p: int :: InUse(at[el := home], p) <==> InUse(at, p)
  {}

  lemma SameHeads(heads: seq<int>, at: seq<int>, heads': seq<int>, at': seq<int>)
    requires HeadsInUse(heads, at) && |heads'| == LISTS && forall p: int :: InUse(at', p) <==> InUse(at, p)
    requires forall k: nat | MAX_ORDER <= k < LISTS :: heads'[k] == heads[k]
    ensures HeadsInUse(heads', at')
  {}

  /** A free list and the home of el change, and no page that is not on the list or el. */
  lemma FreeListChanges(v: Phys, lists: seq<seq<nat>>, at: seq<int>, k: nat, el: nat, v': Phys, s': seq<nat>, home: int)
    requires LooseBy(v, lists, at) && k < MAX_ORDER && el < |at|
    requires (at[el] == k || at[el] == -1) && (home == k || home == -1)
    requires |v'.pages| == |v.pages| && |v'.heads| == LISTS
    requires forall j: nat | j < LISTS && j != k :: v'.heads[j] == v.heads[j]
    requires forall p: nat | p < |at| && p != el && at[p] != k :: v'.pages[p] == v.pages[p]
    requires IsClist(v'.pages, v'.heads[k], s') && HoldsPagesAt(s', at[el := home], k)
    ensures LooseBy(v', lists[k := s'], at[el := home])
  {
    hide IsClist, HoldsPagesAt, Closed, HeadsInUse, InUse;
    var at', lists' := at[el := home], lists[k := s'];
    SameInUse(at, el, home);
    SameHeads(v.heads, at, v'.heads, at');
    LooseSizes(v, lists, at);
    OthersClosed(v.pages, at, v'.pages, at', k, el);
    forall j: nat | j < MAX_ORDER && j != k
      ensures IsClist(v'.pages, v'.heads[j], lists'[j]) && HoldsPagesAt(lists'[j], at', j)
    {
      FreeListStays(v, lists, at, j, v', at', el);
    }
  }

  lemma OthersClosed(d: seq<Ppage>, at: seq<int>, d': seq<Ppage>, at': seq<int>, k: nat, el: nat)
    requires Closed(d, at) && |d'| == |d| == |at| == |at'| && forall p: int :: InUse(at', p) <==> InUse(at, p)
    requires k < MAX_ORDER && el < |at| && at[el] < MAX_ORDER
    requires forall p: nat | p < |at| && p != el && at[p] != k :: d'[p] == d[p]
    ensures Closed(d', at')
  {
    hide Closed;
    forall p: nat | InUse(at, p) ensures d'[p].prev == d[p].prev && d'[p].next == d[p].next {
      assert p != el && at[p] != k;
    }
    SameClosed(d, at, d', at');
  }

  lemma LinkLoose(v: Phys, lists: seq<seq<nat>>, at: seq<int>, k: nat, el: nat)
    requires LooseBy(v, lists, at) && k < MAX_ORDER && el < |v.pages| && at[el] == -1
    ensures LooseBy(Link(v, k, el), lists[k := lists[k] + [el]], at[el := k])
  {
    var s := lists[k];
    assert HoldsPagesAt(s, at, k) && IsClist(v.pages, v.heads[k], s);
    PushAppends(v.pages, v.heads[k], s, el);
    hide LooseBy, IsClist, Push;
    assert HoldsPagesAt(s + [el], at[el := k], k);
    LooseSizes(v, lists, at);
    FreeListChanges(v, lists, at, k, el, Link(v, k, el), s + [el], k);
  }

  /** The first element leaves a free list. */
  lemma PopLoose(v: Phys, lists: seq<seq<nat>>, at: seq<int>, k: nat)
    requires LooseBy(v, lists, at) && k < MAX_ORDER && lists[k] != []
    ensures lists[k][0] < |v.pages| && at[lists[k][0]] == k
    ensures LooseBy(Unlink(v, k, lists[k][0]), lists[k := lists[k][1..]], at[lists[k][0] := -1])
  {
    var s, el := lists[k], lists[k][0];
    assert HoldsPagesAt(s, at, k) && IsClist(v.pages, v.heads[k], s) && el in s;
    DeleteRemoves(v.pages, v.heads[k], s, 0);
    assert Without(s, 0) == s[1..];
    forall p: nat ensures p in s[1..] <==> p in s && p != el { WithoutHolds(s, 0, p); }
    hide LooseBy, IsClist, Delete, Deleted;
    LooseSizes(v, lists, at);
    assert HoldsPagesAt(s[1..], at[el := -1], k);
    FreeListChanges(v, lists, at, k, el, Unlink(v, k, el), s[1..], -1);
  }

  // ----- a push on a used list, whatever it has become -----

  lemma NextKeepsClosed(d: seq<Ppage>, at: seq<int>, i: int, x: int)
    requires Closed(d, at) && InUse(at, i) && InUse(at, x)
    ensures Closed(SetNext(d, i, x), at)
  {
    forall p: nat | InUse(at, p) ensures LeadsInUse(at, SetNext(d, i, x)[p]) { assert LeadsInUse(at, d[p]); }
  }

  lemma PrevKeepsClosed(d: seq<Ppage>, at: seq<int>, i: int, x: int)
    requires Closed(d, at) && InUse(at, i) && InUse(at, x)
    ensures Closed(SetPrev(d, i, x), at)
  {
    forall p: nat | InUse(at, p) ensures LeadsInUse(at, SetPrev(d, i, x)[p]) { assert LeadsInUse(at, d[p]); }
  }

  lemma SetLeaves(d: seq<Ppage>, at: seq<int>, i: int, x: int)
    requires InUse(at, i)
    ensures forall p: nat | p < |d| && !InUse(at, p) :: SetNext(d, i, x)[p] == d[p] && SetPrev(d, i, x)[p] == d[p]
  {}

  /** The new element with links to the head and its prev. */
  lemma NewIsClosed(d: seq<Ppage>, at: seq<int>, list: int, el: nat, u: nat)
    requires Closed(d, at) && InUse(at, list) && el < |d| && u >= MAX_ORDER
    ensures var d1 := SetNext(d, el, list);
            var d2 := SetPrev(d1, el, Prev(d1, list));
            Closed(d2, at[el := u]) && InUse(at[el := u], Prev(d2, list))
            && forall p: nat | p < |d| && p != el :: d2[p] == d[p]
  {
    var d1 := SetNext(d, el, list);
    var d2 := SetPrev(d1, el, Prev(d1, list));
    NewLinks(d, list, el);
    assert LeadsInUse(at, d[list]);
    hide SetNext, SetPrev, Prev, Closed, InUse;
    StillClosed(d, at, d2, el, u);
    PrevInUse(d2, at[el := u], list);
  }

  lemma NewLinks(d: seq<Ppage>, list: int, el: nat)
    requires 0 <= list < |d| && el < |d|
    ensures var d1 := SetNext(d, el, list);
            var d2 := SetPrev(d1, el, Prev(d1, list));
            d2 == d[el := d[el].(next := list, prev := d[list].prev)]
  {}

  lemma StillClosed(d: seq<Ppage>, at: seq<int>, d': seq<Ppage>, el: nat, u: nat)
    requires Closed(d, at) && el < |d| == |d'| && u >= MAX_ORDER && d' == d[el := d'[el]] && LeadsInUse(at, d'[el])
    ensures Closed(d', at[el := u])
  {
    var at' := at[el := u];
    assert forall q: int :: InUse(at, q) ==> InUse(at', q);
    forall p: nat | InUse(at', p) ensures LeadsInUse(at', d'[p]) {
      if p != el { assert LeadsInUse(at, d[p]); }
    }
  }

  lemma PrevInUse(d: seq<Ppage>, at: seq<int>, i: int)
    requires Closed(d, at) && InUse(at, i)
    ensures InUse(at, Prev(d, i))
  {
    assert LeadsInUse(at, d[i]);
  }

  lemma PushKeepsClosed(d: seq<Ppage>, at: seq<int>, list: int, el: nat, u: nat)
    requires Closed(d, at) && (list == NULL || InUse(at, list)) && el < |d| && u >= MAX_ORDER
    ensures Closed(Push(d, list, el), at[el := u])
    ensures forall p: nat | p < |d| && p != el && !InUse(at, p) :: Push(d, list, el)[p] == d[p]
  {
    if list != NULL {
      var at' := at[el := u];
      var d1 := SetNext(d, el, list);
      var d2 := SetPrev(d1, el, Prev(d1, list));
      var d3 := SetNext(d2, Prev(d2, list), el);
      NewIsClosed(d, at, list, el, u);
      hide SetNext, SetPrev, Prev, Closed;
      NextKeepsClosed(d2, at', Prev(d2, list), el);
      SetLeaves(d2, at', Prev(d2, list), el);
      PrevKeepsClosed(d3, at', list, el);
      SetLeaves(d3, at', list, el);
    }
  }

  lemma PushLoose(v: Phys, lists: seq<seq<nat>>, at: seq<int>, u: nat, el: nat)
    requires LooseBy(v, lists, at) && MAX_ORDER <= u < LISTS && el < |v.pages| && (at[el] == -1 || InUse(at, el))
    ensures LooseBy(Link(v, u, el), lists[u := lists[u] + [el]], at[el := u])
  {
    hide Push, Closed, IsClist, HoldsPagesAt;
    var v', lists', at' := Link(v, u, el), lists[u := lists[u] + [el]], at[el := u];
    PushKeepsClosed(v.pages, at, v.heads[u], el, u);
    forall j: nat | j < MAX_ORDER ensures IsClist(v'.pages, v'.heads[j], lists'[j]) && HoldsPagesAt(lists'[j], at', j) {
      FreeListStays(v, lists, at, j, v', at', el);
    }
  }

  /** Every link the push follows is there. */
  lemma PushLooseIsSafe(v: Phys, lists: seq<seq<nat>>, at: seq<int>, k: nat)
    requires LooseBy(v, lists, at) && k < LISTS
    ensures !PushFollows(v.pages, v.heads[k])
  {
    if k < MAX_ORDER {
      assert IsClist(v.pages, v.heads[k], lists[k]);
      PushIsSafe(v.pages, v.heads[k], lists[k]);
    }
  }

  // ----- allocating as written -----

  /** What an allocation as written leaves behind. */
  ghost predicate TookLoosely(v: Phys, lists: seq<seq<nat>>, order: nat, r: Result)
    requires Fits(lists, order)
  {
    Took(v, lists, order, r) && Loose(r.v, AllocLists(lists, order))
  }

  /** What stands on the used lists is of no concern. */
  lemma UsedIgnored(v: Phys, lists: seq<seq<nat>>, at: seq<int>, lists': seq<seq<nat>>)
    requires LooseBy(v, lists, at) && |lists'| == LISTS && forall k: nat | k < MAX_ORDER :: lists'[k] == lists[k]
    ensures LooseBy(v, lists', at)
  {
    hide Closed, HeadsInUse, IsClist, HoldsPagesAt;
  }

  lemma LooseFits(v: Phys, lists: seq<seq<nat>>, order: nat)
    requires Loose(v, lists) && order < MAX_ORDER
    ensures Fits(lists, order) ==> SmallestFit(FreeSet(v.pages), order, Source(lists, order))
    ensures !Fits(lists, order) ==> forall c :: !SmallestFit(FreeSet(v.pages), order, c)
  {
    hide FreeThreads, Tiled, SmallestFit, FitOrder, Homes, Closed, HeadsInUse;
    FreeListsFit(v, lists, order);
  }

  lemma HeadLoose(v: Phys, lists: seq<seq<nat>>, at: seq<int>, order: nat, p: nat)
    requires LooseBy(v, lists, at) && order < MAX_ORDER && |v.heads| == |lists| == LISTS && |at| == |v.pages|
    requires lists[FreeList(order)] != [] && p == lists[FreeList(order)][0] == v.heads[FreeList(order)] && p < |at|
    ensures TakeHead(v, order).Done? && TakeHead(v, order).ppn == p && at[p] == FreeList(order)
    ensures LooseBy(TakeHead(v, order).v,
                    lists[FreeList(order) := lists[FreeList(order)][1..]]
                         [UsedList(order) := lists[UsedList(order)] + [p]],
                    at[p := UsedList(order)])
  {
    hide LooseBy, Link, Unlink;
    var k, u := FreeList(order), UsedList(order);
    PopLoose(v, lists, at, k);
    var v1, lists1, at1 := Unlink(v, k, p), lists[k := lists[k][1..]], at[p := -1];
    PushLoose(v1, lists1, at1, u, p);
    var v2 := Link(v1, u, p);
    assert at1[p := u] == at[p := u];
    RelabelLoose(v2, lists1[u := lists1[u] + [p]], at[p := u], v2.pages[p := v2.pages[p].(count := 1)]);
  }

  lemma HeadLooseIs(v: Phys, lists: seq<seq<nat>>, at: seq<int>, order: nat)
    requires LooseBy(v, lists, at) && order < MAX_ORDER && lists[FreeList(order)] != []
    ensures v.heads[FreeList(order)] == lists[FreeList(order)][0] < |v.pages|
    ensures Fits(lists, order) && Source(lists, order) == Block(lists[FreeList(order)][0], order)
    ensures AllocLists(lists, order)
         == lists[FreeList(order) := lists[FreeList(order)][1..]]
                 [UsedList(order) := lists[UsedList(order)] + [lists[FreeList(order)][0]]]
  {
    HeadIsThere(v, lists, at, order);
  }

  lemma HeadWrites(v: Phys, order: nat, p: nat)
    requires |v.heads| == LISTS && order < MAX_ORDER && v.heads[FreeList(order)] == p < |v.pages|
    ensures TakeHead(v, order).Done? && TakeHead(v, order).ppn == p
    ensures SameData(v.pages[p := v.pages[p].(count := 1)], TakeHead(v, order).v.pages)
  {
    hide Link, Unlink, SameData;
    var v1 := Unlink(v, FreeList(order), p);
    var v2 := Link(v1, UsedList(order), p);
    UnlinkData(v, FreeList(order), p);
    LinkData(v1, UsedList(order), p);
    SameDataTrans(v.pages, v1.pages, v2.pages);
    CountedAlike(v.pages, v2.pages, p);
  }

  lemma CountedAlike(d: seq<Ppage>, d': seq<Ppage>, p: nat)
    requires SameData(d, d') && p < |d|
    ensures SameData(d[p := d[p].(count := 1)], d'[p := d'[p].(count := 1)])
  {}

  /** The head of a free list is taken. */
  lemma TakesLoosely(v: Phys, lists: seq<seq<nat>>, order: nat)
    requires Loose(v, lists) && order < MAX_ORDER && lists[FreeList(order)] != []
    ensures Fits(lists, order) && TookLoosely(v, lists, order, TakeHead(v, order))
  {
    var c, r := Block(lists[FreeList(order)][0], order), TakeHead(v, order);
    HeadLooseIs(v, lists, Homes(v.pages), order);
    LooseSizes(v, lists, Homes(v.pages));
    hide LooseBy, Tiled, Homes, TakeHead, AllocLists, OnlyInside, TakenHeap, FreeSet, LiveSet, SameData, FitOrder;
    HeadLoose(v, lists, Homes(v.pages), order, c.head);
    HomeOf(v.pages, c.head);
    HeadWrites(v, order, c.head);
    HeadTaken(v.pages, c, r.v.pages);
    StillTiled(v.pages, r.v.pages, c, order);
  }

  /** A split as written: the upper half joins its free list, the lower one a used list. */
  lemma HalvesLoose(v: Phys, lists: seq<seq<nat>>, at: seq<int>, big: nat, upper: nat, order: nat, r: Result)
    requires LooseBy(v, lists, at) && order + 1 < MAX_ORDER && |v.heads| == |lists| == LISTS && |at| == |v.pages|
    requires upper == big + Pow2(order) < |at| && at[upper] == -1 && at[big] == UsedList(order + 1)
    requires r == Split(AsWritten, v, big, order)
    ensures r.Done?
    ensures LooseBy(r.v,
                    lists[FreeList(order) := lists[FreeList(order)] + [upper]]
                         [UsedList(order) := lists[UsedList(order)] + [big]],
                    at[upper := FreeList(order)][big := UsedList(order)])
  {
    hide LooseBy, Link, SplitPages, Pow2;
    var f, u, v1 := FreeList(order), UsedList(order), Phys(SplitPages(v.pages, big, upper, order), v.heads);
    SplitKeepsLinks(v.pages, big, upper, order);
    RelabelLoose(v, lists, at, v1.pages);
    LinkLoose(v1, lists, at, f, upper);
    PushLoose(Link(v1, f, upper), lists[f := lists[f] + [upper]], at[upper := f], u, big);
  }

  lemma BigIsHome(d: seq<Ppage>, big: nat, order: nat)
    requires Tiled(d) && Block(big, order + 1) in LiveSet(d)
    ensures big + Pow2(order) < |d| && Homes(d)[big + Pow2(order)] == -1 && Homes(d)[big] == UsedList(order + 1)
  {
    UpperIsPlain(d, big, order);
    hide Tiled;
  }

  /** The lists after the upper half of a split has joined its free list, but for used ones. */
  ghost predicate UpperJoined(lists: seq<seq<nat>>, big: nat, order: nat, lists': seq<seq<nat>>) {
    && |lists| == |lists'| == LISTS
    && forall k: nat | k < MAX_ORDER ::
         lists'[k] == if k == FreeList(order) then lists[k] + [big + Pow2(order)] else lists[k]
  }

  lemma HalvesJoin(v: Phys, lists: seq<seq<nat>>, at: seq<int>, big: nat, upper: nat, order: nat, lists': seq<seq<nat>>,
                   r: Result)
    requires LooseBy(v, lists, at) && order + 1 < MAX_ORDER && |v.heads| == LISTS && |at| == |v.pages|
    requires upper == big + Pow2(order) < |at| && at[upper] == -1 && at[big] == UsedList(order + 1)
    requires r == Split(AsWritten, v, big, order) && UpperJoined(lists, big, order, lists')
    ensures r.Done? && LooseBy(r.v, lists', at[upper := FreeList(order)][big := UsedList(order)])
  {
    hide LooseBy, Pow2, Split;
    HalvesLoose(v, lists, at, big, upper, order, r);
    UsedIgnored(r.v,
                lists[FreeList(order) := lists[FreeList(order)] + [upper]]
                     [UsedList(order) := lists[UsedList(order)] + [big]],
                at[upper := FreeList(order)][big := UsedList(order)], lists');
  }

  lemma HeldEffect(v: Phys, big: nat, order: nat, r: Result)
    requires Tiled(v.pages) && order + 1 < MAX_ORDER && |v.heads| == LISTS
    requires Block(big, order + 1) in LiveSet(v.pages) && big < |v.pages| && r == Split(AsWritten, v, big, order)
    ensures SplitEffect(v, big, order, r)
  {
    hide Tiled, Split, SplitPages, SplitEffect, FreeSet, LiveSet, SameData, Pow2;
    HeldSplits(AsWritten, v, big, order);
    HalvesEffect(v, big, order, r);
  }

  /** A held block of a loose state is split as written. */
  lemma SplitLoose(v: Phys, lists: seq<seq<nat>>, big: nat, order: nat, lists': seq<seq<nat>>, r: Result)
    requires Loose(v, lists) && order + 1 < MAX_ORDER && |v.heads| == LISTS && UpperJoined(lists, big, order, lists')
    requires Block(big, order + 1) in LiveSet(v.pages) && big < |v.pages| && r == Split(AsWritten, v, big, order)
    ensures SplitEffect(v, big, order, r) && LooseBy(r.v, lists', Homes(r.v.pages))
  {
    hide LooseBy, Tiled, Homes, Split, HeapOf, HalfHeap, OnlyInside, FreeSet, LiveSet, UpperJoined, Pow2;
    BigIsHome(v.pages, big, order);
    HalvesJoin(v, lists, Homes(v.pages), big, big + Pow2(order), order, lists', r);
    HeldEffect(v, big, order, r);
  }

  lemma FreeListsMatch(lists: seq<seq<nat>>, order: nat)
    requires |lists| == LISTS && order + 1 < MAX_ORDER && lists[FreeList(order)] == [] && Fits(lists, order + 1)
    ensures Fits(lists, order) && Source(lists, order) == Source(lists, order + 1)
    ensures UpperJoined(AllocLists(lists, order + 1), Source(lists, order).head, order, AllocLists(lists, order))
  {
    SplitListsMatch(lists, order);
    hide AllocLists, Source, FitOrder;
  }

  /** One level of the recursion as written. */
  lemma SplitsLoosely(v: Phys, lists: seq<seq<nat>>, order: nat, r1: Result)
    requires Loose(v, lists) && order + 1 < MAX_ORDER && |lists| == LISTS && lists[FreeList(order)] == []
    requires Fits(lists, order + 1) && TookLoosely(v, lists, order + 1, r1)
    ensures Fits(lists, order) && r1.Done? && |r1.v.heads| == LISTS && r1.ppn < |r1.v.pages|
    ensures TookLoosely(v, lists, order, Split(AsWritten, r1.v, r1.ppn, order))
  {
    hide LooseBy, Tiled, Homes, Split, AllocLists, OnlyInside, TakenHeap, FreeSet, LiveSet, FitOrder, Source, Pow2,
         SplitEffect,
         UpperJoined;
    var c, r := Source(lists, order + 1), Split(AsWritten, r1.v, r1.ppn, order);
    LooseFits(v, lists, order + 1);
    FreeListsMatch(lists, order);
    TookSizes(v, lists, order + 1, r1);
    StillTiled(v.pages, r1.v.pages, c, order + 1);
    SplitLoose(r1.v, AllocLists(lists, order + 1), c.head, order, AllocLists(lists, order), r);
    SplitHeapMatches(v, c, order, r1.v, r);
    EffectFacts(r1.v, c.head, order, r);
  }

  lemma TookSizes(v: Phys, lists: seq<seq<nat>>, order: nat, r: Result)
    requires Fits(lists, order) && Took(v, lists, order, r)
    ensures |r.v.pages| == |v.pages|
  {}

  lemma EffectFacts(v: Phys, big: nat, order: nat, r: Result)
    requires SplitEffect(v, big, order, r)
    ensures r.Done? && r.ppn == big < |v.pages| == |r.v.pages| && r.v.pages[big].count == v.pages[big].count
  {}

  /** Whether it splits or not, and whatever was split before: as written an allocation takes
      the smallest block that fits and leaves a state that serves the next one. */
  lemma {:induction false} AllocLoose(v: Phys, lists: seq<seq<nat>>, order: nat)
    requires Loose(v, lists) && order < MAX_ORDER && |v.heads| == |lists| == LISTS
    ensures !Fits(lists, order) ==> BlockAlloc(AsWritten, v, order).Panic?
    ensures Fits(lists, order) ==> TookLoosely(v, lists, order, BlockAlloc(AsWritten, v, order))
    decreases MAX_ORDER - order
  {
    hide LooseBy, Tiled, TookLoosely, BlockAlloc, Split, FitOrder, TakeHead;
    LooseHead(v, lists, order);
    OneLevel(AsWritten, v, order);
    if lists[FreeList(order)] != [] {
      TakesLoosely(v, lists, order);
    } else {
      FitsNext(lists, order);
      if order + 1 < MAX_ORDER {
        AllocLoose(v, lists, order + 1);
        if Fits(lists, order + 1) { SplitsLoosely(v, lists, order, BlockAlloc(AsWritten, v, order + 1)); }
      } else {
        OverTheTop(v, order + 1);
      }
    }
  }

  lemma LooseHead(v: Phys, lists: seq<seq<nat>>, order: nat)
    requires Loose(v, lists) && order < MAX_ORDER && |v.heads| == |lists| == LISTS
    ensures v.heads[FreeList(order)] == NULL <==> lists[FreeList(order)] == []
  {
    HeadIsThere(v, lists, Homes(v.pages), order);
  }
}
