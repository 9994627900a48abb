/** Which links the text as written follows when it frees a block
    (src/kernel/mm/physical_pages.c:347-377, src/include/kernel/list.h:237-269). */
module NullLinks {
  import opened Blocks
  import opened FreeBlocks
  import opened BuddyRuns
  import opened BuddyAsWritten
  import opened Clist
  import opened BuddyLists
  import opened BuddyAlloc
  import opened BuddyFree
  import opened FreeAsWritten

  // ----- when that happens -----

  /** A page that is not on a list of n elements is deleted from it; lone says whether it
      was alone on the last list it was on, so that its own links are NULL. */
  predicate Stumbles(n: nat, lone: bool) {
    n == 0 || (n > 1 && lone)
  }

  /** The same from the free list of order k up to that of order 8. */
  ghost predicate StumblesFrom(lists: seq<seq<nat>>, k: nat, lone: bool)
    requires |lists| == LISTS
    decreases MAX_ORDER - k
  {
    k < MAX_ORDER - 1
    && (Stumbles(|lists[FreeList(k)]|, lone) || StumblesFrom(lists, k + 1, lone || |lists[FreeList(k)]| == 1))
  }

  /** Freeing x follows NULL: a block at page 0 or at page 2^order is merged with itself, that
      at page 0 over and over, and deleted from lists it is not on. */
  ghost predicate Misleads(lists: seq<seq<nat>>, free: set<Block>, x: Block)
    requires |lists| == LISTS
  {
    var h, o := FindBuddy(AsWritten, x).head, x.order;
    && o < MAX_ORDER - 1
    && var n, lone := |lists[FreeList(o)]|, |lists[UsedList(o)]| == 1;
       if h == x.head then Stumbles(n, lone) || (h == 0 && StumblesFrom(lists, o + 1, lone || n == 1))
       else h == 0 && Block(0, o) in free && StumblesFrom(lists, o + 1, n == 1)
  }

  // ----- the links of a page that is on no list -----

  /** The links el has kept from the last list it was on. */
  ghost predicate Stale(d: seq<Ppage>, el: nat, lone: bool) {
    && el < |d|
    && if lone then d[el].prev == d[el].next == NULL
       else
         && 0 <= d[el].prev < |d| && 0 <= d[el].next < |d|
         && d[d[el].prev].next == d[el].next && d[d[el].next].prev == d[el].prev
  }

  lemma OnList(d: seq<Ppage>, list: int, s: seq<nat>, i: nat)
    requires IsClist(d, list, s) && i < |s|
    ensures s[i] < |d| && Stale(Delete(d, list, s[i]), s[i], |s| == 1)
  {
    assert LinkedAt(d, s, 0) && LinkedAt(d, s, i);
    assert LinkedAt(d, s, Before(i, |s|)) && LinkedAt(d, s, After(i, |s|));
    if |s| > 1 { assert s[i] != s[Before(i, |s|)] && s[i] != s[After(i, |s|)]; }
  }

  /** Deleting a page that is on no list empties a list of one, or changes nothing. */
  lemma OffList(d: seq<Ppage>, list: int, s: seq<nat>, el: nat, lone: bool)
    requires IsClist(d, list, s) && el !in s && Stale(d, el, lone)
    ensures DeleteFollows(d, list, el) <==> Stumbles(|s|, lone)
    ensures !Stumbles(|s|, lone) ==>
              Delete(d, list, el) == if |s| == 1 then d[el := d[el].(prev := NULL, next := NULL)] else d
  {
    if s != [] {
      assert LinkedAt(d, s, 0);
      assert |s| > 1 ==> s[0] != s[1];
      assert s[0] in s;
    }
  }

  /** el is in hand at order k: on none of the free lists from k up, which are intact. */
  ghost predicate InAir(v: Phys, lists: seq<seq<nat>>, el: nat, k: nat, lone: bool) {
    && |v.heads| == |lists| == LISTS && k < MAX_ORDER && Stale(v.pages, el, lone)
    && v.pages[el].head && v.pages[el].count == 0 && v.pages[el].order == k
    && (forall j: nat | k <= j < MAX_ORDER :: IsClist(v.pages, v.heads[FreeList(j)], lists[FreeList(j)]))
    && (forall j: nat | k <= j < MAX_ORDER :: el !in lists[FreeList(j)])
  }

  lemma StillClist(d: seq<Ppage>, list: int, s: seq<nat>, el: nat, d': seq<Ppage>)
    requires IsClist(d, list, s) && el !in s && |d'| == |d|
    requires forall i: nat | i < |d| && i != el :: d'[i] == d[i]
    ensures IsClist(d', list, s)
  {
    ListUnaffected(d, list, s, d');
  }

  /** A page that is merged with itself. */
  lemma SelfTurn(v: Phys, lists: seq<seq<nat>>, el: nat, k: nat, lone: bool)
    requires InAir(v, lists, el, k, lone) && k < MAX_ORDER - 1
    ensures DeleteFollows(v.pages, v.heads[FreeList(k)], el) <==> Stumbles(|lists[FreeList(k)]|, lone)
    ensures !Stumbles(|lists[FreeList(k)]|, lone) ==>
              InAir(MaskMerged(v, Block(el, k), el), lists, el, k + 1, lone || |lists[FreeList(k)]| == 1)
  {
    OffList(v.pages, v.heads[FreeList(k)], lists[FreeList(k)], el, lone);
    if !Stumbles(|lists[FreeList(k)]|, lone) {
      var v' := MaskMerged(v, Block(el, k), el);
      SelfMerged(v, lists, el, k, lone, v');
      forall j: nat | k + 1 <= j < MAX_ORDER ensures IsClist(v'.pages, v'.heads[FreeList(j)], lists[FreeList(j)]) {
        StillClist(v.pages, v.heads[FreeList(j)], lists[FreeList(j)], el, v'.pages);
      }
    }
  }

  lemma SelfMerged(v: Phys, lists: seq<seq<nat>>, el: nat, k: nat, lone: bool, v': Phys)
    requires |v.heads| == LISTS && k < MAX_ORDER - 1 && Stale(v.pages, el, lone) && |lists| == LISTS
    requires v.pages[el].head && v.pages[el].count == 0
    requires Delete(v.pages, v.heads[FreeList(k)], el)
          == if |lists[FreeList(k)]| == 1 then v.pages[el := v.pages[el].(prev := NULL, next := NULL)] else v.pages
    requires v' == MaskMerged(v, Block(el, k), el)
    ensures Stale(v'.pages, el, lone || |lists[FreeList(k)]| == 1)
    ensures v'.pages[el].head && v'.pages[el].count == 0 && v'.pages[el].order == k + 1
    ensures forall i: nat | i < |v.pages| && i != el :: v'.pages[i] == v.pages[i]
    ensures forall j: nat | k + 1 <= j < LISTS :: v'.heads[j] == v.heads[j]
  {
    hide Delete, Deleted;
  }

  /** Page 0 is merged with itself up to the largest order. */
  lemma {:induction false} ZeroClimbs(v: Phys, lists: seq<seq<nat>>, k: nat, lone: bool)
    requires |v.heads| == |lists| == LISTS && 0 < |v.pages| && k < MAX_ORDER && InAir(v, lists, 0, k, lone)
    ensures MergeFollows(AsWritten, v, Block(0, k)) <==> StumblesFrom(lists, k, lone)
    decreases MAX_ORDER - k
  {
    hide InAir, DeleteFollows, Stumbles, MaskMerged, Pow2, MergeTest, MergeFollows;
    InAirIsFree(v, lists, 0, k, lone);
    if k < MAX_ORDER - 1 {
      SelfTurn(v, lists, 0, k, lone);
      GoesOn(v, Block(0, k), 0);
      if !Stumbles(|lists[FreeList(k)]|, lone) {
        ZeroClimbs(MaskMerged(v, Block(0, k), 0), lists, k + 1, lone || |lists[FreeList(k)]| == 1);
      }
    } else {
      LastPush(v, lists, Block(0, k), lone);
    }
  }

  lemma LastPush(v: Phys, lists: seq<seq<nat>>, x: Block, lone: bool)
    requires InAir(v, lists, x.head, x.order, lone) && x.order == MAX_ORDER - 1
    ensures |v.heads| == LISTS && x.head < |v.pages| && !MergeFollows(AsWritten, v, x)
  {
    PushIsSafe(v.pages, v.heads[FreeList(x.order)], lists[FreeList(x.order)]);
  }

  /** Page 2^order is merged with itself at most once. */
  lemma PowerStops(v: Phys, lists: seq<seq<nat>>, o: nat, lone: bool)
    requires o < MAX_ORDER - 1 && InAir(v, lists, Pow2(o), o + 1, lone) && Block(0, o + 1) !in FreeSet(v.pages)
    ensures !MergeFollows(AsWritten, v, Block(Pow2(o), o + 1))
  {
    DistinctPowers(o);
    PushIsSafe(v.pages, v.heads[FreeList(o + 1)], lists[FreeList(o + 1)]);
  }

  // ----- the first turn -----

  /** x has left its used list. */
  lemma TakenBackInAir(v: Phys, lists: seq<seq<nat>>, x: Block)
    requires BuddyAlloc.Valid(v, lists) && Freeable(v, x.head, x.order)
    ensures !DeleteFollows(v.pages, v.heads[UsedList(x.order)], x.head)
    ensures InAir(TakenBack(v, x.head, x.order), lists, x.head, x.order, |lists[UsedList(x.order)]| == 1)
  {
    LiveIsListed(v, lists, x);
    var u, at := UsedList(x.order), Homes(v.pages);
    var i := IndexOf(lists[u], x.head);
    var v1 := Unlink(v, u, x.head);
    assert IsClist(v.pages, v.heads[u], lists[u]);
    DeleteIsSafe(v.pages, v.heads[u], lists[u], i);
    OnList(v.pages, v.heads[u], lists[u], i);
    UnlinkData(v, u, x.head);
    UnlinkKeeps(v, lists, at, u, i);
    ZeroCount(v1, x, |lists[u]| == 1);
    hide Stale, DeleteFollows, Unlink, Threads;
    forall j: nat | x.order <= j < MAX_ORDER
      ensures IsClist(v1.pages, v1.heads[FreeList(j)], lists[FreeList(j)]) && x.head !in lists[FreeList(j)]
    {
      ListLeftAlone(v, lists, v1, x, i, j);
    }
    forall j: nat | x.order <= j < MAX_ORDER
      ensures IsClist(TakenBack(v, x.head, x.order).pages, v1.heads[FreeList(j)], lists[FreeList(j)])
    {
      StillClist(v1.pages, v1.heads[FreeList(j)], lists[FreeList(j)], x.head, TakenBack(v, x.head, x.order).pages);
    }
  }

  lemma ZeroCount(v: Phys, x: Block, lone: bool)
    requires Stale(v.pages, x.head, lone)
    ensures Stale(v.pages[x.head := v.pages[x.head].(count := 0)], x.head, lone)
  {}

  lemma ListLeftAlone(v: Phys, lists: seq<seq<nat>>, v1: Phys, x: Block, i: nat, j: nat)
    requires Threads(v, lists, Homes(v.pages)) && Freeable(v, x.head, x.order) && j < MAX_ORDER
    requires i < |lists[UsedList(x.order)]|
    requires Threads(v1, lists[UsedList(x.order) := Without(lists[UsedList(x.order)], i)], Homes(v.pages)[x.head := -1])
    ensures IsClist(v1.pages, v1.heads[FreeList(j)], lists[FreeList(j)]) && x.head !in lists[FreeList(j)]
  {
    var lists1 := lists[UsedList(x.order) := Without(lists[UsedList(x.order)], i)];
    assert IsClist(v1.pages, v1.heads[FreeList(j)], lists1[FreeList(j)]);
    assert HoldsPagesAt(lists[FreeList(j)], Homes(v.pages), FreeList(j));
  }

  /** The mask named another block, which leaves its free list and goes on in hand. */
  lemma OtherTurn(v: Phys, lists: seq<seq<nat>>, x: Block, h: nat, lone: bool)
    requires InAir(v, lists, x.head, x.order, lone) && x.order < MAX_ORDER - 1
    requires h != x.head && h in lists[FreeList(x.order)]
    requires h < |v.pages| && v.pages[h].head && v.pages[h].count == 0
    requires Disjoint(lists, x.order)
    ensures !DeleteFollows(v.pages, v.heads[FreeList(x.order)], h)
    ensures InAir(MaskMerged(v, x, h), lists, h, x.order + 1, |lists[FreeList(x.order)]| == 1)
  {
    var k := FreeList(x.order);
    var s, i := lists[k], IndexOf(lists[k], h);
    var v1, v' := Unlink(v, k, h), MaskMerged(v, x, h);
    DeleteIsSafe(v.pages, v.heads[k], s, i);
    OnList(v.pages, v.heads[k], s, i);
    DeleteRemoves(v.pages, v.heads[k], s, i);
    MergedPages(v1.pages, x, h, |s| == 1);
    hide Stale, DeleteFollows, Delete, Deleted, MergePages, IsClist;
    forall j: nat | x.order + 1 <= j < MAX_ORDER
      ensures IsClist(v'.pages, v'.heads[FreeList(j)], lists[FreeList(j)]) && h !in lists[FreeList(j)]
    {
      OtherList(v, lists, x.head, h, x.order, j, v'.pages);
    }
  }

  /** No page on the free list of order o is on one of a larger order. */
  ghost predicate Disjoint(lists: seq<seq<nat>>, o: nat)
    requires |lists| == LISTS
  {
    forall j: nat, p | o < j < MAX_ORDER && p in lists[FreeList(o)] :: p !in lists[FreeList(j)]
  }

  lemma ValidIsDisjoint(v: Phys, lists: seq<seq<nat>>, o: nat)
    requires Threaded(v, lists) && o < MAX_ORDER
    ensures Disjoint(lists, o)
  {
    assert HoldsPagesAt(lists[FreeList(o)], Homes(v.pages), FreeList(o));
    forall j: nat, p | o < j < MAX_ORDER && p in lists[FreeList(o)] ensures p !in lists[FreeList(j)] {
      assert HoldsPagesAt(lists[FreeList(j)], Homes(v.pages), FreeList(j));
    }
  }

  lemma MergedPages(d: seq<Ppage>, x: Block, h: nat, lone: bool)
    requires Stale(d, h, lone) && x.head < |d| && h != x.head && d[h].count == 0
    ensures var d' := MergePages(d, x.head, h, h, x.order);
            && Stale(d', h, lone) && d'[h].head && d'[h].count == 0 && d'[h].order == x.order + 1
            && forall i: nat | i < |d| && i != x.head && i != h :: d'[i] == d[i]
  {}

  lemma OtherList(v: Phys, lists: seq<seq<nat>>, el: nat, h: nat, o: nat, j: nat, d': seq<Ppage>)
    requires |v.heads| == |lists| == LISTS && o < j < MAX_ORDER
    requires IsClist(v.pages, v.heads[FreeList(j)], lists[FreeList(j)])
    requires el !in lists[FreeList(j)] && h in lists[FreeList(o)] && |d'| == |v.pages|
    requires forall i: nat | i < |d'| && i != el && i !in lists[FreeList(o)] :: d'[i] == v.pages[i]
    requires Disjoint(lists, o)
    ensures IsClist(d', v.heads[FreeList(j)], lists[FreeList(j)]) && h !in lists[FreeList(j)]
  {
    ListUnaffected(v.pages, v.heads[FreeList(j)], lists[FreeList(j)], d');
  }

  /** The block of which page 2^o is the lower half's neighbour is not free with it. */
  lemma NotBelow(free: set<Block>, o: nat)
    requires Packed(free) && Block(Pow2(o), o) in free
    ensures Block(0, o + 1) !in free
  {
    HalfOrWhole(0, o);
    OverlapExcludes(free, Block(Pow2(o), o), Block(0, o + 1));
  }

  lemma FirstTurn(v: Phys, lists: seq<seq<nat>>, x: Block, v1: Phys, h: nat)
    requires BuddyAlloc.Valid(v, lists) && Freeable(v, x.head, x.order) && v1 == TakenBack(v, x.head, x.order)
    requires x.order < MAX_ORDER - 1 && h == FindBuddy(AsWritten, x).head != x.head
    requires Block(h, x.order) in FreeSet(v.pages)
    ensures x in FreeSet(v1.pages) && Block(h, x.order) in FreeSet(v1.pages)
    ensures !DeleteFollows(v1.pages, v1.heads[FreeList(x.order)], h)
    ensures InAir(MaskMerged(v1, x, h), lists, h, x.order + 1, |lists[FreeList(x.order)]| == 1)
  {
    TakenBackInAir(v, lists, x);
    TakenBackData(v, x);
    ValidIsDisjoint(v, lists, x.order);
    assert HoldsPagesAt(lists[FreeList(x.order)], Homes(v.pages), FreeList(x.order));
    hide InAir, DeleteFollows, TakenBack, Threads, Tiled, MaskMerged;
    OtherTurn(v1, lists, x, h, |lists[UsedList(x.order)]| == 1);
  }

  ghost predicate FreeWithin(d: seq<Ppage>, free: set<Block>) {
    FreeSet(d) <= free
  }

  lemma StaysWithin(v: Phys, x: Block, h: nat, free: set<Block>)
    requires |v.heads| == LISTS && x.order < MAX_ORDER && FreeWithin(v.pages, free)
    requires x.head < |v.pages| && h < |v.pages| && MergeTest(v.pages, x.head, x.order)
    requires MergeTest(v.pages, h, x.order)
    ensures FreeWithin(MaskMerged(v, x, h).pages, free + {Block(h, x.order + 1)})
  {
    MaskMergedData(v, x, h);
  }

  /** From the second turn on, the loop has page h in hand. */
  lemma LaterTurns(v: Phys, lists: seq<seq<nat>>, free: set<Block>, o: nat, h: nat, lone: bool)
    requires o < MAX_ORDER - 1 && (h == 0 || h == Pow2(o)) && InAir(v, lists, h, o + 1, lone)
    requires Packed(free) && Block(h, o) in free && FreeWithin(v.pages, free + {Block(h, o + 1)})
    ensures MergeFollows(AsWritten, v, Block(h, o + 1)) <==> h == 0 && StumblesFrom(lists, o + 1, lone)
  {
    HalfOrWhole(0, o);
    if h == 0 {
      ZeroClimbs(v, lists, o + 1, lone);
    } else {
      NotBelow(free, o);
      PowerStops(v, lists, o, lone);
    }
  }

  lemma NoTurn(v: Phys, lists: seq<seq<nat>>, x: Block, lone: bool)
    requires InAir(v, lists, x.head, x.order, lone)
    requires !Merges(AsWritten, FreeSet(v.pages) - {x}, x)
    ensures !MergeFollows(AsWritten, v, x)
  {
    PushIsSafe(v.pages, v.heads[FreeList(x.order)], lists[FreeList(x.order)]);
    assert Block(x.head, x.order) == x;
    hide IsClist, Stale, DeleteFollows;
  }

  lemma GoesOn(v: Phys, x: Block, h: nat)
    requires |v.heads| == LISTS && x.head < |v.pages| && x.order < MAX_ORDER - 1 && h < |v.pages|
    requires h == FindBuddy(AsWritten, x).head && MergeTest(v.pages, h, x.order)
    ensures MergeFollows(AsWritten, v, x) <==>
              || DeleteFollows(v.pages, v.heads[FreeList(x.order)], h)
              || MergeFollows(AsWritten, MaskMerged(v, x, h), Block(h, x.order + 1))
  {
    AndAgain(x.head, Pow2(x.order));
    hide Turned, DeleteFollows, And, Pow2, MergeTest, PushFollows;
  }

  /** x is at the very page its mask names. */
  lemma SelfMerges(v: Phys, lists: seq<seq<nat>>, x: Block, free: set<Block>, lone: bool)
    requires |v.heads| == |lists| == LISTS && x.head < |v.pages|
    requires InAir(v, lists, x.head, x.order, lone) && x.order < MAX_ORDER - 1 && FindBuddy(AsWritten, x).head == x.head
    requires x.head == 0 || x.head == Pow2(x.order)
    requires Packed(free) && x in free && FreeWithin(v.pages, free)
    ensures MergeFollows(AsWritten, v, x) <==>
              || Stumbles(|lists[FreeList(x.order)]|, lone)
              || (x.head == 0 && StumblesFrom(lists, x.order + 1, lone || |lists[FreeList(x.order)]| == 1))
  {
    hide InAir, DeleteFollows, MaskMerged, Packed, StumblesFrom, Stumbles, And, Pow2, FreeWithin, MergeTest,
         MergeFollows;
    InAirIsFree(v, lists, x.head, x.order, lone);
    SelfTurn(v, lists, x.head, x.order, lone);
    GoesOn(v, x, x.head);
    if !Stumbles(|lists[FreeList(x.order)]|, lone) {
      StaysWithin(v, x, x.head, free);
      LaterTurns(MaskMerged(v, x, x.head), lists, free, x.order, x.head, lone || |lists[FreeList(x.order)]| == 1);
    }
  }

  /** What is known of a block in hand, v1, when its mask names another free block, h. */
  ghost predicate OtherNamed(v: Phys, lists: seq<seq<nat>>, x: Block, h: nat, free: set<Block>) {
    && |v.heads| == |lists| == LISTS && x.order < MAX_ORDER - 1
    && x.head < |v.pages| && MergeTest(v.pages, x.head, x.order) && h < |v.pages| && MergeTest(v.pages, h, x.order)
    && FreeWithin(v.pages, free) && Packed(free) && Block(h, x.order) in free && (h == 0 || h == Pow2(x.order))
    && !DeleteFollows(v.pages, v.heads[FreeList(x.order)], h)
    && InAir(MaskMerged(v, x, h), lists, h, x.order + 1, |lists[FreeList(x.order)]| == 1)
  }

  lemma OtherIsNamed(v: Phys, lists: seq<seq<nat>>, x: Block, v1: Phys, h: nat)
    requires BuddyAlloc.Valid(v, lists) && Freeable(v, x.head, x.order) && v1 == TakenBack(v, x.head, x.order)
    requires x.order < MAX_ORDER - 1 && h == FindBuddy(AsWritten, x).head != x.head
    requires Block(h, x.order) in FreeSet(v.pages)
    requires h == 0 || h == Pow2(x.order)
    ensures OtherNamed(v1, lists, x, h, FreeSet(v.pages) + LiveSet(v.pages))
  {
    FirstTurn(v, lists, x, v1, h);
    TakenBackData(v, x);
    hide InAir, DeleteFollows, TakenBack, Threads, MaskMerged, And, Pow2;
    IsHeld(v, x);
  }

  lemma OtherMerges(v: Phys, lists: seq<seq<nat>>, x: Block, h: nat, free: set<Block>)
    requires OtherNamed(v, lists, x, h, free) && h == FindBuddy(AsWritten, x).head
    ensures MergeFollows(AsWritten, v, x)
       <==> h == 0 && StumblesFrom(lists, x.order + 1, |lists[FreeList(x.order)]| == 1)
  {
    hide InAir, DeleteFollows, MaskMerged, Packed, StumblesFrom, Stumbles, And, Pow2, FreeWithin, MergeTest,
         MergeFollows;
    StaysWithin(v, x, h, free);
    GoesOn(v, x, h);
    LaterTurns(MaskMerged(v, x, h), lists, free, x.order, h, |lists[FreeList(x.order)]| == 1);
  }

  lemma HandFacts(v: Phys, lists: seq<seq<nat>>, x: Block, v1: Phys)
    requires BuddyAlloc.Valid(v, lists) && Freeable(v, x.head, x.order) && v1 == TakenBack(v, x.head, x.order)
    ensures FindBuddy(AsWritten, x).head == 0 || FindBuddy(AsWritten, x).head == Pow2(x.order)
    ensures FreeSet(v1.pages) - {x} == FreeSet(v.pages)
    ensures var free := FreeSet(v.pages) + LiveSet(v.pages); Packed(free) && x in free && FreeWithin(v1.pages, free)
  {
    TakenBackData(v, x);
    IsHeld(v, x);
    NeverNamesBuddy(x);
  }

  /** What is known of x once it is in hand, v1. */
  ghost predicate HasInHand(v: Phys, lists: seq<seq<nat>>, x: Block, v1: Phys) {
    && |v1.heads| == |v.heads| == |lists| == LISTS && x.head < |v1.pages| && x.order < MAX_ORDER
    && InAir(v1, lists, x.head, x.order, |lists[UsedList(x.order)]| == 1)
    && (FindBuddy(AsWritten, x).head == 0 || FindBuddy(AsWritten, x).head == Pow2(x.order))
    && FreeSet(v1.pages) - {x} == FreeSet(v.pages)
    && var free := FreeSet(v.pages) + LiveSet(v.pages); Packed(free) && x in free && FreeWithin(v1.pages, free)
  }

  lemma GetsInHand(v: Phys, lists: seq<seq<nat>>, x: Block)
    requires BuddyAlloc.Valid(v, lists) && Freeable(v, x.head, x.order)
    ensures HasInHand(v, lists, x, TakenBack(v, x.head, x.order))
    ensures !DeleteFollows(v.pages, v.heads[UsedList(x.order)], x.head)
  {
    TakenBackInAir(v, lists, x);
    HandFacts(v, lists, x, TakenBack(v, x.head, x.order));
  }

  lemma NoMergeAgrees(v: Phys, lists: seq<seq<nat>>, x: Block, v1: Phys)
    requires HasInHand(v, lists, x, v1) && !Merges(AsWritten, FreeSet(v.pages), x)
    ensures !MergeFollows(AsWritten, v1, x) && !Misleads(lists, FreeSet(v.pages), x)
  {
    hide InAir, Packed, StumblesFrom, Stumbles, And, Pow2, MergeFollows, FreeWithin;
    NoTurn(v1, lists, x, |lists[UsedList(x.order)]| == 1);
  }

  lemma SelfAgrees(v: Phys, lists: seq<seq<nat>>, x: Block, v1: Phys)
    requires HasInHand(v, lists, x, v1) && x.order < MAX_ORDER - 1 && FindBuddy(AsWritten, x).head == x.head
    ensures MergeFollows(AsWritten, v1, x) <==> Misleads(lists, FreeSet(v.pages), x)
  {
    hide InAir, Packed, StumblesFrom, Stumbles, And, Pow2, MergeFollows, FreeWithin;
    SelfMerges(v1, lists, x, FreeSet(v.pages) + LiveSet(v.pages), |lists[UsedList(x.order)]| == 1);
  }

  lemma OtherAgrees(v: Phys, lists: seq<seq<nat>>, x: Block, v1: Phys)
    requires BuddyAlloc.Valid(v, lists) && Freeable(v, x.head, x.order) && v1 == TakenBack(v, x.head, x.order)
    requires HasInHand(v, lists, x, v1) && Merges(AsWritten, FreeSet(v.pages), x)
    requires FindBuddy(AsWritten, x).head != x.head
    ensures MergeFollows(AsWritten, v1, x) <==> Misleads(lists, FreeSet(v.pages), x)
  {
    var h := FindBuddy(AsWritten, x).head;
    assert Block(h, x.order) in FreeSet(v.pages);
    hide InAir, Packed, StumblesFrom, Stumbles, And, Pow2, MergeFollows, FreeWithin;
    OtherIsNamed(v, lists, x, v1, h);
    OtherMerges(v1, lists, x, h, FreeSet(v.pages) + LiveSet(v.pages));
  }

  /** As long as the lists are whole: freeing x as written follows a NULL link exactly when
      the lengths of these lists say so. */
  lemma FollowsNullIff(v: Phys, lists: seq<seq<nat>>, x: Block)
    requires BuddyAlloc.Valid(v, lists) && Freeable(v, x.head, x.order)
    ensures FreeFollows(AsWritten, v, x) <==> Misleads(lists, FreeSet(v.pages), x)
  {
    var v1 := TakenBack(v, x.head, x.order);
    GetsInHand(v, lists, x);
    hide DeleteFollows, MergeFollows, Misleads, HasInHand, Merges, TakenBack;
    if !Merges(AsWritten, FreeSet(v.pages), x) {
      NoMergeAgrees(v, lists, x, v1);
    } else {
      assert x.order < MAX_ORDER - 1 by { MergesBelow(FreeSet(v.pages), x); }
      if FindBuddy(AsWritten, x).head == x.head {
        SelfAgrees(v, lists, x, v1);
      } else {
        OtherAgrees(v, lists, x, v1);
      }
    }
  }

  lemma MergesBelow(free: set<Block>, x: Block)
    requires Merges(AsWritten, free, x)
    ensures x.order < MAX_ORDER - 1
  {}

  lemma IsHeld(v: Phys, x: Block)
    requires Tiled(v.pages) && Freeable(v, x.head, x.order)
    ensures x in LiveSet(v.pages) && Packed(FreeSet(v.pages) + LiveSet(v.pages)) && x.Aligned()
  {
    assert x in FreeSet(v.pages) + LiveSet(v.pages);
  }

  lemma InAirIsFree(v: Phys, lists: seq<seq<nat>>, el: nat, k: nat, lone: bool)
    requires InAir(v, lists, el, k, lone)
    ensures el < |v.pages| && MergeTest(v.pages, el, k)
  {}
}
