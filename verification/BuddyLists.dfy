/** The buddy allocator as physical_pages.c runs it: page descriptors in an array, with
    a circular list of free and one of used blocks for every order. */
module BuddyLists {
  import opened Blocks
  import opened FreeBlocks
  import opened Clist

  /** The page descriptors and the list heads: free_ppages_blocks_clists followed by
      used_ppages_blocks_clists. */
  datatype Phys = Phys(pages: seq<Ppage>, heads: seq<int>)

  const LISTS: nat := 2 * MAX_ORDER

  function FreeList(order: nat): nat { order }

  function UsedList(order: nat): nat { MAX_ORDER + order }

  /** The list a descriptor belongs on, -1 for a page that heads no block. */
  function Home(p: Ppage): int {
    if !p.head then -1 else if p.count == 0 then FreeList(p.order) else UsedList(p.order)
  }

  // ----- twenty disjoint lists -----

  ghost predicate HoldsPagesAt(s: seq<nat>, at: seq<int>, k: int) {
    forall p: nat :: p in s <==> p < |at| && at[p] == k
  }

  /** The lists hold the pages they should: lists[k] is threaded from heads[k] and holds
      exactly the pages with at[p] == k. */
  ghost predicate Threads(v: Phys, lists: seq<seq<nat>>, at: seq<int>) {
    && |v.heads| == |lists| == LISTS && |at| == |v.pages|
    && (forall k | 0 <= k < LISTS :: IsClist(v.pages, v.heads[k], lists[k]))
    && (forall k | 0 <= k < LISTS :: HoldsPagesAt(lists[k], at, k))
  }

  /** The free lists are whole: they hold the pages they should. */
  ghost predicate FreeThreads(v: Phys, lists: seq<seq<nat>>, at: seq<int>) {
    && |v.heads| == |lists| == LISTS && |at| == |v.pages|
    && (forall k: nat | k < MAX_ORDER :: IsClist(v.pages, v.heads[k], lists[k]))
    && (forall k: nat | k < MAX_ORDER :: HoldsPagesAt(lists[k], at, k))
  }

  /** Threads, except that nothing is said of the broken lists. */
  ghost predicate ThreadsBut(v: Phys, lists: seq<seq<nat>>, at: seq<int>, broken: set<nat>) {
    && |v.heads| == |lists| == LISTS && |at| == |v.pages|
    && (forall k: nat | k < LISTS && k !in broken :: IsClist(v.pages, v.heads[k], lists[k]))
    && (forall k: nat | k < LISTS && k !in broken :: HoldsPagesAt(lists[k], at, k))
  }

  lemma ThreadsSizes(v: Phys, lists: seq<seq<nat>>, at: seq<int>, broken: set<nat>)
    requires ThreadsBut(v, lists, at, broken)
    ensures |v.heads| == |lists| == LISTS && |at| == |v.pages|
  {}

  ghost function Homes(pages: seq<Ppage>): (at: seq<int>)
    ensures |at| == |pages|
  {
    seq(|pages|, p requires 0 <= p < |pages| => Home(pages[p]))
  }

  /** Every block head is on the list its own descriptor names, and nothing else is on any. */
  ghost predicate Threaded(v: Phys, lists: seq<seq<nat>>) {
    Threads(v, lists, Homes(v.pages))
  }

  function Unlink(v: Phys, k: nat, el: nat): (v': Phys)
    requires k < |v.heads|
    ensures |v'.pages| == |v.pages| && |v'.heads| == |v.heads|
  {
    Phys(Delete(v.pages, v.heads[k], el), v.heads[k := Deleted(v.pages, v.heads[k], el)])
  }

  function Link(v: Phys, k: nat, el: nat): (v': Phys)
    requires k < |v.heads|
    ensures |v'.pages| == |v.pages| && |v'.heads| == |v.heads|
  {
    Phys(Push(v.pages, v.heads[k], el), v.heads[k := PushedTail(v.heads[k], el)])
  }

  lemma OthersUnaffected(v: Phys, lists: seq<seq<nat>>, at: seq<int>, k: nat, v': Phys, el: nat)
    requires Threads(v, lists, at) && k < LISTS && |v'.heads| == LISTS
    requires OnlyLinks(v.pages, v'.pages, lists[k] + [el])
    requires el < |at| && (at[el] == k || at[el] == -1)
    requires forall j | 0 <= j < LISTS && j != k :: v'.heads[j] == v.heads[j]
    ensures forall j | 0 <= j < LISTS && j != k :: IsClist(v'.pages, v'.heads[j], lists[j])
  {
    assert HoldsPagesAt(lists[k], at, k);
    forall j | 0 <= j < LISTS && j != k ensures IsClist(v'.pages, v'.heads[j], lists[j]) {
      assert HoldsPagesAt(lists[j], at, j) && IsClist(v.pages, v.heads[j], lists[j]);
      forall p: nat | p in lists[j] && p < |v.pages| ensures v'.pages[p] == v.pages[p] {
        assert p !in lists[k] && p != el;
      }
      ListUnaffected(v.pages, v.heads[j], lists[j], v'.pages);
    }
  }

  lemma UnlinkKeeps(v: Phys, lists: seq<seq<nat>>, at: seq<int>, k: nat, i: nat)
    requires Threads(v, lists, at) && k < LISTS && i < |lists[k]|
    ensures lists[k][i] < |v.pages|
    ensures Threads(Unlink(v, k, lists[k][i]), lists[k := Without(lists[k], i)], at[lists[k][i] := -1])
    ensures OnlyLinks(v.pages, Unlink(v, k, lists[k][i]).pages, lists[k])
  {
    var s, el := lists[k], lists[k][i];
    assert HoldsPagesAt(s, at, k) && el in s;
    assert IsClist(v.pages, v.heads[k], s);
    DeleteRemoves(v.pages, v.heads[k], s, i);
    OthersUnaffected(v, lists, at, k, Unlink(v, k, el), el);
    var lists', at' := lists[k := Without(s, i)], at[el := -1];
    forall j | 0 <= j < LISTS ensures HoldsPagesAt(lists'[j], at', j) {
      assert HoldsPagesAt(lists[j], at, j);
      if j == k {
        forall p: nat ensures p in Without(s, i) <==> p in s && p != el { WithoutHolds(s, i, p); }
      }
    }
  }

  lemma WithoutHolds(s: seq<nat>, i: nat, p: nat)
    requires i < |s| && Distinct(s)
    ensures p in Without(s, i) <==> p in s && p != s[i]
  {
    if p in s && p != s[i] {
      var j :| 0 <= j < |s| && s[j] == p;
      assert Without(s, i)[if j < i then j else j - 1] == p;
    }
  }

  lemma LinkKeeps(v: Phys, lists: seq<seq<nat>>, at: seq<int>, k: nat, el: nat)
    requires Threads(v, lists, at) && k < LISTS && el < |v.pages| && at[el] == -1
    ensures Threads(Link(v, k, el), lists[k := lists[k] + [el]], at[el := k])
    ensures OnlyLinks(v.pages, Link(v, k, el).pages, lists[k] + [el])
  {
    assert HoldsPagesAt(lists[k], at, k);
    assert IsClist(v.pages, v.heads[k], lists[k]);
    PushAppends(v.pages, v.heads[k], lists[k], el);
    OthersUnaffected(v, lists, at, k, Link(v, k, el), el);
    var lists', at' := lists[k := lists[k] + [el]], at[el := k];
    forall j | 0 <= j < LISTS ensures HoldsPagesAt(lists'[j], at', j) {
      assert HoldsPagesAt(lists[j], at, j);
    }
  }

  /** Writing fields other than links leaves every list as it was. */
  lemma RelabelKeeps(v: Phys, lists: seq<seq<nat>>, at: seq<int>, pages': seq<Ppage>)
    requires Threads(v, lists, at) && |pages'| == |v.pages|
    requires forall p | 0 <= p < |pages'| :: pages'[p].prev == v.pages[p].prev && pages'[p].next == v.pages[p].next
    ensures Threads(Phys(pages', v.heads), lists, at)
  {
    forall k | 0 <= k < LISTS ensures IsClist(pages', v.heads[k], lists[k]) {
      assert IsClist(v.pages, v.heads[k], lists[k]);
      ListUnaffected(v.pages, v.heads[k], lists[k], pages');
    }
  }

  lemma LinkKeepsBut(v: Phys, lists: seq<seq<nat>>, at: seq<int>, broken: set<nat>, k: nat, el: nat)
    requires ThreadsBut(v, lists, at, broken) && k < LISTS && k !in broken && el < |v.pages| && at[el] == -1
    ensures ThreadsBut(Link(v, k, el), lists[k := lists[k] + [el]], at[el := k], broken)
    ensures OnlyLinks(v.pages, Link(v, k, el).pages, lists[k] + [el])
  {
    assert HoldsPagesAt(lists[k], at, k) && IsClist(v.pages, v.heads[k], lists[k]);
    PushAppends(v.pages, v.heads[k], lists[k], el);
    var v', lists', at' := Link(v, k, el), lists[k := lists[k] + [el]], at[el := k];
    forall j: nat | j < LISTS && j !in broken
      ensures IsClist(v'.pages, v'.heads[j], lists'[j]) && HoldsPagesAt(lists'[j], at', j)
    {
      assert HoldsPagesAt(lists[j], at, j) && IsClist(v.pages, v.heads[j], lists[j]);
      if j != k {
        ListUnaffected(v.pages, v.heads[j], lists[j], v'.pages);
      }
    }
  }

  lemma RelabelKeepsBut(v: Phys, lists: seq<seq<nat>>, at: seq<int>, broken: set<nat>, pages': seq<Ppage>)
    requires ThreadsBut(v, lists, at, broken) && |pages'| == |v.pages|
    requires forall p | 0 <= p < |pages'| :: pages'[p].prev == v.pages[p].prev && pages'[p].next == v.pages[p].next
    ensures ThreadsBut(Phys(pages', v.heads), lists, at, broken)
  {
    forall k: nat | k < LISTS && k !in broken ensures IsClist(pages', v.heads[k], lists[k]) {
      assert IsClist(v.pages, v.heads[k], lists[k]);
      ListUnaffected(v.pages, v.heads[k], lists[k], pages');
    }
  }

  /** Pushing a page and setting the order of a page can be done in either order. */
  lemma LinkThenOrder(v: Phys, k: nat, el: nat, p: nat, order: nat)
    requires k < |v.heads| && p < |v.pages|
    ensures Link(v.(pages := v.pages[p := v.pages[p].(order := order)]), k, el)
         == (var v' := Link(v, k, el); v'.(pages := v'.pages[p := v'.pages[p].(order := order)]))
  {
    PushThenOrder(v.pages, v.heads[k], el, p, order);
    hide Push;
  }

  lemma SetNextThenOrder(d: seq<Ppage>, i: int, x: int, p: nat, order: nat)
    requires p < |d|
    ensures SetNext(d[p := d[p].(order := order)], i, x) == SetNext(d, i, x)[p := SetNext(d, i, x)[p].(order := order)]
  {}

  lemma SetPrevThenOrder(d: seq<Ppage>, i: int, x: int, p: nat, order: nat)
    requires p < |d|
    ensures SetPrev(d[p := d[p].(order := order)], i, x) == SetPrev(d, i, x)[p := SetPrev(d, i, x)[p].(order := order)]
  {}

  lemma SamePrev(d: seq<Ppage>, i: int, p: nat, order: nat)
    requires p < |d|
    ensures Prev(d[p := d[p].(order := order)], i) == Prev(d, i)
  {}

  lemma PushThenOrder(d: seq<Ppage>, list: int, el: nat, p: nat, order: nat)
    requires p < |d|
    ensures Push(d[p := d[p].(order := order)], list, el)
            == Push(d, list, el)[p := Push(d, list, el)[p].(order := order)]
  {
    hide SetNext, SetPrev, Prev;
    if list != NULL {
      SetNextThenOrder(d, el, list, p, order);
      var d1 := SetNext(d, el, list);
      SamePrev(d1, list, p, order);
      SetPrevThenOrder(d1, el, Prev(d1, list), p, order);
      var d2 := SetPrev(d1, el, Prev(d1, list));
      SamePrev(d2, list, p, order);
      SetNextThenOrder(d2, Prev(d2, list), el, p, order);
      SetPrevThenOrder(SetNext(d2, Prev(d2, list), el), list, el, p, order);
    } else {
      SetNextThenOrder(d, el, el, p, order);
      SetPrevThenOrder(SetNext(d, el, el), el, el, p, order);
    }
  }
}
