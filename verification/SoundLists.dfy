/** The lists of the page allocator as either text keeps them, and what its macros need of
    them (src/kernel/mm/physical_pages.c:291-328). */
module SoundLists {
  import opened Blocks
  import opened FreeBlocks
  import opened BuddyRuns
  import opened Clist
  import opened BuddyLists
  import opened BuddyAlloc
  import opened SplitAsWritten
  import opened LooseLists

  /** Once repaired all lists are whole; as written the used ones are loose. */
  ghost predicate SoundBy(text: Text, v: Phys, lists: seq<seq<nat>>) {
    if text.Repaired? then Valid(v, lists) else Loose(v, lists)
  }

  lemma SoundFacts(text: Text, v: Phys, lists: seq<seq<nat>>)
    requires SoundBy(text, v, lists)
    ensures Loose(v, lists) && Tiled(v.pages) && |v.heads| == |lists| == LISTS
  {
    if text.Repaired? { ValidIsLoose(v, lists); }
  }

  lemma ValidIsSound(text: Text, v: Phys, lists: seq<seq<nat>>)
    requires Valid(v, lists)
    ensures SoundBy(text, v, lists)
  {
    ValidIsLoose(v, lists);
  }

  /** In either text an allocation fails exactly if no list will do, takes the smallest block
      that fits, and keeps the lists sound. */
  lemma AllocSound(text: Text, v: Phys, lists: seq<seq<nat>>, order: nat)
    requires SoundBy(text, v, lists) && order < MAX_ORDER && |v.heads| == |lists| == LISTS
    ensures BlockAlloc(text, v, order).Panic? <==> !Fits(lists, order)
    ensures Fits(lists, order) ==>
              && Took(v, lists, order, BlockAlloc(text, v, order))
              && SoundBy(text, BlockAlloc(text, v, order).v, AllocLists(lists, order))
  {
    hide Valid, Loose, BlockAlloc, FitOrder;
    if text.Repaired? { AllocRefines(v, lists, order); } else { AllocLoose(v, lists, order); }
  }

  /** Taking the head of a list, the text as written keeps whole lists whole, too. */
  lemma DirectKeepsValid(text: Text, v: Phys, lists: seq<seq<nat>>, order: nat)
    requires Valid(v, lists) && order < MAX_ORDER && |v.heads| == LISTS
    requires text.Repaired? || v.heads[FreeList(order)] != NULL
    requires Fits(lists, order)
    ensures Allocated(v, lists, order, BlockAlloc(text, v, order))
  {
    ThreadsAreFree(v, lists, Homes(v.pages));
    HeadIsThere(v, lists, Homes(v.pages), order);
    hide Threads, Tiled, Allocated, BlockAlloc, FitOrder, TakeHead, Split;
    if text.Repaired? {
      AllocRefines(v, lists, order);
    } else {
      TakesHead(v, lists, order);
      OneLevel(AsWritten, v, order);
    }
  }

  /** Writing fields that neither link a page nor move it to another list. */
  lemma RelabelSound(text: Text, v: Phys, lists: seq<seq<nat>>, d': seq<Ppage>)
    requires SoundBy(text, v, lists) && |d'| == |v.pages| && Homes(d') == Homes(v.pages)
    requires HeapOf(d') == HeapOf(v.pages)
    requires forall p | 0 <= p < |d'| :: d'[p].prev == v.pages[p].prev && d'[p].next == v.pages[p].next
    ensures SoundBy(text, Phys(d', v.heads), lists)
  {
    hide Threads, LooseBy, Homes;
    if text.Repaired? {
      RelabelKeeps(v, lists, Homes(v.pages), d');
    } else {
      RelabelLoose(v, lists, Homes(v.pages), d');
    }
  }

  // ----- the links an allocation follows -----

  /** The head of a free list can be deleted from it and pushed on a used one. */
  lemma FirstIsSafe(v: Phys, lists: seq<seq<nat>>, order: nat)
    requires Loose(v, lists) && order < MAX_ORDER && |v.heads| == LISTS && v.heads[FreeList(order)] != NULL
    ensures var f, ppn := FreeList(order), v.heads[FreeList(order)];
            && 0 <= ppn < |v.pages| && !DeleteFollows(v.pages, v.heads[f], ppn)
            && var v' := Unlink(v, f, ppn); !PushFollows(v'.pages, v'.heads[UsedList(order)])
  {
    var at, f := Homes(v.pages), FreeList(order);
    LooseSizes(v, lists, at);
    assert IsClist(v.pages, v.heads[f], lists[f]);
    DeleteIsSafe(v.pages, v.heads[f], lists[f], 0);
    PopLoose(v, lists, at, f);
    hide LooseBy, IsClist, Homes, Tiled;
    PushLooseIsSafe(Unlink(v, f, lists[f][0]), lists[f := lists[f][1..]], at[lists[f][0] := -1], UsedList(order));
  }

  /** The state once the upper half is released and big counts as half as large. */
  ghost function HalfReleased(v: Phys, big: nat, order: nat): (v': Phys)
    requires |v.heads| == LISTS && order < MAX_ORDER && big + Pow2(order) < |v.pages|
    ensures |v'.heads| == LISTS && |v'.pages| == |v.pages|
  {
    Link(Phys(SplitPages(v.pages, big, big + Pow2(order), order), v.heads), FreeList(order), big + Pow2(order))
  }

  /** Then big can leave its old list, where the text has that, and join the new one. */
  ghost predicate CanRelink(text: Text, v: Phys, order: nat, big: nat)
    requires |v.heads| == LISTS && order + 1 < MAX_ORDER
  {
    if text.Repaired? then
      && !DeleteFollows(v.pages, v.heads[UsedList(order + 1)], big)
      && var v' := Unlink(v, UsedList(order + 1), big); !PushFollows(v'.pages, v'.heads[UsedList(order)])
    else !PushFollows(v.pages, v.heads[UsedList(order)])
  }

  /** What a split needs. */
  ghost predicate CanSplit(text: Text, v: Phys, order: nat, big: nat) {
    && |v.heads| == LISTS && order + 1 < MAX_ORDER && big + Pow2(order) < |v.pages|
    && !PushFollows(v.pages, v.heads[FreeList(order)])
    && CanRelink(text, HalfReleased(v, big, order), order, big)
  }

  lemma RepairedRelinks(v: Phys, lists: seq<seq<nat>>, at: seq<int>, order: nat, s: seq<nat>, big: nat)
    requires Threads(v, lists, at) && order + 1 < MAX_ORDER && |v.heads| == |lists| == LISTS
    requires lists[UsedList(order + 1)] == s + [big]
    ensures CanRelink(Repaired, v, order, big)
  {
    var k, u := UsedList(order + 1), UsedList(order);
    assert IsClist(v.pages, v.heads[k], lists[k]);
    DeleteIsSafe(v.pages, v.heads[k], lists[k], |s|);
    UnlinkKeeps(v, lists, at, k, |s|);
    hide Unlink, DeleteFollows, PushFollows, IsClist, HoldsPagesAt;
    ListIsSafe(Unlink(v, k, big), lists[k := Without(lists[k], |s|)], at[big := -1], u);
  }

  lemma ListIsSafe(v: Phys, lists: seq<seq<nat>>, at: seq<int>, u: nat)
    requires Threads(v, lists, at) && u < LISTS
    ensures |v.heads| == LISTS && !PushFollows(v.pages, v.heads[u])
  {
    assert IsClist(v.pages, v.heads[u], lists[u]);
    PushIsSafe(v.pages, v.heads[u], lists[u]);
  }

  lemma SplitRepairedIsSafe(v: Phys, lists: seq<seq<nat>>, order: nat, s: seq<nat>, big: nat)
    requires Valid(v, lists) && order + 1 < MAX_ORDER && |v.heads| == |lists| == LISTS
    requires Block(big, order + 1) in LiveSet(v.pages) && lists[UsedList(order + 1)] == s + [big]
    ensures CanSplit(Repaired, v, order, big)
  {
    hide Threads, Tiled, Homes, CanRelink, HalfReleased, Pow2, PushFollows, LiveSet;
    UpperIsPlain(v.pages, big, order);
    ListIsSafe(v, lists, Homes(v.pages), FreeList(order));
    HalfReleasedRelinks(v, lists, order, s, big, big + Pow2(order));
  }

  lemma HalfReleasedRelinks(v: Phys, lists: seq<seq<nat>>, order: nat, s: seq<nat>, big: nat, upper: nat)
    requires Threaded(v, lists) && order + 1 < MAX_ORDER && |v.heads| == |lists| == LISTS
    requires upper == big + Pow2(order) < |v.pages| && !v.pages[upper].head && lists[UsedList(order + 1)] == s + [big]
    ensures CanRelink(Repaired, HalfReleased(v, big, order), order, big)
  {
    hide Threads, Homes, CanRelink, Link, SplitPages, Pow2;
    var f := FreeList(order);
    UpperLinked(v, lists, big, order);
    RepairedRelinks(HalfReleased(v, big, order), lists[f := lists[f] + [upper]], Homes(v.pages)[upper := f], order, s,
                    big);
  }

  lemma SplitLooseIsSafe(v: Phys, lists: seq<seq<nat>>, order: nat, big: nat)
    requires Loose(v, lists) && order + 1 < MAX_ORDER && |v.heads| == |lists| == LISTS
    requires Block(big, order + 1) in LiveSet(v.pages)
    ensures CanSplit(AsWritten, v, order, big)
  {
    hide LooseBy, Tiled, Homes, Pow2, PushFollows, LiveSet, FreeSet;
    BigIsHome(v.pages, big, order);
    PushLooseIsSafe(v, lists, Homes(v.pages), FreeList(order));
    HalfReleasedLoose(v, lists, Homes(v.pages), order, big, big + Pow2(order));
  }

  lemma HalfReleasedLoose(v: Phys, lists: seq<seq<nat>>, at: seq<int>, order: nat, big: nat, upper: nat)
    requires LooseBy(v, lists, at) && order + 1 < MAX_ORDER && |v.heads| == |lists| == LISTS
    requires upper == big + Pow2(order) < |at| == |v.pages| && at[upper] == -1
    ensures CanRelink(AsWritten, HalfReleased(v, big, order), order, big)
  {
    hide LooseBy, Link, SplitPages, Pow2, PushFollows;
    var f, v1 := FreeList(order), Phys(SplitPages(v.pages, big, upper, order), v.heads);
    SplitKeepsLinks(v.pages, big, upper, order);
    RelabelLoose(v, lists, at, v1.pages);
    LinkLoose(v1, lists, at, f, upper);
    PushLooseIsSafe(Link(v1, f, upper), lists[f := lists[f] + [upper]], at[upper := f], UsedList(order));
  }

  /** What the nested call returns can be split. */
  lemma NextIsSafe(text: Text, v: Phys, lists: seq<seq<nat>>, order: nat, r: Result)
    requires SoundBy(text, v, lists) && order + 1 < MAX_ORDER && |v.heads| == |lists| == LISTS
    requires lists[FreeList(order)] == [] && Fits(lists, order + 1) && r == BlockAlloc(text, v, order + 1)
    ensures r.Done? && CanSplit(text, r.v, order, r.ppn)
  {
    var c, lists1 := Source(lists, order + 1), AllocLists(lists, order + 1);
    SoundFacts(text, v, lists);
    hide Valid, Loose, Tiled, BlockAlloc, AllocLists, FitOrder, OnlyInside, TakenHeap, CanSplit, LiveSet, FreeSet,
         Source, CutLists;
    AllocSound(text, v, lists, order + 1);
    SplitListsMatch(lists, order);
    LooseFits(v, lists, order + 1);
    TookSizes(v, lists, order + 1, r);
    StillTiled(v.pages, r.v.pages, c, order + 1);
    if text.Repaired? {
      SplitRepairedIsSafe(r.v, lists1, order, lists[UsedList(order + 1)], r.ppn);
    } else {
      SplitLooseIsSafe(r.v, lists1, order, r.ppn);
    }
  }
}
