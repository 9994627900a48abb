/** The physical page allocator (src/kernel/mm/physical_pages.c) on arrays. */
module PhysicalPages {
  import opened Outcomes
  import opened Blocks
  import opened FreeBlocks
  import opened BuddyRuns
  import opened Clist
  import opened BuddyLists
  import opened BuddyAlloc
  import opened BuddyFree
  import opened PageRanges
  import opened SplitAsWritten
  import opened FreeAsWritten
  import opened LooseLists
  import opened LooseFrees
  import opened SoundLists

  // ----- list.h, clist_push_tail and clist_delete_el, on the descriptor array -----
  // heads[k] is the list variable the macro is given; s are its elements.

  method PushTail(d: array<Ppage>, heads: array<int>, k: nat, el: nat)
    requires k < heads.Length && el < d.Length && !PushFollows(d[..], heads[k])
    modifies d, heads
    ensures d[..] == Push(old(d[..]), old(heads[k]), el)
    ensures heads[..] == old(heads[..])[k := PushedTail(old(heads[k]), el)]
  {
    var list := heads[k];
    if list != NULL {
      d[el] := d[el].(next := list);
      d[el] := d[el].(prev := d[list].prev);
      var tail := d[list].prev;
      d[tail] := d[tail].(next := el);
      d[list] := d[list].(prev := el);
    } else {
      d[el] := d[el].(next := el);
      d[el] := d[el].(prev := el);
      heads[k] := el;
    }
  }

  method DeleteEl(d: array<Ppage>, heads: array<int>, k: nat, el: nat)
    requires k < heads.Length && el < d.Length && !DeleteFollows(d[..], heads[k], el)
    modifies d, heads
    ensures d[..] == Delete(old(d[..]), old(heads[k]), el)
    ensures heads[..] == old(heads[..])[k := Deleted(old(d[..]), old(heads[k]), el)]
  {
    var list := heads[k];
    if d[list].prev == list && d[list].next == list {
      d[el] := d[el].(prev := NULL);
      d[el] := d[el].(next := NULL);
      heads[k] := NULL;
    } else {
      var before, after := d[el].prev, d[el].next;
      d[before] := d[before].(next := after);
      d[after] := d[after].(prev := before);
      if list == el {
        heads[k] := d[list].next;
      }
    }
  }

  class PageAllocator {
    const text: Text
    const dscrs: array<Ppage>        // ppages_dscrs
    const freeHeads: array<int>      // free_ppages_blocks_clists
    const usedHeads: array<int>      // used_ppages_blocks_clists
    ghost var lists: seq<seq<nat>>   // the elements of the twenty lists

    ghost predicate Shape() {
      freeHeads.Length == MAX_ORDER && usedHeads.Length == MAX_ORDER && freeHeads != usedHeads
    }

    ghost function View(): (v: Phys)
      reads dscrs, freeHeads, usedHeads
      requires Shape()
      ensures |v.heads| == LISTS
    {
      Phys(dscrs[..], freeHeads[..] + usedHeads[..])
    }

    /** All twenty lists are whole. */
    ghost predicate Valid()
      reads this, dscrs, freeHeads, usedHeads
    {
      Shape() && BuddyAlloc.Valid(View(), lists) && WholeBlocks(View().pages)
    }

    /** The lists are as good as the text keeps them. */
    ghost predicate Sound()
      reads this, dscrs, freeHeads, usedHeads
    {
      Shape() && SoundBy(text, View(), lists) && WholeBlocks(View().pages)
    }

    ghost function Free(): set<Block>
      reads dscrs
    {
      FreeSet(dscrs[..])
    }

    ghost function Live(): set<Block>
      reads dscrs
    {
      LiveSet(dscrs[..])
    }

    method PushFree(order: nat, el: nat)
      requires Shape() && order < MAX_ORDER && el < dscrs.Length && !PushFollows(dscrs[..], freeHeads[order])
      modifies dscrs, freeHeads
      ensures View() == Link(old(View()), FreeList(order), el)
    {
      assert View().heads[FreeList(order)] == freeHeads[order];
      PushTail(dscrs, freeHeads, order, el);
      assert View().heads == old(View()).heads[order := freeHeads[order]];
    }

    method PushUsed(order: nat, el: nat)
      requires Shape() && order < MAX_ORDER && el < dscrs.Length && !PushFollows(dscrs[..], usedHeads[order])
      modifies dscrs, usedHeads
      ensures View() == Link(old(View()), UsedList(order), el)
    {
      assert View().heads[UsedList(order)] == usedHeads[order];
      PushTail(dscrs, usedHeads, order, el);
      assert View().heads == old(View()).heads[MAX_ORDER + order := usedHeads[order]];
    }

    method DeleteFree(order: nat, el: nat)
      requires Shape() && order < MAX_ORDER && el < dscrs.Length && !DeleteFollows(dscrs[..], freeHeads[order], el)
      modifies dscrs, freeHeads
      ensures View() == Unlink(old(View()), FreeList(order), el)
    {
      assert View().heads[FreeList(order)] == freeHeads[order];
      DeleteEl(dscrs, freeHeads, order, el);
      assert View().heads == old(View()).heads[order := freeHeads[order]];
    }

    method DeleteUsed(order: nat, el: nat)
      requires Shape() && order < MAX_ORDER && el < dscrs.Length && !DeleteFollows(dscrs[..], usedHeads[order], el)
      modifies dscrs, usedHeads
      ensures View() == Unlink(old(View()), UsedList(order), el)
    {
      assert View().heads[UsedList(order)] == usedHeads[order];
      DeleteEl(dscrs, usedHeads, order, el);
      assert View().heads == old(View()).heads[MAX_ORDER + order := usedHeads[order]];
    }

    /** List k is whole, so the macros can follow its links. */
    ghost predicate Linked(k: nat, s: seq<nat>)
      reads dscrs, freeHeads, usedHeads
    {
      Shape() && k < LISTS && IsClist(dscrs[..], View().heads[k], s)
    }

    lemma LinkedIsSafe(k: nat, s: seq<nat>)
      requires Linked(k, s)
      ensures !PushFollows(dscrs[..], View().heads[k])
      ensures forall i | 0 <= i < |s| :: s[i] < dscrs.Length && !DeleteFollows(dscrs[..], View().heads[k], s[i])
    {
      PushIsSafe(dscrs[..], View().heads[k], s);
      forall i | 0 <= i < |s| ensures s[i] < dscrs.Length && !DeleteFollows(dscrs[..], View().heads[k], s[i]) {
        DeleteIsSafe(dscrs[..], View().heads[k], s, i);
      }
    }

    // ----- _ppage_block_alloc -----

    /** Lines 305-311: the upper half of big becomes a free block. */
    method ReleaseUpper(big: nat, order: nat)
      requires Shape() && order < MAX_ORDER && big + Pow2(order) < dscrs.Length
      requires !PushFollows(dscrs[..], freeHeads[order])
      modifies dscrs, freeHeads
      ensures var v, upper := old(View()), big + Pow2(order);
              View() == Link(v.(pages := v.pages[upper := v.pages[upper].(head := true, order := order, count := 0)]),
                             FreeList(order), upper)
    {
      var upper := big + Pow2(order);
      ghost var v := View();
      dscrs[upper] := dscrs[upper].(head := true);
      dscrs[upper] := dscrs[upper].(order := order);
      dscrs[upper] := dscrs[upper].(count := 0);
      assert View().pages == v.pages[upper := v.pages[upper].(head := true, order := order, count := 0)];
      PushFree(order, upper);
    }

    /** Lines 305-313: then big counts as half as large. */
    method Halve(big: nat, order: nat)
      requires Shape() && order < MAX_ORDER && big + Pow2(order) < dscrs.Length
      requires !PushFollows(dscrs[..], freeHeads[order])
      modifies dscrs, freeHeads
      ensures View() == HalfReleased(old(View()), big, order)
    {
      ghost var v, upper := View(), big + Pow2(order);
      ghost var v0 := v.(pages := v.pages[upper := v.pages[upper].(head := true, order := order, count := 0)]);
      ghost var o := v0.pages[big].order;
      ReleaseUpper(big, order);
      LinkThenOrder(v0, FreeList(order), upper, big, if o > 0 then o - 1 else 255);
      LinkKeepsOrder(v0, FreeList(order), upper, big);
      dscrs[big] := dscrs[big].(order := if dscrs[big].order > 0 then dscrs[big].order - 1 else 255);
    }

    /** Lines 303-315: big is halved and its lower half changes lists. */
    method SplitBlock(big: nat, order: nat)
      requires Shape() && CanSplit(text, View(), order, big)
      modifies dscrs, freeHeads, usedHeads
      ensures Split(text, old(View()), big, order) == Done(View(), big)
    {
      Halve(big, order);
      if text.Repaired? {
        DeleteUsed(order + 1, big);
      }
      PushUsed(order, big);
    }

    /** Lines 320-322: the head of the free list becomes a used block. */
    method TakeFirst(order: nat) returns (ppn: nat)
      requires Sound() && order < MAX_ORDER && freeHeads[order] != NULL
      modifies dscrs, freeHeads, usedHeads
      ensures TakeHead(old(View()), order) == Done(View(), ppn) && ppn == old(freeHeads[order])
    {
      ghost var v := View();
      SoundFacts(text, v, lists);
      FirstIsSafe(v, lists, order);
      ppn := freeHeads[order];
      DeleteFree(order, ppn);
      PushUsed(order, ppn);
      dscrs[ppn] := dscrs[ppn].(count := 1);
    }

    /** _ppage_block_alloc. None is a failed KASSERT, which halts the kernel. */
    method BlockAlloc(order: nat) returns (r: Option<nat>)
      requires Sound()
      modifies this, dscrs, freeHeads, usedHeads
      ensures Shape() && r == ResultPpn(BuddyAlloc.BlockAlloc(text, old(View()), order))
      ensures FromFirstList(old(freeHeads[..]), order, r)
      ensures r.Some? ==> BuddyAlloc.BlockAlloc(text, old(View()), order) == Done(View(), r.value)
      ensures r.Some? <==> Fits(old(lists), order)
      ensures r.Some? ==> lists == AllocLists(old(lists), order)
      ensures r.None? ==> View() == old(View()) && lists == old(lists)
      ensures r.Some? ==> Sound() && Took(old(View()), old(lists), order, Done(View(), r.value))
      ensures r.Some? && old(Valid()) && (text.Repaired? || old(freeHeads[order]) != NULL) ==> Valid()
      decreases MAX_ORDER - order
    {
      hide SoundBy, BuddyAlloc.Valid, Took, AllocLists, BuddyAlloc.BlockAlloc, Split, TakeHead, FitOrder, CanSplit;
      hide FromFirstList;
      if order >= MAX_ORDER {
        NoListLeft(freeHeads[..], order);
        return None;
      }
      ghost var v, lists0, whole := View(), lists, Valid();
      SoundFacts(text, v, lists);
      AllocSound(text, v, lists, order);
      LooseHead(v, lists, order);
      OneLevel(text, v, order);
      if freeHeads[order] == NULL {
        FitsNext(lists, order);
        r := BlockAlloc(order + 1);
        FromNextList(old(freeHeads[..]), order, r);
        if r.None? {
          return None;
        }
        var big := r.value;
        NextIsSafe(text, v, lists0, order, Done(View(), big));
        SplitBlock(big, order);
        r := Some(big);
      } else {
        var ppn := TakeFirst(order);
        r := Some(ppn);
        FromThisList(old(freeHeads[..]), order, ppn);
      }
      lists := AllocLists(lists0, order);
      if whole && (text.Repaired? || v.heads[FreeList(order)] != NULL) { DirectKeepsValid(text, v, lists0, order); }
    }

    // ----- _ppage_block_free -----

    /** Lines 347-348. */
    method TakeBack(block: nat, order: nat)
      requires Shape() && order < MAX_ORDER && block < dscrs.Length
      requires !DeleteFollows(dscrs[..], usedHeads[order], block)
      modifies dscrs, usedHeads
      ensures View() == TakenBack(old(View()), block, order)
    {
      DeleteUsed(order, block);
      dscrs[block] := dscrs[block].(count := 0);
    }

    /** Lines 360-369: block and buddy become one block in hand. */
    method MergeWith(block: nat, order: nat, buddy: nat) returns (merged: nat)
      requires Shape() && order < MAX_ORDER - 1 && block < dscrs.Length && buddy < dscrs.Length
      requires And(block, buddy) < dscrs.Length && !DeleteFollows(dscrs[..], freeHeads[order], buddy)
      modifies dscrs, freeHeads
      ensures merged == And(block, buddy)
      ensures View() == Turned(old(View()), Block(block, order), buddy, merged)
    {
      DeleteFree(order, buddy);
      dscrs[block] := dscrs[block].(head := false);
      dscrs[buddy] := dscrs[buddy].(head := false);
      merged := And(block, buddy);
      dscrs[merged] := dscrs[merged].(head := true);
      dscrs[merged] := dscrs[merged].(order := order + 1);
    }

    /** Lines 351-377: merge as long as the block find_buddy names is free, then push. */
    method MergeAndPush(ppn: nat, startOrder: nat, ghost goal: Phys)
      requires Shape() && Leads(text, View(), Block(ppn, startOrder), goal)
      modifies dscrs, freeHeads
      ensures View() == goal
    {
      hide Leads;
      LeadsFrom(text, View(), Block(ppn, startOrder), goal);
      var block: nat, order: nat := ppn, startOrder;
      while order < MAX_ORDER - 1
        invariant order < MAX_ORDER && block < dscrs.Length && Leads(text, View(), Block(block, order), goal)
        decreases MAX_ORDER - order
      {
        LeadsFrom(text, View(), Block(block, order), goal);
        var buddy := FindBuddy(text, Block(block, dscrs[block].order)).head;
        if dscrs[buddy].count == 0 && dscrs[buddy].head && dscrs[buddy].order == order {
          LeadsOn(text, View(), Block(block, order), goal);
          block := MergeWith(block, order, buddy);
          order := order + 1;
        } else {
          break;
        }
      }
      LeadsHome(text, View(), Block(block, order), goal);
      PushFree(order, block);
    }

    /** Lines 347-377. As written it may follow NULL links, which NullLinks.FollowsNullIff tells
        from the lengths of whole lists, and LooseFrees.FollowsIffListEmpty of any others where
        nothing merges; otherwise it is covered also where it merges what it should not. */
    method GiveBack(block: nat, order: nat)
      requires Sound() && Freeable(View(), block, order)
      requires text.AsWritten? ==> !FreeFollows(text, View(), Block(block, order))
      modifies this, dscrs, freeHeads, usedHeads
      ensures Shape() && BlockGiven(text, old(View()), old(lists), Block(block, order), View(), lists)
    {
      ghost var v, lists0 := View(), lists;
      hide SoundBy, MergeLoop, MergeFollows, DeleteFollows, TakenBack, BlockGiven, FreedLists;
      FreeIsReady(text, v, lists0, Block(block, order));
      ghost var goal := BuddyFree.BlockFree(text, v, block, order).v;
      LeadsAtFirst(text, v, Block(block, order));
      lists := FreedLists(text, lists0, Block(block, order));
      TakeBack(block, order);
      MergeAndPush(block, order, goal);
    }

    /** _ppage_block_free; false is a failed KASSERT. */
    method BlockFree(block: nat, order: nat) returns (ok: bool)
      requires Sound() && block < dscrs.Length
      requires text.AsWritten? && Freeable(View(), block, order) ==> !FreeFollows(text, View(), Block(block, order))
      modifies this, dscrs, freeHeads, usedHeads
      ensures Shape() && (ok <==> MayGoBack(old(dscrs[block]), order))
      ensures !ok ==> Sound() && View() == old(View()) && lists == old(lists)
      ensures ok ==> BlockGiven(text, old(View()), old(lists), Block(block, order), View(), lists)
    {
      hide FreeFollows, BlockGiven, SoundBy;
      var p := dscrs[block];
      if !p.head || p.order != order || p.order >= MAX_ORDER || p.count != 1 || p.mapping != 0 || p.slab != 0 {
        return false;
      }
      GiveBack(block, order);
      return true;
    }

    // ----- reference counts -----

    /** ppage_ref. The counter is 32 bits wide. */
    method Ref(ppn: nat)
      requires Sound() && ppn < dscrs.Length
      modifies dscrs
      ensures Shape() && View() == Referenced(old(View()), ppn)
      ensures Countable(old(dscrs[ppn])) ==> Sound() && Free() == old(Free()) && Live() == old(Live())
      ensures Countable(old(dscrs[ppn])) && old(Valid()) ==> Valid()
    {
      hide SoundBy, BuddyAlloc.Valid;
      if Countable(dscrs[ppn]) {
        RefKeeps(text, View(), lists, ppn);
        if Valid() { RefKeepsWhole(View(), lists, ppn); }
      }
      dscrs[ppn] := dscrs[ppn].(count := (dscrs[ppn].count + 1) % 0x1_0000_0000);
    }

    /** ppage_unref; false is the panic on a free page or a failed KASSERT of the free. */
    method Unref(ppn: nat) returns (ok: bool)
      requires Sound() && ppn < dscrs.Length
      requires var x := Block(ppn, dscrs[ppn].order);
               text.AsWritten? && Freeable(View(), ppn, x.order) ==> !FreeFollows(text, View(), x)
      modifies this, dscrs, freeHeads, usedHeads
      ensures Shape() && (ok <==> Unreferenced(text, old(View()), ppn).Done?)
      ensures ok <==> old(dscrs[ppn]).count > 1 || MayGoBack(old(dscrs[ppn]), old(dscrs[ppn]).order)
      ensures ok ==> View() == Unreferenced(text, old(View()), ppn).v
      ensures ok && old(dscrs[ppn].count) == 1 ==>
                BlockGiven(text, old(View()), old(lists), Block(ppn, old(dscrs[ppn].order)), View(), lists)
      ensures ok && old(dscrs[ppn].count) != 1 ==> Sound() && (old(Valid()) ==> Valid()) && lists == old(lists)
      ensures !ok ==> Sound() && View() == old(View()) && lists == old(lists)
    {
      hide SoundBy, BuddyAlloc.Valid, FreeFollows;
      if dscrs[ppn].count > 1 {
        RecountKeeps(text, View(), lists, ppn, dscrs[ppn].count - 1);
        if Valid() { RecountKeepsWhole(View(), lists, ppn, dscrs[ppn].count - 1); }
        dscrs[ppn] := dscrs[ppn].(count := dscrs[ppn].count - 1);
        ok := true;
      } else if dscrs[ppn].count == 1 {
        ok := BlockFree(ppn, dscrs[ppn].order);
      } else {
        ok := false;
      }
    }

    // ----- ppages_alloc and ppages_set_slab -----

    /** ppages_alloc: a block of the smallest order that holds the pages asked for. */
    method PagesAlloc(n: nat) returns (r: Option<nat>)
      requires Sound()
      modifies this, dscrs, freeHeads, usedHeads
      ensures Shape()
      ensures n > Pow2(MAX_ORDER - 1) ==> r.None?
      ensures n <= Pow2(MAX_ORDER - 1) ==> OrderFor(n) < MAX_ORDER && (r.Some? <==> Fits(old(lists), OrderFor(n)))
      ensures r.None? ==> View() == old(View()) && lists == old(lists)
      ensures r.Some? ==> Sound() && Took(old(View()), old(lists), OrderFor(n), Done(View(), r.value))
      ensures r.Some? ==> r.value + n <= dscrs.Length && NewFrames(old(Live()), Live(), r.value, n)
      ensures r.Some? ==> lists == AllocLists(old(lists), OrderFor(n))
      ensures r.Some? && old(Valid()) && (text.Repaired? || old(freeHeads[OrderFor(n)]) != NULL) ==> Valid()
    {
      hide SoundBy, BuddyAlloc.Valid, Took, NewFrames, AllocLists, BuddyAlloc.BlockAlloc, FitOrder;
      ghost var v, lists0 := View(), lists;
      if n >= Pow2(MAX_ORDER) {
        return None;
      }
      var order := 0;
      while order < MAX_ORDER
        invariant order <= MAX_ORDER && OrderFrom(n, order) == OrderFor(n)
      {
        if n <= Pow2(order) {
          break;
        }
        order := order + 1;
      }
      OrderHolds(n);
      SoundFacts(text, v, lists0);
      r := BlockAlloc(order);
      if r.Some? { TakenFrames(v, lists0, order, Done(View(), r.value), n); }
    }

    /** ppages_set_slab; region is the size of the slab's region, if it has one. false is a
        failed KASSERT. */
    method SetSlab(ppn: nat, n: nat, slab: nat, region: Option<nat>) returns (ok: bool)
      requires Sound()
      modifies dscrs
      ensures ok <==> ppn < dscrs.Length && 0 < ppn + n <= dscrs.Length && slab != 0 && region == Some(n)
      ensures !ok ==> View() == old(View())
      ensures Sound() && View().heads == old(View()).heads && Free() == old(Free()) && Live() == old(Live())
      ensures old(Valid()) ==> Valid()
      ensures ok ==> SlabSet(old(dscrs[..]), dscrs[..], ppn, n, slab)
    {
      hide SoundBy, BuddyAlloc.Valid;
      ghost var v := View();
      if ppn >= dscrs.Length || ppn + n == 0 || ppn + n > dscrs.Length || slab == 0 || region != Some(n) {
        return false;
      }
      var i := 0;
      while i < n
        invariant i <= n
        invariant forall j: nat | j < dscrs.Length ::
          dscrs[j] == if ppn <= j < ppn + i then v.pages[j].(slab := slab) else v.pages[j]
      {
        dscrs[ppn + i] := dscrs[ppn + i].(slab := slab);
        i := i + 1;
      }
      SlabKeeps(text, v, lists, dscrs[..]);
      if old(Valid()) { SlabKeepsWhole(v, lists, dscrs[..]); }
      return true;
    }

    // ----- boot -----

    /** The descriptors of the pages below n are set up; the others may hold anything. */
    ghost predicate Covered(n: nat)
      reads this, dscrs, freeHeads, usedHeads
    {
      Shape() && |lists| == LISTS && n <= dscrs.Length && BuddyAlloc.Valid(Prefix(n), lists)
      && Pristine(Prefix(n).pages)
    }

    ghost function Prefix(n: nat): (v: Phys)
      reads dscrs, freeHeads, usedHeads
      requires Shape() && n <= dscrs.Length
      ensures |v.heads| == LISTS && |v.pages| == n
    {
      Phys(dscrs[..n], freeHeads[..] + usedHeads[..])
    }

    /** Lines 163-179: the descriptor of the head, which joins its list. */
    method SetUpHead(ppn: nat, order: nat, status: nat)
      requires Covered(ppn) && order < MAX_ORDER && ppn < dscrs.Length
      modifies dscrs, freeHeads, usedHeads
      ensures Prefix(ppn + 1) == WithHead(old(Prefix(ppn)), order, status)
    {
      ghost var v, k := Prefix(ppn), StatusList(order, status);
      ghost var s := lists[k];
      assert IsClist(v.pages, v.heads[k], s) && HoldsPagesAt(s, Homes(v.pages), k);
      dscrs[ppn] := dscrs[ppn].(count := status);
      dscrs[ppn] := dscrs[ppn].(head := true);
      dscrs[ppn] := dscrs[ppn].(order := order);
      dscrs[ppn] := dscrs[ppn].(slab := 0);
      dscrs[ppn] := dscrs[ppn].(mapping := 0);
      ghost var d, p := dscrs[..], dscrs[ppn];
      ghost var clean := v.pages + [HeadPage(order, status)];
      assert d[..ppn + 1] == v.pages + [p] == clean[ppn := clean[ppn].(prev := p.prev, next := p.next)];
      ListUnaffected(v.pages, v.heads[k], s, d);
      ListUnaffected(v.pages, v.heads[k], s, d[..ppn + 1]);
      ListUnaffected(v.pages, v.heads[k], s, clean);
      PushPrefix(d, ppn + 1, v.heads[k], s, ppn);
      PushIgnoresOldLinks(clean, v.heads[k], s, ppn, p.prev, p.next);
      LinkedIsSafe(k, s);
      if status == STATUS_FREE {
        PushFree(order, ppn);
      } else {
        PushUsed(order, ppn);
      }
      assert dscrs[..ppn + 1] == View().pages[..ppn + 1];
    }

    /** Lines 182-196: the descriptors of the other pages of the block. */
    method SetUpInner(ppn: nat, order: nat, status: nat)
      requires Shape() && ppn + Pow2(order) <= dscrs.Length
      modifies dscrs
      ensures Prefix(ppn + Pow2(order)) == WithInner(old(Prefix(ppn + 1)), order, status)
    {
      ghost var d := dscrs[..];
      var i := ppn + 1;
      while i < ppn + Pow2(order)
        invariant ppn + 1 <= i <= ppn + Pow2(order)
        invariant forall j | 0 <= j < dscrs.Length ::
          dscrs[j] == if ppn + 1 <= j < i then InnerPage(order, status) else d[j]
      {
        dscrs[i] := dscrs[i].(count := status);
        dscrs[i] := dscrs[i].(head := false);
        dscrs[i] := dscrs[i].(order := order);
        dscrs[i] := dscrs[i].(slab := 0);
        dscrs[i] := dscrs[i].(mapping := 0);
        dscrs[i] := dscrs[i].(prev := NULL);
        dscrs[i] := dscrs[i].(next := NULL);
        i := i + 1;
      }
    }

    /** Lines 163-196. */
    method SetUpBlock(ppn: nat, order: nat, status: nat)
      requires Covered(ppn) && order < MAX_ORDER && Low(ppn, order) == 0 && ppn + Pow2(order) <= dscrs.Length
      requires status == STATUS_FREE || status == STATUS_USED
      modifies this, dscrs, freeHeads, usedHeads
      ensures Covered(ppn + Pow2(order))
      ensures Prefix(ppn + Pow2(order)) == WithBlock(old(Prefix(ppn)), order, status)
      ensures lists == ListsWith(old(lists), Block(ppn, order), status)
    {
      hide BuddyAlloc.Valid, WithBlock, WithHead, WithInner, ListsWith, Pristine;
      WithBlockKeeps(Prefix(ppn), lists, order, status);
      WithBlockIsPristine(Prefix(ppn), order, status);
      assert Threaded(Prefix(ppn), lists) by { ValidIsThreaded(Prefix(ppn), lists); }
      WithBlockInSteps(Prefix(ppn), lists, order, status);
      SetUpHead(ppn, order, status);
      SetUpInner(ppn, order, status);
      lists := ListsWith(lists, Block(ppn, order), status);
    }

    /** Lines 158-161: count the order down until an aligned block that fits is found. */
    method BiggestOrderAt(ppn: nat, last: nat) returns (order: nat)
      requires ppn <= last
      ensures order == LargestFit(ppn, last + 1, MAX_ORDER - 1)
    {
      order := MAX_ORDER - 1;
      LowIsRemainder(ppn, order);
      while !(ppn % Pow2(order) == 0 && ppn + Pow2(order) - 1 <= last)
        invariant order < MAX_ORDER && Low(ppn, order) == ppn % Pow2(order)
        invariant LargestFit(ppn, last + 1, order) == LargestFit(ppn, last + 1, MAX_ORDER - 1)
        decreases order
      {
        order := order - 1;
        LowIsRemainder(ppn, order);
      }
    }

    /** _range_ppages_set_status; false is the panic on an unknown status. */
    method RangeSetStatus(first: nat, last: nat, status: nat) returns (ok: bool)
      requires Shape() && (first <= last ==> Covered(first) && last < dscrs.Length)
      modifies this, dscrs, freeHeads, usedHeads
      ensures ok <==> status == STATUS_FREE || status == STATUS_USED
      ensures first > last || !ok ==> lists == old(lists) && View() == old(View())
      ensures first <= last && ok ==> Covered(last + 1)
      ensures first <= last && ok ==>
                RangeLeft(old(Prefix(first)), old(lists), last + 1, status, Prefix(last + 1), lists)
    {
      hide BuddyAlloc.Valid, WithBlock, ListsWith, RangeLeft, LargestFit, Pristine;
      if status != STATUS_FREE && status != STATUS_USED {
        return false;
      }
      if first > last {
        return true;
      }
      var ppn := first;
      ghost var goal, goalLists := RangeStart(Prefix(first), lists, last + 1, status);
      while ppn <= last
        invariant first <= ppn <= last + 1 <= dscrs.Length && Covered(ppn)
        invariant RangeLeft(Prefix(ppn), lists, last + 1, status, goal, goalLists)
      {
        var order := BiggestOrderAt(ppn, last);
        RangeStep(Prefix(ppn), lists, last + 1, status, goal, goalLists);
        SetUpBlock(ppn, order, status);
        ppn := ppn + Pow2(order);
      }
      RangeEnd(Prefix(ppn), lists, ppn, status, goal, goalLists);
      return true;
    }

    /** physical_page_boot_init, in page numbers: the first megabyte is reserved, then
        comes free memory up to the kernel image, the image, what the boot allocator
        handed out, and free memory to the end. */
    constructor BootInit(text: Text, n: nat, bootStart: nat, kernelEnd: nat, firstFree: nat)
      requires 256 <= bootStart <= kernelEnd <= firstFree <= n && Low(n, MAX_ORDER - 1) == 0
      ensures Valid() && Sound() && fresh(dscrs) && fresh(freeHeads) && fresh(usedHeads)
      ensures this.text == text && dscrs.Length == n
      ensures Free() == BlocksOf(Greedy(256, bootStart)) + BlocksOf(Greedy(firstFree, n))
      ensures forall p :: Holds(Free(), p) <==> 256 <= p < bootStart || firstFree <= p < n
      ensures forall p :: Holds(Live(), p) <==> 0 <= p < 256 || bootStart <= p < firstFree
      ensures Live() == BlocksOf(Greedy(0, 256)) + BlocksOf(Greedy(bootStart, kernelEnd))
              + BlocksOf(Greedy(kernelEnd, firstFree))
      ensures Pristine(dscrs[..])
      ensures bootStart < firstFree || bootStart == 256 ==> Canonical(Free())
    {
      this.text := text;
      dscrs := new Ppage[n];
      freeHeads := new int[MAX_ORDER](i => NULL);
      usedHeads := new int[MAX_ORDER](i => NULL);
      lists := seq(LISTS, i => []);
      new;
      assert Prefix(0).heads == seq(LISTS, i => NULL);
      NothingIsValid(Prefix(0), lists);
      assert Pristine(Prefix(0).pages);
      hide BuddyAlloc.Valid, BootHeapIs, BlocksOf, Greedy, Canonical, Low, Pristine;
      SetUpAll(bootStart, kernelEnd, firstFree);
      assert dscrs[..n] == dscrs[..];
      if bootStart < firstFree || bootStart == 256 { CanonicalApart(256, bootStart, firstFree, n); }
      BootHeap(dscrs[..], n, bootStart, kernelEnd, firstFree);
      BootPages(dscrs[..], n, bootStart, kernelEnd, firstFree);
      ValidIsSound(text, View(), lists);
    }

    /** The five calls of physical_page_boot_init. */
    method SetUpAll(bootStart: nat, kernelEnd: nat, firstFree: nat)
      requires Covered(0) && HeapOf(dscrs[..0]) == Heap({}, {})
      requires 256 <= bootStart <= kernelEnd <= firstFree <= dscrs.Length
      modifies this, dscrs, freeHeads, usedHeads
      ensures Covered(dscrs.Length)
      ensures BootHeapIs(dscrs[..dscrs.Length], dscrs.Length, bootStart, kernelEnd, firstFree)
    {
      hide BuddyAlloc.Valid, Greedy, HeapOf, HeapWith, BlocksOf, Pristine;
      SetRange(0, 256, STATUS_USED);
      SetRange(256, bootStart, STATUS_FREE);
      SetRange(bootStart, kernelEnd, STATUS_USED);
      SetRange(kernelEnd, firstFree, STATUS_USED);
      SetRange(firstFree, dscrs.Length, STATUS_FREE);
    }

    /** One of boot's calls of _range_ppages_set_status, on the pages from first up to,
        not including, end. */
    method SetRange(first: nat, end: nat, status: nat)
      requires Covered(first) && first <= end <= dscrs.Length && end > 0
      requires status == STATUS_FREE || status == STATUS_USED
      modifies this, dscrs, freeHeads, usedHeads
      ensures Covered(end)
      ensures HeapOf(dscrs[..end]) == HeapWith(old(HeapOf(dscrs[..first])), BlocksOf(Greedy(first, end)), status)
    {
      RangeKeeps(Prefix(first), lists, end, status);
      var ok := RangeSetStatus(first, end - 1, status);
      if first == end {
        assert Greedy(first, end) == [] && BlocksOf([]) == {};
        assert Prefix(end) == Phys(View().pages[..end], View().heads) == old(Prefix(first));
      }
    }
  }

  ghost predicate BootHeapIs(d: seq<Ppage>, n: nat, bootStart: nat, kernelEnd: nat, firstFree: nat) {
    var h1 := HeapWith(Heap({}, {}), BlocksOf(Greedy(0, 256)), STATUS_USED);
    var h2 := HeapWith(h1, BlocksOf(Greedy(256, bootStart)), STATUS_FREE);
    var h3 := HeapWith(h2, BlocksOf(Greedy(bootStart, kernelEnd)), STATUS_USED);
    var h4 := HeapWith(h3, BlocksOf(Greedy(kernelEnd, firstFree)), STATUS_USED);
    HeapOf(d) == HeapWith(h4, BlocksOf(Greedy(firstFree, n)), STATUS_FREE)
  }

  lemma BootHeap(d: seq<Ppage>, n: nat, bootStart: nat, kernelEnd: nat, firstFree: nat)
    requires BootHeapIs(d, n, bootStart, kernelEnd, firstFree)
    ensures FreeSet(d) == BlocksOf(Greedy(256, bootStart)) + BlocksOf(Greedy(firstFree, n))
    ensures LiveSet(d)
         == BlocksOf(Greedy(0, 256)) + BlocksOf(Greedy(bootStart, kernelEnd)) + BlocksOf(Greedy(kernelEnd, firstFree))
  {
    hide BlocksOf, Greedy;
  }

  lemma BootPages(d: seq<Ppage>, n: nat, bootStart: nat, kernelEnd: nat, firstFree: nat)
    requires BootHeapIs(d, n, bootStart, kernelEnd, firstFree) && 256 <= bootStart <= kernelEnd <= firstFree <= n
    ensures forall p :: Holds(FreeSet(d), p) <==> 256 <= p < bootStart || firstFree <= p < n
    ensures forall p :: Holds(LiveSet(d), p) <==> 0 <= p < 256 || bootStart <= p < firstFree
  {
    BootHeap(d, n, bootStart, kernelEnd, firstFree);
    hide BlocksOf, Greedy, Holds, FreeSet, LiveSet, BootHeapIs;
    var low, image := BlocksOf(Greedy(0, 256)), BlocksOf(Greedy(bootStart, kernelEnd));
    var used := BlocksOf(Greedy(kernelEnd, firstFree));
    forall p ensures Holds(FreeSet(d), p) <==> 256 <= p < bootStart || firstFree <= p < n {
      GreedyHolds(256, bootStart, p);
      GreedyHolds(firstFree, n, p);
      HoldsUnion(BlocksOf(Greedy(256, bootStart)), BlocksOf(Greedy(firstFree, n)), p);
    }
    forall p ensures Holds(LiveSet(d), p) <==> 0 <= p < 256 || bootStart <= p < firstFree {
      GreedyHolds(0, 256, p);
      GreedyHolds(bootStart, kernelEnd, p);
      GreedyHolds(kernelEnd, firstFree, p);
      HoldsUnion(low + image, used, p);
      HoldsUnion(low, image, p);
    }
  }

  lemma ValidIsThreaded(v: Phys, lists: seq<seq<nat>>)
    requires BuddyAlloc.Valid(v, lists)
    ensures Threaded(v, lists)
  {}

  /** Going on greedily from v and lists up to page end leads to the goals. */
  ghost predicate RangeLeft(v: Phys, lists: seq<seq<nat>>, end: nat, status: nat, goal: Phys,
          goalLists: seq<seq<nat>>) {
    && |v.heads| == LISTS && |lists| == LISTS
    && (forall b | b in Greedy(|v.pages|, end) :: b.order < MAX_ORDER)
    && WithBlocks(v, Greedy(|v.pages|, end), status) == goal
    && ListsAfter(lists, Greedy(|v.pages|, end), status) == goalLists
  }

  lemma RangeStart(v: Phys, lists: seq<seq<nat>>, end: nat, status: nat) returns (goal: Phys, goalLists: seq<seq<nat>>)
    requires |v.heads| == LISTS && |lists| == LISTS
    ensures RangeLeft(v, lists, end, status, goal, goalLists)
  {
    GreedyOrders(|v.pages|, end);
    goal := WithBlocks(v, Greedy(|v.pages|, end), status);
    goalLists := ListsAfter(lists, Greedy(|v.pages|, end), status);
  }

  lemma RangeEnd(v: Phys, lists: seq<seq<nat>>, end: nat, status: nat, goal: Phys, goalLists: seq<seq<nat>>)
    requires RangeLeft(v, lists, end, status, goal, goalLists) && |v.pages| == end
    ensures v == goal && lists == goalLists
  {}

  lemma RangeStep(v: Phys, lists: seq<seq<nat>>, end: nat, status: nat, goal: Phys, goalLists: seq<seq<nat>>)
    requires RangeLeft(v, lists, end, status, goal, goalLists) && |v.pages| < end
    ensures var o := LargestFit(|v.pages|, end, MAX_ORDER - 1);
            && |v.heads| == LISTS && |lists| == LISTS && Low(|v.pages|, o) == 0
            && RangeLeft(WithBlock(v, o, status), ListsWith(lists, Block(|v.pages|, o), status), end, status, goal,
                         goalLists)
  {
    hide WithBlock, ListsWith;
    var bs := Greedy(|v.pages|, end);
    assert bs[1..] == Greedy(bs[0].End(), end);
    GreedyOrders(bs[0].End(), end);
  }

  /** The pages allocated were nobody's. */
  lemma TakenFrames(v: Phys, lists: seq<seq<nat>>, order: nat, r: Result, n: nat)
    requires Loose(v, lists) && order < MAX_ORDER && Fits(lists, order) && Took(v, lists, order, r)
    requires n <= Pow2(order)
    ensures r.ppn + n <= |r.v.pages| && NewFrames(LiveSet(v.pages), LiveSet(r.v.pages), r.ppn, n)
  {
    var c, h := Source(lists, order), HeapOf(v.pages);
    var got := Block(c.head, order);
    LooseFits(v, lists, order);
    ApartSets(h.free, h.live);
    Pow2Grows(order, c.order);
    StillTiled(v.pages, r.v.pages, c, order);
    assert LiveSet(r.v.pages) == h.live + {got};
    FrameFacts(h, c, got, n);
    assert got in FreeSet(r.v.pages) + LiveSet(r.v.pages) && got.Covers(got.End() - 1);
    assert Holds(FreeSet(r.v.pages) + LiveSet(r.v.pages), got.End() - 1);
  }

  /** No aligned run of 2^order pages is free. */
  ghost predicate NoRun(free: set<Block>, order: nat) {
    forall x: Block | x.order == order && x.Aligned() :: !HoldsAll(free, x)
  }

  /** The lists have no block for a request exactly if no such run is left. */
  lemma NoFitIffNoRun(v: Phys, lists: seq<seq<nat>>, order: nat)
    requires Loose(v, lists) && order < MAX_ORDER && Canonical(FreeSet(v.pages))
    ensures Fits(lists, order) <==> !NoRun(FreeSet(v.pages), order)
  {
    LooseFits(v, lists, order);
    PackedPart(FreeSet(v.pages) + LiveSet(v.pages), FreeSet(v.pages));
    hide LooseBy, SmallestFit, FitOrder, Canonical;
    AllocFailsIffNoRun(FreeSet(v.pages), order);
  }

  lemma AllocatedIsCanonical(v: Phys, lists: seq<seq<nat>>, order: nat, r: Result)
    requires Loose(v, lists) && Fits(lists, order) && Took(v, lists, order, r)
    requires Canonical(FreeSet(v.pages))
    ensures Canonical(FreeSet(r.v.pages))
  {
    LooseFits(v, lists, order);
    hide LooseBy, Tiled, FitOrder, Canonical, AllocLists, OnlyInside;
    AllocKeeps(HeapOf(v.pages), Source(lists, order), order);
  }

  lemma AllocKeeps(h: Heap, c: Block, order: nat)
    requires Tidy(h) && c in h.free && order <= c.order && Canonical(h.free)
    ensures Canonical(AfterAlloc(h.free, c, order))
  {
    hide Tidy, Canonical, AfterAlloc, SamePages;
    TakeKeeps(h, c, order, Heap(AfterAlloc(h.free, c, order), h.live + {Block(c.head, order)}));
  }

  /** The free pages are those free before, but for those of the block at ppn. */
  ghost predicate OnlyTaken(free: set<Block>, free': set<Block>, ppn: nat, order: nat) {
    forall p :: Holds(free', p) <==> Holds(free, p) && !Block(ppn, order).Covers(p)
  }

  lemma OthersStayFree(v: Phys, lists: seq<seq<nat>>, order: nat, r: Result)
    requires Loose(v, lists) && Fits(lists, order) && Took(v, lists, order, r)
    ensures OnlyTaken(FreeSet(v.pages), FreeSet(r.v.pages), r.ppn, order)
  {
    LooseFits(v, lists, order);
    PackedPart(FreeSet(v.pages) + LiveSet(v.pages), FreeSet(v.pages));
    var c := Source(lists, order);
    hide LooseBy, Tiled, FitOrder, AllocLists, OnlyInside, Packed, AfterAlloc, FreeSet, Block.Covers;
    AllocKeepsPacked(FreeSet(v.pages), c, order);
    forall p ensures Holds(FreeSet(r.v.pages), p) <==> Holds(FreeSet(v.pages), p) && !Block(r.ppn, order).Covers(p) {
      AllocTakes(FreeSet(v.pages), c, order, p);
      NotBoth(FreeSet(r.v.pages), Block(r.ppn, order), p);
    }
  }

  lemma NotBoth(bs: set<Block>, x: Block, p: int)
    requires forall b | b in bs :: b.Apart(x)
    ensures !(Holds(bs, p) && x.Covers(p))
  {}

  /** The descriptors name the same slabs. */
  ghost predicate SlabsAlike(d: seq<Ppage>, d': seq<Ppage>) {
    |d'| == |d| && forall i: nat | i < |d| :: d'[i].slab == d[i].slab
  }

  lemma LabelsUntouched(v: Phys, lists: seq<seq<nat>>, order: nat, r: Result)
    requires Fits(lists, order) && Took(v, lists, order, r)
    ensures SlabsAlike(v.pages, r.v.pages)
  {
    hide FitOrder, Source, TakenHeap, HeapOf;
  }

  lemma NoRunNoPage(free: set<Block>, p: nat)
    requires NoRun(free, 0)
    ensures !Holds(free, p)
  {
    var x := Block(p, 0);
    assert x.order == 0 && x.Aligned() && !HoldsAll(free, x);
    var q :| x.Covers(q) && !Holds(free, q);
    assert q == p;
  }

  lemma FrameFacts(h: Heap, c: Block, got: Block, n: nat)
    requires c in h.free && got.head == c.head && got.End() <= c.End() && n <= Pow2(got.order)
    requires forall x, y | x in h.free && y in h.live :: x.Apart(y)
    ensures NewFrames(h.live, h.live + {got}, c.head, n)
  {
    forall p ensures Holds(h.live, p) ==> Holds(h.live + {got}, p) { HoldsUnion(h.live, {got}, p); }
    forall p | c.head <= p < c.head + n ensures !Holds(h.live, p) && Holds(h.live + {got}, p) {
      HoldsUnion(h.live, {got}, p);
      HoldsOne(got, p);
    }
  }

  // ----- reference counts on values -----

  function Referenced(v: Phys, ppn: nat): Phys
    requires ppn < |v.pages|
  {
    v.(pages := v.pages[ppn := v.pages[ppn].(count := (v.pages[ppn].count + 1) % 0x1_0000_0000)])
  }

  function Unreferenced(text: Text, v: Phys, ppn: nat): (r: Result)
    requires |v.heads| == LISTS && ppn < |v.pages|
    ensures r.Done? ==> |r.v.heads| == LISTS && |r.v.pages| == |v.pages|
  {
    var p := v.pages[ppn];
    if p.count > 1 then Done(v.(pages := v.pages[ppn := p.(count := p.count - 1)]), ppn)
    else if p.count == 1 then BuddyFree.BlockFree(text, v, ppn, p.order)
    else Panic
  }

  lemma RecountKeeps(text: Text, v: Phys, lists: seq<seq<nat>>, ppn: nat, count: nat)
    requires SoundBy(text, v, lists) && ppn < |v.pages|
    requires v.pages[ppn].count != 0 && count != 0
    ensures var v' := v.(pages := v.pages[ppn := v.pages[ppn].(count := count)]);
            SoundBy(text, v', lists) && HeapOf(v'.pages) == HeapOf(v.pages)
  {
    hide SoundBy;
    RecountedHeap(v.pages, ppn, count);
    RelabelSound(text, v, lists, v.pages[ppn := v.pages[ppn].(count := count)]);
  }

  lemma RecountKeepsWhole(v: Phys, lists: seq<seq<nat>>, ppn: nat, count: nat)
    requires BuddyAlloc.Valid(v, lists) && ppn < |v.pages|
    requires v.pages[ppn].count != 0 && count != 0
    ensures BuddyAlloc.Valid(v.(pages := v.pages[ppn := v.pages[ppn].(count := count)]), lists)
  {
    hide BuddyAlloc.Valid;
    RecountKeeps(Repaired, v, lists, ppn, count);
  }

  lemma RecountedHeap(d: seq<Ppage>, ppn: nat, count: nat)
    requires ppn < |d| && (d[ppn].head ==> d[ppn].count != 0 && count != 0)
    ensures var d' := d[ppn := d[ppn].(count := count)]; Homes(d') == Homes(d) && HeapOf(d') == HeapOf(d)
  {
    var d' := d[ppn := d[ppn].(count := count)];
    assert FreeSet(d') == FreeSet(d) && LiveSet(d') == LiveSet(d);
  }

  /** A page whose count may go up: it heads no free block and its counter does not wrap. */
  predicate Countable(p: Ppage) {
    p.head ==> 0 < p.count < 0xFFFF_FFFF
  }

  /** Counting up such a page keeps every list and every block. */
  lemma RefKeeps(text: Text, v: Phys, lists: seq<seq<nat>>, ppn: nat)
    requires SoundBy(text, v, lists) && ppn < |v.pages| && Countable(v.pages[ppn])
    ensures SoundBy(text, Referenced(v, ppn), lists) && HeapOf(Referenced(v, ppn).pages) == HeapOf(v.pages)
  {
    hide SoundBy;
    RecountedHeap(v.pages, ppn, (v.pages[ppn].count + 1) % 0x1_0000_0000);
    RelabelSound(text, v, lists, Referenced(v, ppn).pages);
  }

  lemma RefKeepsWhole(v: Phys, lists: seq<seq<nat>>, ppn: nat)
    requires BuddyAlloc.Valid(v, lists) && ppn < |v.pages| && Countable(v.pages[ppn])
    ensures BuddyAlloc.Valid(Referenced(v, ppn), lists)
  {
    hide BuddyAlloc.Valid;
    RefKeeps(Repaired, v, lists, ppn);
  }

  /** One more reference keeps everything consistent exactly if the block is in use and
      its counter does not wrap to 0, which would read as free. */
  lemma RefKeepsIff(v: Phys, lists: seq<seq<nat>>, x: Block)
    requires BuddyAlloc.Valid(v, lists) && x in FreeSet(v.pages) + LiveSet(v.pages)
    requires v.pages[x.head].count < 0x1_0000_0000
    ensures Threaded(Referenced(v, x.head), lists) <==> 0 < v.pages[x.head].count < 0xFFFF_FFFF
  {
    var c := v.pages[x.head].count;
    var v' := Referenced(v, x.head);
    if 0 < c < 0xFFFF_FFFF {
      RecountKeeps(Repaired, v, lists, x.head, c + 1);
    } else {
      var k := Home(v.pages[x.head]);
      assert 0 <= k < LISTS && HoldsPagesAt(lists[k], Homes(v.pages), k) && x.head in lists[k];
      assert Homes(v'.pages)[x.head] == Home(v'.pages[x.head]) != k;
      assert !HoldsPagesAt(lists[k], Homes(v'.pages), k);
    }
  }

  /** n calls of ppage_unref on the same page. */
  function UnreferencedTimes(v: Phys, ppn: nat, n: nat): (r: Result)
    requires |v.heads| == LISTS && ppn < |v.pages|
    ensures r.Done? ==> |r.v.heads| == LISTS && |r.v.pages| == |v.pages|
    decreases n
  {
    if n == 0 then Done(v, ppn)
    else
      match Unreferenced(Repaired, v, ppn)
      case Panic => Panic
      case Done(v1, _) => UnreferencedTimes(v1, ppn, n - 1)
  }

  /** The last reference gives the block back. */
  lemma OnlyUnrefFrees(v: Phys, lists: seq<seq<nat>>, x: Block)
    requires BuddyAlloc.Valid(v, lists) && WholeBlocks(v.pages) && x in LiveSet(v.pages)
    requires v.pages[x.head].slab == 0 && v.pages[x.head].mapping == 0 && v.pages[x.head].count == 1
    ensures Unreferenced(Repaired, v, x.head).Done?
    ensures HeapOf(Unreferenced(Repaired, v, x.head).v.pages)
         == Heap(Coalesce(Repaired, FreeSet(v.pages), x), LiveSet(v.pages) - {x})
  {
    assert x in FreeSet(v.pages) + LiveSet(v.pages);
    FreeRefines(v, lists, x);
  }

  /** A block held by count references stays in use through every unref but the last,
      which gives it back. */
  lemma {:induction false} LastUnrefFrees(v: Phys, lists: seq<seq<nat>>, x: Block, n: nat)
    requires BuddyAlloc.Valid(v, lists) && WholeBlocks(v.pages) && x in LiveSet(v.pages)
    requires v.pages[x.head].slab == 0 && v.pages[x.head].mapping == 0 && n <= v.pages[x.head].count
    ensures UnreferencedTimes(v, x.head, n).Done?
    ensures var r := UnreferencedTimes(v, x.head, n);
            if n < v.pages[x.head].count then HeapOf(r.v.pages) == HeapOf(v.pages)
            else HeapOf(r.v.pages) == Heap(Coalesce(Repaired, FreeSet(v.pages), x), LiveSet(v.pages) - {x})
    decreases n
  {
    assert |v.heads| == LISTS;
    hide BuddyAlloc.Valid, Coalesce, BuddyFree.BlockFree;
    var c := v.pages[x.head].count;
    if n > 0 && c > 1 {
      RecountKeeps(Repaired, v, lists, x.head, c - 1);
      var v1 := v.(pages := v.pages[x.head := v.pages[x.head].(count := c - 1)]);
      assert Unreferenced(Repaired, v, x.head) == Done(v1, x.head);
      LastUnrefFrees(v1, lists, x, n - 1);
    } else if n > 0 {
      OnlyUnrefFrees(v, lists, x);
      var v1 := Unreferenced(Repaired, v, x.head).v;
      assert UnreferencedTimes(v1, x.head, 0) == Done(v1, x.head);
    }
  }

  /** The n pages from ppn on carry the address slab, and nothing else changed. */
  ghost predicate SlabSet(d: seq<Ppage>, d': seq<Ppage>, ppn: nat, n: nat, slab: nat) {
    && |d'| == |d|
    && forall i: nat | i < |d| :: d'[i] == d[i].(slab := if ppn <= i < ppn + n then slab else d[i].slab)
  }

  lemma SlabKeeps(text: Text, v: Phys, lists: seq<seq<nat>>, d': seq<Ppage>)
    requires SoundBy(text, v, lists) && |d'| == |v.pages|
    requires forall i | 0 <= i < |d'| :: d'[i] == v.pages[i].(slab := d'[i].slab)
    ensures SoundBy(text, v.(pages := d'), lists) && HeapOf(d') == HeapOf(v.pages)
  {
    hide SoundBy;
    assert Homes(d') == Homes(v.pages);
    assert FreeSet(d') == FreeSet(v.pages) && LiveSet(d') == LiveSet(v.pages);
    RelabelSound(text, v, lists, d');
  }

  lemma SlabKeepsWhole(v: Phys, lists: seq<seq<nat>>, d': seq<Ppage>)
    requires BuddyAlloc.Valid(v, lists) && |d'| == |v.pages|
    requires forall i | 0 <= i < |d'| :: d'[i] == v.pages[i].(slab := d'[i].slab)
    ensures BuddyAlloc.Valid(v.(pages := d'), lists)
  {
    hide BuddyAlloc.Valid;
    SlabKeeps(Repaired, v, lists, d');
  }

  // ----- how many pages ppages_alloc gives -----

  function OrderFrom(n: nat, order: nat): (o: nat)
    requires order <= MAX_ORDER
    ensures order <= o <= MAX_ORDER
    decreases MAX_ORDER - order
  {
    if order == MAX_ORDER || n <= Pow2(order) then order else OrderFrom(n, order + 1)
  }

  function OrderFor(n: nat): (o: nat)
    ensures o <= MAX_ORDER
  {
    OrderFrom(n, 0)
  }

  lemma {:induction false} OrderFromHolds(n: nat, order: nat)
    requires order <= MAX_ORDER
    ensures var o := OrderFrom(n, order);
            && (o < MAX_ORDER ==> n <= Pow2(o)) && (o > order ==> n > Pow2(o - 1))
    decreases MAX_ORDER - order
  {
    if order < MAX_ORDER && n > Pow2(order) { OrderFromHolds(n, order + 1); }
  }

  /** Up to 512 pages can be had, in a block of an order if and only if they fit into it and no
      smaller one would do: never twice as many as were asked for. */
  lemma OrderHolds(n: nat)
    ensures OrderFor(n) < MAX_ORDER <==> n <= Pow2(MAX_ORDER - 1)
    ensures OrderFor(n) < 10 <==> n <= 512
    ensures OrderFor(n) < MAX_ORDER ==> n <= Pow2(OrderFor(n)) && (n > 0 ==> Pow2(OrderFor(n)) < 2 * n)
    ensures forall o | 0 <= o < 10 :: OrderFor(n) <= o <==> n <= Pow2(o)
  {
    OrderFromHolds(n, 0);
    if OrderFor(n) < MAX_ORDER { Pow2Grows(OrderFor(n), MAX_ORDER - 1); }
    forall o | 0 <= o < 10 ensures OrderFor(n) <= o <==> n <= Pow2(o) { OrderUpTo(n, o); }
  }

  lemma OrderUpTo(n: nat, o: nat)
    requires o < MAX_ORDER
    ensures OrderFor(n) <= o <==> n <= Pow2(o)
  {
    hide Pow2, OrderFrom;
    OrderFromHolds(n, 0);
    if OrderFor(n) <= o { Pow2Grows(OrderFor(n), o); } else { Pow2Grows(o, OrderFor(n) - 1); }
  }

  // ----- freeing, in either text -----

  /** What a page's descriptor says of a block in use that may be given back: nobody maps it, no
      slab lives in it, and there is one reference left. */
  ghost predicate MayGoBack(p: Ppage, order: nat) {
    order < 10 && p.head && p.order == order && p.count == 1 && p.mapping == 0 && p.slab == 0
  }

  /** A block comes from the head of the first list from order on that is not empty. */
  ghost predicate FromFirstList(freeHeads: seq<int>, order: nat, r: Option<nat>) {
    && (r.None? <==> forall j | order <= j < |freeHeads| :: freeHeads[j] == NULL)
    && (forall j | order <= j < |freeHeads| && freeHeads[j] != NULL :: FromListOrBefore(freeHeads, order, j, r))
  }

  /** The block is the head of list j, unless it comes from a list before. */
  ghost predicate FromListOrBefore(freeHeads: seq<int>, order: nat, j: nat, r: Option<nat>)
    requires order <= j < |freeHeads|
  {
    (forall i | order <= i < j :: freeHeads[i] == NULL) ==> r.Some? && r.value == freeHeads[j]
  }

  lemma FromThisList(freeHeads: seq<int>, order: nat, ppn: nat)
    requires order < |freeHeads| && freeHeads[order] == ppn && ppn != NULL
    ensures FromFirstList(freeHeads, order, Some(ppn))
  {}

  lemma NoListLeft(freeHeads: seq<int>, order: nat)
    requires order >= |freeHeads|
    ensures FromFirstList(freeHeads, order, None)
  {}

  lemma FromNextList(freeHeads: seq<int>, order: nat, r: Option<nat>)
    requires order < |freeHeads| && freeHeads[order] == NULL && FromFirstList(freeHeads, order + 1, r)
    ensures FromFirstList(freeHeads, order, r)
  {
    forall j | order <= j < |freeHeads| && freeHeads[j] != NULL ensures FromListOrBefore(freeHeads, order, j, r) {
      assert FromListOrBefore(freeHeads, order + 1, j, r);
    }
  }

  /** The loop with x in hand ends in the state goal and follows no NULL link on its way. */
  ghost predicate Leads(text: Text, v: Phys, x: Block, goal: Phys) {
    && |v.heads| == LISTS && x.order < MAX_ORDER && x.head < |v.pages| && v.pages[x.head].order == x.order
    && MergeLoop(text, v, x.head, x.order).Done? && MergeLoop(text, v, x.head, x.order).v == goal
    && !MergeFollows(text, v, x)
  }

  lemma LeadsAtFirst(text: Text, v: Phys, x: Block)
    requires |v.heads| == LISTS && Freeable(v, x.head, x.order) && !FreeFollows(text, v, x)
    requires BuddyFree.BlockFree(text, v, x.head, x.order).Done?
    ensures !DeleteFollows(v.pages, v.heads[UsedList(x.order)], x.head)
    ensures Leads(text, TakenBack(v, x.head, x.order), x, BuddyFree.BlockFree(text, v, x.head, x.order).v)
  {
    UnlinkData(v, UsedList(x.order), x.head);
    hide MergeLoop, MergeFollows, DeleteFollows, Unlink;
  }

  lemma LeadsFrom(text: Text, v: Phys, x: Block, goal: Phys)
    requires Leads(text, v, x, goal)
    ensures |v.heads| == LISTS && x.order < MAX_ORDER && x.head < |v.pages| && v.pages[x.head].order == x.order
    ensures x.order < MAX_ORDER - 1 ==> FindBuddy(text, x).head < |v.pages|
  {
    hide MergeFollows, And, Xor, Pow2, Turned, Link, MergeTest;
  }

  lemma LeadsOn(text: Text, v: Phys, x: Block, goal: Phys)
    requires Leads(text, v, x, goal) && x.order < MAX_ORDER - 1
    requires FindBuddy(text, x).head < |v.pages| && MergeTest(v.pages, FindBuddy(text, x).head, x.order)
    ensures var buddy := FindBuddy(text, x).head;
            && And(x.head, buddy) < |v.pages| && !DeleteFollows(v.pages, v.heads[FreeList(x.order)], buddy)
            && Leads(text, Turned(v, x, buddy, And(x.head, buddy)), Block(And(x.head, buddy), x.order + 1), goal)
  {
    hide And, Xor, Pow2, Unlink, Link, MergeTest, DeleteFollows;
  }

  lemma LeadsHome(text: Text, v: Phys, x: Block, goal: Phys)
    requires Leads(text, v, x, goal)
    requires x.order < MAX_ORDER - 1 ==>
               FindBuddy(text, x).head < |v.pages| && !MergeTest(v.pages, FindBuddy(text, x).head, x.order)
    ensures |v.heads| == LISTS && x.order < MAX_ORDER
    ensures !PushFollows(v.pages, v.heads[FreeList(x.order)]) && Link(v, FreeList(x.order), x.head) == goal
  {
    hide And, Xor, Pow2, Turned, Link, MergeTest, PushFollows;
  }

  /** The lists after a block was freed; as written, without a merge. */
  ghost function FreedLists(text: Text, lists: seq<seq<nat>>, x: Block): (lists': seq<seq<nat>>)
    requires |lists| == LISTS && x.order < MAX_ORDER
    ensures |lists'| == LISTS
  {
    var u, s, f := UsedList(x.order), lists[UsedList(x.order)], lists[FreeList(x.order)];
    if text.Repaired? && x.head in s then FreeLists(lists, x)
    else lists[u := if x.head in s then Without(s, IndexOf(s, x.head)) else s][FreeList(x.order) := f + [x.head]]
  }

  lemma FreeWithoutMerge(v: Phys, lists: seq<seq<nat>>, x: Block)
    requires BuddyAlloc.Valid(v, lists) && WholeBlocks(v.pages) && Freeable(v, x.head, x.order)
    requires !Merges(AsWritten, FreeSet(v.pages), x)
    ensures x.head in lists[UsedList(x.order)] && BuddyFree.BlockFree(AsWritten, v, x.head, x.order).Done?
    ensures BuddyAlloc.Valid(BuddyFree.BlockFree(AsWritten, v, x.head, x.order).v, FreedLists(AsWritten, lists, x))
  {
    LiveIsListed(v, lists, x);
    var s := lists[UsedList(x.order)];
    var v1, lists1 := TakenBack(v, x.head, x.order), lists[UsedList(x.order) := Without(s, IndexOf(s, x.head))];
    TakenBackInHand(v, lists, x, IndexOf(s, x.head));
    hide InHand, TakenBack, BuddyAlloc.Valid;
    PutBack(v1, lists1, x);
    NoMergeEnds(v1, lists1, x);
  }

  lemma NoMergeEnds(v: Phys, lists: seq<seq<nat>>, x: Block)
    requires InHand(v, lists, x) && !Merges(AsWritten, FreeSet(v.pages) - {x}, x)
    ensures |v.heads| == LISTS && x.head < |v.pages| && x.order < MAX_ORDER
    ensures MergeLoop(AsWritten, v, x.head, x.order) == Done(Link(v, FreeList(x.order), x.head), x.head)
  {
    InHandFacts(v, lists, x);
    hide Link, Turned, Threads, Tiled;
    AndAgain(x.head, Pow2(x.order));
  }

  /** What is left of the lists when x is given back: they are as good as the text keeps them
      exactly if it is repaired, or merges nothing and lets the block go; and as good as the
      repaired text keeps them if they were so before and nothing merged by mistake. */
  ghost predicate StaysSound(text: Text, v: Phys, lists: seq<seq<nat>>, x: Block, v': Phys, lists': seq<seq<nat>>)
    requires |v.heads| == LISTS && x.order < MAX_ORDER && x.head < |v.pages|
  {
    var clean := text.Repaired? || !Merges(text, FreeSet(v.pages), x);
    && (SoundBy(text, v', lists') <==> text.Repaired? || (clean && LetGo(v, x)))
    && (clean && BuddyAlloc.Valid(v, lists) ==> BuddyAlloc.Valid(v', lists'))
  }

  /** Block x was given back: the state is that of the free on values, and these are the free
      and held blocks. */
  ghost predicate BlockGiven(text: Text, v: Phys, lists: seq<seq<nat>>, x: Block, v': Phys, lists': seq<seq<nat>>) {
    && |v.heads| == |lists| == LISTS && x.head < |v.pages| && x.order < MAX_ORDER
    && BuddyFree.BlockFree(text, v, x.head, x.order).Done? && BuddyFree.BlockFree(text, v, x.head, x.order).v == v'
    && GivenBack(text, v.pages, x, v'.pages)
    && lists' == FreedLists(text, lists, x) && StaysSound(text, v, lists, x, v', lists')
  }

  /** What BlockFree does on entry and leaves behind. */
  lemma FreeIsReady(text: Text, v: Phys, lists: seq<seq<nat>>, x: Block)
    requires SoundBy(text, v, lists) && WholeBlocks(v.pages) && |v.heads| == |lists| == LISTS
    requires Freeable(v, x.head, x.order) && (text.AsWritten? ==> !FreeFollows(text, v, x))
    ensures !FreeFollows(text, v, x) && BuddyFree.BlockFree(text, v, x.head, x.order).Done?
    ensures BlockGiven(text, v, lists, x, BuddyFree.BlockFree(text, v, x.head, x.order).v, FreedLists(text, lists, x))
  {
    hide BuddyAlloc.Valid, BuddyFree.BlockFree, KeepsRest, FreeFollows, FreeLists, Coalesce, Loose, LetGo;
    if text.Repaired? {
      FreeIsSafe(v, lists, x);
      FreeRefines(v, lists, x);
    } else {
      FreeData(v, x);
      StaysLoose(v, lists, x);
      if !Merges(text, FreeSet(v.pages), x) && BuddyAlloc.Valid(v, lists) { FreeWithoutMerge(v, lists, x); }
    }
  }

  lemma StaysLoose(v: Phys, lists: seq<seq<nat>>, x: Block)
    requires Loose(v, lists) && |v.heads| == |lists| == LISTS && Freeable(v, x.head, x.order)
    ensures BuddyFree.BlockFree(AsWritten, v, x.head, x.order).Done?
    ensures Loose(BuddyFree.BlockFree(AsWritten, v, x.head, x.order).v, FreedLists(AsWritten, lists, x))
       <==> !Merges(AsWritten, FreeSet(v.pages), x) && LetGo(v, x)
  {
    hide LooseBy, BuddyFree.BlockFree, Coalesce, LetGo, Merges;
    LooseAfterFreeIff(v, lists, x);
    var v' := BuddyFree.BlockFree(AsWritten, v, x.head, x.order).v;
    if !Merges(AsWritten, FreeSet(v.pages), x) && LetGo(v, x) {
      var lists1 := lists[FreeList(x.order) := lists[FreeList(x.order)] + [x.head]];
      FreeLoose(v, lists, x);
      UsedIgnored(v', lists1, Homes(v'.pages), FreedLists(AsWritten, lists, x));
    }
  }

  function ResultPpn(r: Result): Option<nat> {
    if r.Done? then Some(r.ppn) else None
  }

  lemma LinkKeepsOrder(v: Phys, k: nat, el: nat, p: nat)
    requires k < |v.heads| && p < |v.pages|
    ensures Link(v, k, el).pages[p].order == v.pages[p].order
  {}
}
