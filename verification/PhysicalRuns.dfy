/** Whole runs of the physical page allocator's code, for both texts. */
module PhysicalRuns {
  import opened Outcomes
  import opened Blocks
  import opened FreeBlocks
  import opened BuddyRuns
  import opened BuddyRefs
  import opened Clist
  import opened BuddyLists
  import opened BuddyAlloc
  import opened BuddyFree
  import opened PageRanges
  import opened FreeAsWritten
  import opened LooseLists
  import opened LooseFrees
  import opened SoundLists
  import opened PhysicalPages

  /** ppage_block_alloc, ppages_alloc, ppage_block_free, ppage_ref, ppage_unref and
      ppages_set_slab, the last with the size of the slab's region. */
  datatype Call =
    | Alloc(order: nat)
    | AllocPages(n: nat)
    | Free(ppn: nat, order: nat)
    | Ref(ppn: nat)
    | Unref(ppn: nat)
    | Label(ppn: nat, n: nat, slab: nat, region: Option<nat>)

  // ----- the state as blocks with references -----

  ghost function RefsOf(d: seq<Ppage>): (refs: map<Block, nat>)
    ensures refs.Keys == LiveSet(d)
  {
    map x | x in LiveSet(d) :: d[x.head].count
  }

  ghost function HeldOf(d: seq<Ppage>): (h: Held) {
    Held(HeapOf(d), RefsOf(d))
  }

  // ----- which calls can be served -----

  /** As written a free goes wrong where it merges, where nothing is left of the used list to
      delete from, and where a block in use stays linked to the one given back. */
  ghost predicate CanFree(text: Text, v: Phys, x: Block) {
    && |v.heads| == LISTS && Freeable(v, x.head, x.order)
    && (text.AsWritten? ==>
          !Merges(text, FreeSet(v.pages), x) && v.heads[UsedList(x.order)] != NULL && LetGo(v, x))
  }

  /** The call does not halt the kernel; nor does it make a free block look held or the other
      way round, which only one reference too many can; nor is it a free that goes wrong. */
  ghost predicate Served(text: Text, call: Call, v: Phys, lists: seq<seq<nat>>) {
    match call
    case Alloc(order) => Fits(lists, order)
    case AllocPages(n) => n <= Pow2(MAX_ORDER - 1) && Fits(lists, OrderFor(n))
    case Free(ppn, order) => CanFree(text, v, Block(ppn, order))
    case Ref(ppn) => ppn < |v.pages| && Countable(v.pages[ppn])
    case Unref(ppn) =>
      && ppn < |v.pages| && v.pages[ppn].count > 0
      && (v.pages[ppn].count == 1 ==> CanFree(text, v, Block(ppn, v.pages[ppn].order)))
    case Label(ppn, n, slab, region) => ppn < |v.pages| && 0 < ppn + n <= |v.pages| && slab != 0 && region == Some(n)
  }

  /** The step a call takes. A page that heads no block has no references of its own. */
  ghost predicate Answers(call: Call, d: seq<Ppage>, op: RefOp) {
    match call
    case Alloc(order) => op.Get? && op.order == order
    case AllocPages(n) => op.Get? && op.order == OrderFor(n)
    case Free(ppn, order) => op == Last(Block(ppn, order))
    case Ref(ppn) => ppn < |d| && op == if d[ppn].head then More(Block(ppn, d[ppn].order)) else Idle
    case Unref(ppn) =>
      && ppn < |d|
      && op == (if !d[ppn].head then Idle
                else if d[ppn].count == 1 then Last(Block(ppn, d[ppn].order))
                else Less(Block(ppn, d[ppn].order)))
    case Label(_, _, _, _) => op == Idle
  }

  // ----- each call takes its step -----

  lemma HeldIsSound(text: Text, v: Phys, lists: seq<seq<nat>>)
    requires SoundBy(text, v, lists) && (text.Repaired? ==> Canonical(FreeSet(v.pages)))
    ensures RefInv(text, HeldOf(v.pages))
  {
    hide SoundBy, Canonical;
    SoundFacts(text, v, lists);
  }

  lemma GetIsStep(text: Text, v: Phys, lists: seq<seq<nat>>, order: nat, v': Phys, ppn: nat)
    requires SoundBy(text, v, lists) && Fits(lists, order) && Took(v, lists, order, Done(v', ppn))
    ensures RefStep(text, HeldOf(v.pages), Get(order, Source(lists, order)), HeldOf(v'.pages))
  {
    hide SoundBy, LooseBy, SmallestFit, FitOrder;
    SoundFacts(text, v, lists);
    LooseFits(v, lists, order);
    SourceIsFree(v, lists, order);
    GetRefs(v.pages, Source(lists, order), order, v'.pages);
  }

  lemma SourceIsFree(v: Phys, lists: seq<seq<nat>>, order: nat)
    requires Fits(lists, order) && SmallestFit(FreeSet(v.pages), order, Source(lists, order))
    ensures Source(lists, order) in FreeSet(v.pages)
  {}

  lemma GetRefs(d: seq<Ppage>, c: Block, order: nat, d': seq<Ppage>)
    requires Tidy(HeapOf(d)) && c in FreeSet(d) && |d'| == |d|
    requires LiveSet(d') == LiveSet(d) + {Block(c.head, order)} && d'[c.head].count == 1 && OnlyInside(d, d', c)
    ensures RefsOf(d') == RefsOf(d)[Block(c.head, order) := 1]
  {
    forall x | x in LiveSet(d) ensures d'[x.head].count == d[x.head].count {
      HeldIsOutside(HeapOf(d), c, x);
    }
    hide Tidy, OnlyInside;
    var refs, refs' := RefsOf(d), RefsOf(d');
    assert refs'.Keys == refs[Block(c.head, order) := 1].Keys;
    forall x | x in refs' ensures refs'[x] == refs[Block(c.head, order) := 1][x] {}
  }

  lemma HeldIsOutside(h: Heap, c: Block, x: Block)
    requires Tidy(h) && c in h.free && x in h.live
    ensures !c.Covers(x.head)
  {
    ApartSets(h.free, h.live);
    assert x.Covers(x.head);
  }

  lemma LastIsStep(text: Text, d: seq<Ppage>, x: Block, d': seq<Ppage>)
    requires x.head < |d| && x in LiveSet(d) && d[x.head].count == 1 && GivenBack(text, d, x, d')
    requires text.AsWritten? ==> !Merges(text, FreeSet(d), x)
    ensures RefStep(text, HeldOf(d), Last(x), HeldOf(d'))
  {
    var refs, refs' := RefsOf(d), RefsOf(d');
    hide Coalesce;
    assert refs'.Keys == (refs - {x}).Keys;
    forall y | y in refs' ensures refs'[y] == (refs - {x})[y] {}
  }

  lemma RecountIsStep(text: Text, d: seq<Ppage>, ppn: nat, count: nat, d': seq<Ppage>)
    requires ppn < |d| && d' == d[ppn := d[ppn].(count := count)] && HeapOf(d') == HeapOf(d)
    requires d[ppn].head ==> d[ppn].count > 0
    ensures !d[ppn].head ==> HeldOf(d') == HeldOf(d)
    ensures d[ppn].head && count == d[ppn].count + 1 ==>
              RefStep(text, HeldOf(d), More(Block(ppn, d[ppn].order)), HeldOf(d'))
    ensures d[ppn].head && count == d[ppn].count - 1 > 0 ==>
              RefStep(text, HeldOf(d), Less(Block(ppn, d[ppn].order)), HeldOf(d'))
  {
    var refs, refs', x := RefsOf(d), RefsOf(d'), Block(ppn, d[ppn].order);
    if d[ppn].head {
      assert x in LiveSet(d);
      assert refs' == refs[x := count];
    } else {
      assert refs' == refs;
    }
  }

  lemma SameHeld(d: seq<Ppage>, d': seq<Ppage>)
    requires |d'| == |d| && HeapOf(d') == HeapOf(d) && forall i | 0 <= i < |d| :: d'[i].count == d[i].count
    ensures HeldOf(d') == HeldOf(d)
  {
    assert RefsOf(d') == RefsOf(d);
  }

  // ----- the methods of the allocator, called one after the other -----

  /** The call took its step, or it cannot be served and nothing happened. */
  ghost predicate ServedAs(text: Text, call: Call, v: Phys, lists: seq<seq<nat>>, ok: bool, op: RefOp, v': Phys,
          lists': seq<seq<nat>>) {
    && (ok <==> Served(text, call, v, lists))
    && (ok ==> Answers(call, v.pages, op) && RefStep(text, HeldOf(v.pages), op, HeldOf(v'.pages)))
    && (!ok ==> v' == v && lists' == lists)
  }

  lemma AllocIsServed(text: Text, v: Phys, lists: seq<seq<nat>>, order: nat, v': Phys, ppn: nat, lists': seq<seq<nat>>)
    requires SoundBy(text, v, lists) && Fits(lists, order) && Took(v, lists, order, Done(v', ppn))
    ensures ServedAs(text, Alloc(order), v, lists, true, Get(order, Source(lists, order)), v', lists')
  {
    hide SoundBy, RefStep, Took, HeldOf;
    GetIsStep(text, v, lists, order, v', ppn);
  }

  lemma Refused(text: Text, call: Call, v: Phys, lists: seq<seq<nat>>, op: RefOp)
    requires !Served(text, call, v, lists)
    ensures ServedAs(text, call, v, lists, false, op, v, lists)
  {}

  /** ppage_block_alloc. */
  method ServeAlloc(a: PageAllocator, order: nat) returns (ok: bool, ghost op: RefOp)
    requires a.Sound()
    modifies a, a.dscrs, a.freeHeads, a.usedHeads
    ensures a.Sound() && ServedAs(a.text, Alloc(order), old(a.View()), old(a.lists), ok, op, a.View(), a.lists)
  {
    ghost var v, lists := a.View(), a.lists;
    hide SoundBy, Took, BuddyAlloc.BlockAlloc, AllocLists, ServedAs, FitOrder, BuddyAlloc.Valid;
    op := Idle;
    var r := a.BlockAlloc(order);
    ok := r.Some?;
    if ok {
      AllocIsServed(a.text, v, lists, order, a.View(), r.value, a.lists);
      op := Get(order, Source(lists, order));
    } else {
      Refused(a.text, Alloc(order), v, lists, op);
    }
  }

  lemma PagesAreServed(text: Text, v: Phys, lists: seq<seq<nat>>, n: nat, v': Phys, ppn: nat, lists': seq<seq<nat>>)
    requires SoundBy(text, v, lists) && n <= Pow2(MAX_ORDER - 1) && Fits(lists, OrderFor(n))
    requires Took(v, lists, OrderFor(n), Done(v', ppn))
    ensures ServedAs(text, AllocPages(n), v, lists, true, Get(OrderFor(n), Source(lists, OrderFor(n))), v', lists')
  {
    hide SoundBy, RefStep, Took, HeldOf;
    GetIsStep(text, v, lists, OrderFor(n), v', ppn);
  }

  /** ppages_alloc, which panics or fails an assertion above 512 pages. */
  method ServePages(a: PageAllocator, n: nat) returns (ok: bool, ghost op: RefOp)
    requires a.Sound()
    modifies a, a.dscrs, a.freeHeads, a.usedHeads
    ensures a.Sound() && ServedAs(a.text, AllocPages(n), old(a.View()), old(a.lists), ok, op, a.View(), a.lists)
  {
    ghost var v, lists := a.View(), a.lists;
    hide SoundBy, Took, AllocLists, NewFrames, ServedAs, FitOrder, OrderFor, Pow2, BuddyAlloc.Valid;
    op := Idle;
    var r := a.PagesAlloc(n);
    ok := r.Some?;
    if ok {
      PagesAreServed(a.text, v, lists, n, a.View(), r.value, a.lists);
      op := Get(OrderFor(n), Source(lists, OrderFor(n)));
    } else {
      Refused(a.text, AllocPages(n), v, lists, op);
    }
  }

  /** Whether freeing block as written would merge it. */
  method WouldMerge(a: PageAllocator, block: nat, order: nat) returns (merges: bool)
    requires a.text.AsWritten? && block < a.dscrs.Length
    ensures merges <==> Merges(a.text, a.Free(), Block(block, order))
  {
    if order >= MAX_ORDER - 1 {
      return false;
    }
    var buddy := FindBuddy(AsWritten, Block(block, order)).head;
    merges := buddy == block;
    if !merges && buddy < a.dscrs.Length {
      merges := a.dscrs[buddy].count == 0 && a.dscrs[buddy].head && a.dscrs[buddy].order == order;
    }
  }

  lemma FreeIsLast(text: Text, v: Phys, lists: seq<seq<nat>>, x: Block, v': Phys, lists': seq<seq<nat>>)
    requires SoundBy(text, v, lists) && CanFree(text, v, x) && BlockGiven(text, v, lists, x, v', lists')
    ensures SoundBy(text, v', lists') && |v'.pages| == |v.pages|
    ensures RefStep(text, HeldOf(v.pages), Last(x), HeldOf(v'.pages))
  {
    hide SoundBy, BuddyAlloc.Valid, BuddyFree.BlockFree, FreedLists, RefStep, GivenBack, Coalesce, LetGo;
    LastIsStep(text, v.pages, x, v'.pages);
  }

  /** Whether the code as written can free x and leave a sound state. */
  method FreesWell(a: PageAllocator, x: Block) returns (well: bool)
    requires a.Shape() && a.text.AsWritten? && x.head < a.dscrs.Length && Freeable(a.View(), x.head, x.order)
    ensures well <==> CanFree(a.text, a.View(), x)
  {
    hide LetGo;
    var v := Phys(a.dscrs[..], a.freeHeads[..] + a.usedHeads[..]);
    var merges := WouldMerge(a, x.head, x.order);
    well := !merges && v.heads[UsedList(x.order)] != NULL && LetGo(v, x);
  }

  /** ppage_block_free. */
  method ServeFree(a: PageAllocator, ppn: nat, order: nat) returns (ok: bool, ghost op: RefOp)
    requires a.Sound()
    modifies a, a.dscrs, a.freeHeads, a.usedHeads
    ensures a.Sound() && ServedAs(a.text, Free(ppn, order), old(a.View()), old(a.lists), ok, op, a.View(), a.lists)
  {
    ghost var v, lists := a.View(), a.lists;
    hide SoundBy, BlockGiven, BuddyAlloc.Valid, FreeFollows, ServedAs, CanFree, Loose;
    op := Last(Block(ppn, order));
    if ppn >= a.dscrs.Length {
      NotFreeable(a.text, v, lists, ppn, order, op);
      return false, op;
    }
    if a.text.AsWritten? && Freeable(Phys(a.dscrs[..], a.freeHeads[..] + a.usedHeads[..]), ppn, order) {
      var well := FreesWell(a, Block(ppn, order));
      if !well {
        Refused(a.text, Free(ppn, order), v, lists, op);
        return false, op;
      }
      SoundFacts(a.text, v, lists);
      LastIsSafe(a.text, v, lists, Block(ppn, order));
    }
    ok := a.BlockFree(ppn, order);
    if ok {
      RepairedCanFree(a.text, v, Block(ppn, order));
      FreeIsServed(a.text, v, lists, Block(ppn, order), a.View(), a.lists);
    } else {
      NotFreeable(a.text, v, lists, ppn, order, op);
    }
  }

  lemma LastIsSafe(text: Text, v: Phys, lists: seq<seq<nat>>, x: Block)
    requires Loose(v, lists) && text.AsWritten? && CanFree(text, v, x) && |v.heads| == |lists| == LISTS
    ensures !FreeFollows(text, v, x)
  {
    hide Loose, FreeFollows, LetGo, Merges;
    FollowsIffListEmpty(v, lists, x);
  }

  lemma RepairedCanFree(text: Text, v: Phys, x: Block)
    requires |v.heads| == LISTS && Freeable(v, x.head, x.order) && (text.AsWritten? ==> CanFree(text, v, x))
    ensures CanFree(text, v, x)
  {}

  lemma NotFreeable(text: Text, v: Phys, lists: seq<seq<nat>>, ppn: nat, order: nat, op: RefOp)
    requires !Freeable(v, ppn, order)
    ensures ServedAs(text, Free(ppn, order), v, lists, false, op, v, lists)
  {}

  lemma FreeIsServed(text: Text, v: Phys, lists: seq<seq<nat>>, x: Block, v': Phys, lists': seq<seq<nat>>)
    requires SoundBy(text, v, lists) && CanFree(text, v, x) && BlockGiven(text, v, lists, x, v', lists')
    ensures SoundBy(text, v', lists') && |v'.pages| == |v.pages|
    ensures ServedAs(text, Free(x.head, x.order), v, lists, true, Last(x), v', lists')
  {
    hide SoundBy, RefStep, HeldOf, BlockGiven, CanFree;
    FreeIsLast(text, v, lists, x, v', lists');
  }

  lemma IdleIsStep(text: Text, h: Held, h': Held)
    ensures h' == h ==> RefStep(text, h, Idle, h')
  {}

  /** The step of a count that changes from d to count. */
  ghost function CountOp(d: seq<Ppage>, ppn: nat, count: nat): RefOp
    requires ppn < |d|
  {
    var x := Block(ppn, d[ppn].order);
    if !d[ppn].head then Idle else if count > d[ppn].count then More(x) else Less(x)
  }

  lemma CountIsStep(text: Text, v: Phys, lists: seq<seq<nat>>, ppn: nat, count: nat, v': Phys)
    requires SoundBy(text, v, lists) && ppn < |v.pages| && HeapOf(v'.pages) == HeapOf(v.pages)
    requires v' == v.(pages := v.pages[ppn := v.pages[ppn].(count := count)])
    requires v.pages[ppn].head ==> v.pages[ppn].count > 0 && count > 0
    requires v.pages[ppn].head ==> count == v.pages[ppn].count + 1 || count == v.pages[ppn].count - 1
    ensures RefStep(text, HeldOf(v.pages), CountOp(v.pages, ppn, count), HeldOf(v'.pages))
  {
    hide SoundBy, RefStep, HeldOf, HeapOf;
    RecountIsStep(text, v.pages, ppn, count, v'.pages);
    IdleIsStep(text, HeldOf(v.pages), HeldOf(v'.pages));
  }

  lemma RefIsStep(text: Text, v: Phys, lists: seq<seq<nat>>, ppn: nat)
    requires SoundBy(text, v, lists) && ppn < |v.pages| && Countable(v.pages[ppn])
    ensures ServedAs(text, Ref(ppn), v, lists, true, CountOp(v.pages, ppn, v.pages[ppn].count + 1), Referenced(v, ppn),
                     lists)
  {
    hide SoundBy, RefStep, HeldOf, HeapOf;
    RefKeeps(text, v, lists, ppn);
    if v.pages[ppn].head {
      CountIsStep(text, v, lists, ppn, v.pages[ppn].count + 1, Referenced(v, ppn));
    } else {
      CountIsStep(text, v, lists, ppn, Referenced(v, ppn).pages[ppn].count, Referenced(v, ppn));
    }
  }

  /** ppage_ref. */
  method ServeRef(a: PageAllocator, ppn: nat) returns (ok: bool, ghost op: RefOp)
    requires a.Sound()
    modifies a.dscrs
    ensures a.Sound() && ServedAs(a.text, Ref(ppn), old(a.View()), old(a.lists), ok, op, a.View(), a.lists)
  {
    hide SoundBy, RefStep, BuddyAlloc.Valid, WholeBlocks, HeldOf, Referenced;
    op := Idle;
    ok := ppn < a.dscrs.Length && Countable(a.dscrs[ppn]);
    if ok {
      op := CountOp(a.dscrs[..], ppn, a.dscrs[ppn].count + 1);
      RefIsStep(a.text, a.View(), a.lists, ppn);
      hide ServedAs;
      a.Ref(ppn);
    }
  }

  lemma UnrefIsStep(text: Text, v: Phys, lists: seq<seq<nat>>, ppn: nat)
    requires SoundBy(text, v, lists) && |v.heads| == LISTS && ppn < |v.pages| && v.pages[ppn].count > 1
    ensures Unreferenced(text, v, ppn).Done?
    ensures ServedAs(text, Unref(ppn), v, lists, true, CountOp(v.pages, ppn, v.pages[ppn].count - 1),
                     Unreferenced(text, v, ppn).v, lists)
  {
    hide SoundBy, RefStep, HeldOf, HeapOf;
    RecountKeeps(text, v, lists, ppn, v.pages[ppn].count - 1);
    CountIsStep(text, v, lists, ppn, v.pages[ppn].count - 1, Unreferenced(text, v, ppn).v);
  }

  /** ppage_unref of a page that is referenced more than once. */
  method ServeUnrefMany(a: PageAllocator, ppn: nat) returns (ghost op: RefOp)
    requires a.Sound() && ppn < a.dscrs.Length && a.dscrs[ppn].count > 1
    modifies a, a.dscrs, a.freeHeads, a.usedHeads
    ensures a.Sound() && ServedAs(a.text, Unref(ppn), old(a.View()), old(a.lists), true, op, a.View(), a.lists)
  {
    hide SoundBy, RefStep, BuddyAlloc.Valid, WholeBlocks, HeldOf, Unreferenced, FreeFollows;
    op := CountOp(a.dscrs[..], ppn, a.dscrs[ppn].count - 1);
    UnrefIsStep(a.text, a.View(), a.lists, ppn);
    assert a.View().pages[ppn].count > 1;
    var ok := a.Unref(ppn);
  }

  lemma LastUnrefIsFree(text: Text, v: Phys, lists: seq<seq<nat>>, ppn: nat, ok: bool, op: RefOp, v': Phys,
                        lists': seq<seq<nat>>)
    requires ppn < |v.pages| && v.pages[ppn].count == 1
    requires ServedAs(text, Free(ppn, v.pages[ppn].order), v, lists, ok, op, v', lists')
    ensures ServedAs(text, Unref(ppn), v, lists, ok, op, v', lists')
  {
    hide RefStep, FreeSet;
  }

  /** ppage_unref, which gives the block back with its last reference. */
  method ServeUnref(a: PageAllocator, ppn: nat) returns (ok: bool, ghost op: RefOp)
    requires a.Sound()
    modifies a, a.dscrs, a.freeHeads, a.usedHeads
    ensures a.Sound() && ServedAs(a.text, Unref(ppn), old(a.View()), old(a.lists), ok, op, a.View(), a.lists)
  {
    ghost var v, lists := a.View(), a.lists;
    hide SoundBy, RefStep, BuddyAlloc.Valid, WholeBlocks, HeldOf;
    ok, op := false, Idle;
    if ppn < a.dscrs.Length {
      if a.dscrs[ppn].count > 1 {
        op := ServeUnrefMany(a, ppn);
        ok := true;
      } else if a.dscrs[ppn].count == 1 {
        ok, op := ServeFree(a, ppn, a.dscrs[ppn].order);
        LastUnrefIsFree(a.text, v, lists, ppn, ok, op, a.View(), a.lists);
      }
    }
  }

  lemma LabelIsServed(text: Text, v: Phys, lists: seq<seq<nat>>, ppn: nat, n: nat, slab: nat, region: Option<nat>,
                      v': Phys)
    requires ppn < |v.pages| && 0 < ppn + n <= |v.pages| && slab != 0 && region == Some(n)
    requires SlabSet(v.pages, v'.pages, ppn, n, slab)
    requires FreeSet(v'.pages) == FreeSet(v.pages) && LiveSet(v'.pages) == LiveSet(v.pages)
    ensures ServedAs(text, Label(ppn, n, slab, region), v, lists, true, Idle, v', lists)
  {
    hide RefStep, HeldOf, FreeSet, LiveSet;
    SameHeld(v.pages, v'.pages);
    IdleIsStep(text, HeldOf(v.pages), HeldOf(v'.pages));
  }

  lemma LabelIsRefused(text: Text, v: Phys, lists: seq<seq<nat>>, ppn: nat, n: nat, slab: nat, region: Option<nat>,
                       op: RefOp)
    requires !(ppn < |v.pages| && 0 < ppn + n <= |v.pages| && slab != 0 && region == Some(n))
    ensures ServedAs(text, Label(ppn, n, slab, region), v, lists, false, op, v, lists)
  {}

  /** ppages_set_slab. */
  method ServeLabel(a: PageAllocator, ppn: nat, n: nat, slab: nat, region: Option<nat>)
      returns (ok: bool, ghost op: RefOp)
    requires a.Sound()
    modifies a.dscrs
    ensures a.Sound()
    ensures ServedAs(a.text, Label(ppn, n, slab, region), old(a.View()), old(a.lists), ok, op, a.View(), a.lists)
  {
    ghost var v, lists := a.View(), a.lists;
    hide SoundBy, BuddyAlloc.Valid, WholeBlocks, FreeSet, LiveSet, ServedAs, Served, SlabSet;
    op := Idle;
    ok := a.SetSlab(ppn, n, slab, region);
    if ok {
      LabelIsServed(a.text, v, lists, ppn, n, slab, region, a.View());
    } else {
      LabelIsRefused(a.text, v, lists, ppn, n, slab, region, op);
    }
  }

  /** One call; false when it halts the kernel, or goes wrong, which leaves everything as it was. */
  method ServeOne(a: PageAllocator, call: Call) returns (ok: bool, ghost op: RefOp)
    requires a.Sound()
    modifies a, a.dscrs, a.freeHeads, a.usedHeads
    ensures a.Sound() && ServedAs(a.text, call, old(a.View()), old(a.lists), ok, op, a.View(), a.lists)
  {
    hide PageAllocator.Sound, ServedAs;
    match call {
      case Alloc(order) => ok, op := ServeAlloc(a, order);
      case AllocPages(n) => ok, op := ServePages(a, n);
      case Free(ppn, order) => ok, op := ServeFree(a, ppn, order);
      case Ref(ppn) => ok, op := ServeRef(a, ppn);
      case Unref(ppn) => ok, op := ServeUnref(a, ppn);
      case Label(ppn, n, slab, region) => ok, op := ServeLabel(a, ppn, n, slab, region);
    }
  }

  // ----- whole runs -----

  /** The calls took the steps ops, one after the other. */
  ghost predicate AllAnswered(text: Text, calls: seq<Call>, d: seq<Ppage>, ops: seq<RefOp>, d': seq<Ppage>)
    requires |ops| <= |calls|
    decreases |ops|
  {
    if ops == [] then HeldOf(d') == HeldOf(d)
    else
      var n := |ops| - 1;
      exists m :: AllAnswered(text, calls, d, ops[..n], m) && Answers(calls[n], m, ops[n])
                  && RefStep(text, HeldOf(m), ops[n], HeldOf(d'))
  }

  lemma {:induction false} AnsweredIsRun(text: Text, calls: seq<Call>, d: seq<Ppage>, ops: seq<RefOp>, d': seq<Ppage>)
    requires |ops| <= |calls| && AllAnswered(text, calls, d, ops, d')
    ensures RefRun(text, HeldOf(d), ops, HeldOf(d'))
    decreases |ops|
  {
    hide RefStep, HeldOf, Answers;
    if ops != [] {
      var n := |ops| - 1;
      var m :| AllAnswered(text, calls, d, ops[..n], m) && Answers(calls[n], m, ops[n])
               && RefStep(text, HeldOf(m), ops[n], HeldOf(d'));
      AnsweredIsRun(text, calls, d, ops[..n], m);
    }
  }

  /** What a run of steps ops leaves behind, seen as blocks with references. */
  ghost predicate RunLeaves(text: Text, h: Held, ops: seq<RefOp>, h': Held) {
    && RefInv(text, h') && SamePages(h'.heap.free + h'.heap.live, h.heap.free + h.heap.live)
    && (text.Repaired? && SamePages(h.heap.live, h'.heap.live) ==> h'.heap.free == h.heap.free)
    && (NoLast(ops) ==> h.heap.live <= h'.heap.live && (Canonical(h.heap.free) ==> Canonical(h'.heap.free)))
    && (text.AsWritten? && NoSplit(ops) ==> h'.heap.free + h'.heap.live == h.heap.free + h.heap.live)
    && (forall x | x in h.refs && NotOutBefore(ops, x, h.refs[x]) :: Fate(h', x, h.refs[x] + Balance(ops, x)))
  }

  lemma RunFacts(text: Text, h: Held, ops: seq<RefOp>, h': Held)
    requires RefInv(text, h) && RefRun(text, h, ops, h')
    ensures RunLeaves(text, h, ops, h')
  {
    hide RefInv, RefRun, SamePages, Fate, NotOutBefore, Balance, NoLast, NoSplit, Canonical;
    RefRunKeeps(text, h, ops, h');
    if text.AsWritten? && NoSplit(ops) { BlocksNeverChange(h, ops, h'); }
    if text.Repaired? && SamePages(h.heap.live, h'.heap.live) { RefRunRestores(h, ops, h'); }
    if NoLast(ops) { HeldOnlyGrows(text, h, ops, h'); }
    forall x | x in h.refs && NotOutBefore(ops, x, h.refs[x]) ensures Fate(h', x, h.refs[x] + Balance(ops, x)) {
      HeldWhileReferenced(text, h, ops, h', x);
    }
  }

  lemma RunGrows(text: Text, calls: seq<Call>, d: seq<Ppage>, ops: seq<RefOp>, m: seq<Ppage>, op: RefOp, d': seq<Ppage>)
    requires |ops| < |calls| && AllAnswered(text, calls, d, ops, m)
    requires Answers(calls[|ops|], m, op) && RefStep(text, HeldOf(m), op, HeldOf(d'))
    ensures AllAnswered(text, calls, d, ops + [op], d')
  {
    hide RefStep, HeldOf, Answers;
    assert (ops + [op])[..|ops|] == ops;
  }

  lemma StartsSound(a: PageAllocator)
    requires a.Sound() && (a.text.Repaired? ==> Canonical(a.Free()))
    ensures RefInv(a.text, HeldOf(a.dscrs[..])) && AllAnswered(a.text, [], a.dscrs[..], [], a.dscrs[..])
  {
    HeldIsSound(a.text, a.View(), a.lists);
  }

  lemma NothingAnswered(text: Text, calls: seq<Call>, d: seq<Ppage>)
    ensures AllAnswered(text, calls, d, [], d)
  {}

  /** The order of the block a call asks for, and none for other calls. */
  function Asked(call: Call): Option<nat> {
    match call
    case Alloc(order) => Some(order)
    case AllocPages(n) => Some(OrderFor(n))
    case _ => None
  }

  /** In either text: as long as no two free blocks are buddies, a block that is asked for can
      be had exactly if there is an aligned run of so many free pages. */
  lemma ServedIffRun(text: Text, call: Call, v: Phys, lists: seq<seq<nat>>)
    requires SoundBy(text, v, lists) && Canonical(FreeSet(v.pages)) && Asked(call).Some?
    ensures Served(text, call, v, lists)
       <==> Asked(call).value < MAX_ORDER && !NoRun(FreeSet(v.pages), Asked(call).value)
  {
    hide SoundBy, LooseBy, FitOrder, NoRun, Canonical, OrderFor, Pow2;
    SoundFacts(text, v, lists);
    if call.AllocPages? { OrderHolds(call.n); }
    if Asked(call).value < MAX_ORDER { NoFitIffNoRun(v, lists, Asked(call).value); }
  }

  /** If the call asks for a block and no two free blocks are buddies, there is none to be had. */
  ghost predicate NoneLeft(call: Call, free: set<Block>) {
    Asked(call).Some? && Canonical(free) ==> Asked(call).value >= MAX_ORDER || NoRun(free, Asked(call).value)
  }

  /** Any calls in any order, up to the first that halts the kernel or is a free that goes
      wrong. In either text free and used blocks keep tiling memory, whether it splits or not;
      a block stays held exactly as long as references to it are left; as long as nothing is
      given back, and once repaired in any case, no two free blocks are buddies, and a block
      that is refused is not to be had; and once repaired, if in the end the same pages are
      held as in the beginning the free blocks are the same, too. */
  method Serve(a: PageAllocator, calls: seq<Call>) returns (done: nat, ghost ops: seq<RefOp>)
    requires a.Sound() && (a.text.Repaired? ==> Canonical(a.Free()))
    modifies a, a.dscrs, a.freeHeads, a.usedHeads
    ensures a.Sound() && |ops| == done <= |calls|
    ensures done < |calls| ==> !Served(a.text, calls[done], a.View(), a.lists) && NoneLeft(calls[done], a.Free())
    ensures AllAnswered(a.text, calls, old(a.dscrs[..]), ops, a.dscrs[..])
    ensures RunLeaves(a.text, old(HeldOf(a.dscrs[..])), ops, HeldOf(a.dscrs[..]))
  {
    hide AllAnswered, Answers, RefStep, RefInv, Served, HeldOf, SoundBy, FreeSet, Canonical, RunLeaves, RefRun,
         NoneLeft;
    done, ops := 0, [];
    ghost var d := a.dscrs[..];
    StartsSound(a);
    NothingAnswered(a.text, calls, d);
    while done < |calls|
      invariant |ops| == done <= |calls| && a.Sound() && AllAnswered(a.text, calls, d, ops, a.dscrs[..])
    {
      ghost var m := a.dscrs[..];
      var ok, op := ServeOne(a, calls[done]);
      if !ok {
        RefusedFor(a.text, calls[done], a.View(), a.lists);
        break;
      }
      RunGrows(a.text, calls, d, ops, m, op, a.dscrs[..]);
      done, ops := done + 1, ops + [op];
    }
    AnsweredIsRun(a.text, calls, d, ops, a.dscrs[..]);
    RunFacts(a.text, HeldOf(d), ops, HeldOf(a.dscrs[..]));
  }

  lemma RefusedFor(text: Text, call: Call, v: Phys, lists: seq<seq<nat>>)
    requires SoundBy(text, v, lists) && !Served(text, call, v, lists)
    ensures NoneLeft(call, FreeSet(v.pages))
  {
    hide SoundBy, NoRun, Canonical, OrderFor, Served;
    if Asked(call).Some? && Canonical(FreeSet(v.pages)) { ServedIffRun(text, call, v, lists); }
  }
}
