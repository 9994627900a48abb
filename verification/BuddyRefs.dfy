/** Reference counts on top of the blocks of BuddyRuns (src/kernel/mm/physical_pages.c:45-104),
    for the text as written and repaired. */
module BuddyRefs {
  import opened Blocks
  import opened FreeBlocks
  import opened BuddyRuns

  /** The blocks, and the references to each block that is held. */
  datatype Held = Held(heap: Heap, refs: map<Block, nat>)

  /** A block is allocated, referenced once more or once less, or loses its last reference
      and is free again; or nothing happens. */
  datatype RefOp = Get(order: nat, from: Block) | More(x: Block) | Less(x: Block) | Last(x: Block) | Idle

  /** One step. As written only those steps count that do not merge. */
  ghost predicate RefStep(text: Text, h: Held, op: RefOp, h': Held) {
    match op
    case Get(order, c) =>
      && SmallestFit(h.heap.free, order, c)
      && h'.heap == Heap(AfterAlloc(h.heap.free, c, order), h.heap.live + {Block(c.head, order)})
      && h'.refs == h.refs[Block(c.head, order) := 1]
    case More(x) =>
      x in h.refs && h' == h.(refs := h.refs[x := h.refs[x] + 1])
    case Less(x) =>
      x in h.refs && h.refs[x] > 1 && h' == h.(refs := h.refs[x := h.refs[x] - 1])
    case Last(x) =>
      && x in h.refs && h.refs[x] == 1 && (text.AsWritten? ==> !Merges(text, h.heap.free, x))
      && h' == Held(Heap(Coalesce(text, h.heap.free, x), h.heap.live - {x}), h.refs - {x})
    case Idle => h' == h
  }

  ghost predicate RefRun(text: Text, h: Held, ops: seq<RefOp>, h': Held)
    decreases |ops|
  {
    if ops == [] then h == h'
    else
      var init, last := ops[..|ops| - 1], ops[|ops| - 1];
      exists m :: RefRun(text, h, init, m) && RefStep(text, m, last, h')
  }

  /** Blocks are disjoint, the held ones are those with references, and once repaired the
      free ones are canonical. */
  ghost predicate RefInv(text: Text, h: Held) {
    && Tidy(h.heap) && h.refs.Keys == h.heap.live && (forall x | x in h.refs :: h.refs[x] >= 1)
    && (text.Repaired? ==> Canonical(h.heap.free))
  }

  lemma GiveConserves(text: Text, h: Heap, x: Block)
    requires Tidy(h) && x in h.live && (text.AsWritten? ==> !Merges(text, h.free, x))
    ensures Conserves(h.free, x, Coalesce(text, h.free, x))
    ensures text.Repaired? && Canonical(h.free) ==> Canonical(Coalesce(text, h.free, x))
  {
    LiveApart(h, x);
    if text.Repaired? { CoalesceKeeps(h.free, x); } else { AddedWithoutMerge(h.free, x); }
  }

  lemma NewIsNotHeld(h: Heap, c: Block, order: nat, x: Block)
    requires Tidy(h) && c in h.free && x in h.live
    ensures x.head != c.head
  {
    ApartSets(h.free, h.live);
    assert c.Covers(c.head) && x.Covers(x.head);
  }

  lemma GetKeeps(text: Text, h: Held, order: nat, c: Block, h': Held)
    requires RefInv(text, h) && RefStep(text, h, Get(order, c), h')
    ensures RefInv(text, h') && SamePages(h'.heap.free + h'.heap.live, h.heap.free + h.heap.live)
    ensures Canonical(h.heap.free) ==> Canonical(h'.heap.free)
  {
    hide Tidy, Canonical, SamePages, AfterAlloc;
    TakeKeeps(h.heap, c, order, h'.heap);
  }

  lemma LastKeeps(text: Text, h: Held, x: Block, h': Held)
    requires RefInv(text, h) && RefStep(text, h, Last(x), h')
    ensures RefInv(text, h') && SamePages(h'.heap.free + h'.heap.live, h.heap.free + h.heap.live)
  {
    hide Tidy, Canonical, Coalesce, Conserves, SamePages;
    GiveConserves(text, h.heap, x);
    GiveKeeps(h.heap, x, h'.heap);
  }

  lemma RefStepKeeps(text: Text, h: Held, op: RefOp, h': Held)
    requires RefInv(text, h) && RefStep(text, h, op, h')
    ensures RefInv(text, h') && SamePages(h'.heap.free + h'.heap.live, h.heap.free + h.heap.live)
  {
    match op {
      case Get(order, c) => GetKeeps(text, h, order, c, h');
      case Last(x) => LastKeeps(text, h, x, h');
      case _ =>
    }
  }

  /** Every run keeps the invariant and loses no page. */
  lemma {:induction false} RefRunKeeps(text: Text, h: Held, ops: seq<RefOp>, h': Held)
    requires RefInv(text, h) && RefRun(text, h, ops, h')
    ensures RefInv(text, h') && SamePages(h'.heap.free + h'.heap.live, h.heap.free + h.heap.live)
    decreases |ops|
  {
    if ops != [] {
      var init, last := ops[..|ops| - 1], ops[|ops| - 1];
      var m :| RefRun(text, h, init, m) && RefStep(text, m, last, h');
      hide RefStep, RefInv;
      RefRunKeeps(text, h, init, m);
      RefStepKeeps(text, m, last, h');
    }
  }

  // ----- a block lives as long as its references -----

  /** References gained, less references lost. */
  function Balance(ops: seq<RefOp>, x: Block): int {
    if ops == [] then 0
    else
      Balance(ops[..|ops| - 1], x)
      + (match ops[|ops| - 1]
         case More(y) => if y == x then 1 else 0
         case Less(y) => if y == x then -1 else 0
         case Last(y) => if y == x then -1 else 0
         case _ => 0)
  }

  /** What became of a block with some references left. */
  ghost predicate Fate(h: Held, x: Block, left: int) {
    && left >= 0
    && if left > 0 then x in h.refs && h.refs[x] == left
       else x !in h.heap.live && HoldsAll(h.heap.free, x)
  }

  lemma OneStepFate(text: Text, h: Held, op: RefOp, h': Held, x: Block)
    requires RefInv(text, h) && RefStep(text, h, op, h') && x in h.refs
    ensures Fate(h', x, h.refs[x] + Balance([op], x))
  {
    assert [op][..0] == [] && Balance([], x) == 0;
    match op {
      case Get(order, c) => NewIsNotHeld(h.heap, c, order, x);
      case Last(y) =>
        if y == x { GiveConserves(text, h.heap, x); }
      case _ =>
    }
  }

  lemma BalanceAdds(ops: seq<RefOp>, x: Block)
    requires ops != []
    ensures Balance(ops, x) == Balance(ops[..|ops| - 1], x) + Balance([ops[|ops| - 1]], x)
  {
    assert [ops[|ops| - 1]][..0] == [] && Balance([], x) == 0;
  }

  /** The references of x, of which there were r, have not run out before the last of ops. */
  ghost predicate NotOutBefore(ops: seq<RefOp>, x: Block, r: nat) {
    forall k | 0 <= k < |ops| :: r + Balance(ops[..k], x) > 0
  }

  lemma NotOutEarlier(ops: seq<RefOp>, x: Block, r: nat)
    requires NotOutBefore(ops, x, r) && ops != []
    ensures NotOutBefore(ops[..|ops| - 1], x, r) && r + Balance(ops[..|ops| - 1], x) > 0
  {
    var init := ops[..|ops| - 1];
    forall k | 0 <= k < |init| ensures r + Balance(init[..k], x) > 0 { assert init[..k] == ops[..k]; }
  }

  /** Whatever happens in between: as long as its references have not run out, a block stays
      held and counts them; when they do, it is free. */
  lemma {:induction false} HeldWhileReferenced(text: Text, h: Held, ops: seq<RefOp>, h': Held, x: Block)
    requires RefInv(text, h) && RefRun(text, h, ops, h') && x in h.refs && NotOutBefore(ops, x, h.refs[x])
    ensures Fate(h', x, h.refs[x] + Balance(ops, x))
    decreases |ops|
  {
    if ops != [] {
      var init, last := ops[..|ops| - 1], ops[|ops| - 1];
      var m :| RefRun(text, h, init, m) && RefStep(text, m, last, h');
      hide RefStep, RefInv, NotOutBefore, Balance, RefRun;
      NotOutEarlier(ops, x, h.refs[x]);
      RefRunKeeps(text, h, init, m);
      HeldWhileReferenced(text, h, init, m, x);
      BalanceAdds(ops, x);
      OneStepFate(text, m, last, h', x);
    } else {
      assert h.refs[x] >= 1;
    }
  }

  // ----- balanced runs -----

  /** Once repaired: after any run in the end of which the same pages are held, the free
      blocks are the same. */
  lemma RefRunRestores(h: Held, ops: seq<RefOp>, h': Held)
    requires RefInv(Repaired, h) && RefRun(Repaired, h, ops, h') && SamePages(h.heap.live, h'.heap.live)
    ensures h'.heap.free == h.heap.free
  {
    RefRunKeeps(Repaired, h, ops, h');
    forall p ensures Holds(h.heap.free, p) <==> Holds(h'.heap.free, p) {
      FreePages(h.heap, p);
      FreePages(h'.heap, p);
    }
    PackedPart(h.heap.free + h.heap.live, h.heap.free);
    PackedPart(h'.heap.free + h'.heap.live, h'.heap.free);
    CanonicalFormIsUnique(h.heap.free, h'.heap.free);
  }

  // ----- runs that give nothing back, or split nothing -----

  ghost predicate NoLast(ops: seq<RefOp>) {
    forall op | op in ops :: !op.Last?
  }

  ghost predicate NoSplit(ops: seq<RefOp>) {
    forall op | op in ops && op.Get? :: op.from.order == op.order
  }

  lemma NothingGivenBack(text: Text, h: Held, op: RefOp, h': Held)
    requires RefInv(text, h) && RefStep(text, h, op, h') && !op.Last?
    ensures h.heap.live <= h'.heap.live && (Canonical(h.heap.free) ==> Canonical(h'.heap.free))
  {
    if op.Get? { GetKeeps(text, h, op.order, op.from, h'); }
  }

  /** In either text: a run that gives no block back keeps every block that was held, and
      leaves no two free buddies. */
  lemma {:induction false} HeldOnlyGrows(text: Text, h: Held, ops: seq<RefOp>, h': Held)
    requires RefInv(text, h) && RefRun(text, h, ops, h') && NoLast(ops)
    ensures h.heap.live <= h'.heap.live && (Canonical(h.heap.free) ==> Canonical(h'.heap.free))
    decreases |ops|
  {
    if ops != [] {
      var init, last := ops[..|ops| - 1], ops[|ops| - 1];
      var m :| RefRun(text, h, init, m) && RefStep(text, m, last, h');
      hide RefStep, RefInv, Canonical;
      RefRunKeeps(text, h, init, m);
      HeldOnlyGrows(text, h, init, m);
      NothingGivenBack(text, m, last, h');
    }
  }

  /** As written: as long as nothing splits and nothing merges, blocks only change hands. */
  lemma {:induction false} BlocksNeverChange(h: Held, ops: seq<RefOp>, h': Held)
    requires RefInv(AsWritten, h) && RefRun(AsWritten, h, ops, h') && NoSplit(ops)
    ensures h'.heap.free + h'.heap.live == h.heap.free + h.heap.live
    decreases |ops|
  {
    if ops != [] {
      var init, last := ops[..|ops| - 1], ops[|ops| - 1];
      var m :| RefRun(AsWritten, h, init, m) && RefStep(AsWritten, m, last, h');
      hide RefStep, RefInv;
      RefRunKeeps(AsWritten, h, init, m);
      BlocksNeverChange(h, init, m);
      BlocksStay(m, last, h');
    }
  }

  lemma BlocksStay(h: Held, op: RefOp, h': Held)
    requires RefInv(AsWritten, h) && RefStep(AsWritten, h, op, h') && (op.Get? ==> op.from.order == op.order)
    ensures h'.heap.free + h'.heap.live == h.heap.free + h.heap.live
  {
    match op {
      case Get(order, c) => assert Offcuts(c, order) == {} && Block(c.head, order) == c;
      case Last(x) => assert Coalesce(AsWritten, h.heap.free, x) == h.heap.free + {x};
      case _ =>
    }
  }
}
