/** Whole runs of allocations and frees, in any order, on sets of blocks. */
module BuddyRuns {
  import opened Blocks
  import opened FreeBlocks

  /** The free blocks and the blocks somebody holds (at boot: the reserved ones). */
  datatype Heap = Heap(free: set<Block>, live: set<Block>)

  datatype Op = Take(order: nat, from: Block) | Give(block: Block)

  ghost predicate Tidy(h: Heap) {
    Packed(h.free + h.live) && h.free !! h.live
  }

  ghost predicate Inv(h: Heap) {
    Tidy(h) && Canonical(h.free)
  }

  ghost predicate Step(h: Heap, op: Op, h': Heap) {
    match op
    case Take(order, c) =>
      SmallestFit(h.free, order, c) &&
      h' == Heap(AfterAlloc(h.free, c, order), h.live + {Block(c.head, order)})
    case Give(x) =>
      x in h.live && h' == Heap(Coalesce(Repaired, h.free, x), h.live - {x})
  }

  ghost predicate Run(h: Heap, ops: seq<Op>, h': Heap)
    decreases |ops|
  {
    if ops == [] then h == h'
    else exists m :: Step(h, ops[0], m) && Run(m, ops[1..], h')
  }

  // ----- one step -----

  lemma PackedPart(bs: set<Block>, cs: set<Block>)
    requires Packed(bs) && cs <= bs
    ensures Packed(cs)
  {}

  lemma ApartSets(bs: set<Block>, cs: set<Block>)
    requires Packed(bs + cs) && bs !! cs
    ensures forall x, y | x in bs && y in cs :: x.Apart(y)
  {
    forall x, y | x in bs && y in cs ensures x.Apart(y) {
      assert x in bs + cs && y in bs + cs;
    }
  }

  /** Blocks with no page in common have no block in common. */
  lemma ApartMeansDisjoint(bs: set<Block>, cs: set<Block>)
    requires forall x, y | x in bs && y in cs :: x.Apart(y)
    ensures bs !! cs
  {
    forall x | x in bs ensures x !in cs { assert x.Covers(x.head); }
  }

  lemma NoSharedPage(bs: set<Block>, y: Block, p: int)
    requires ApartFrom(bs, y)
    ensures !(Holds(bs, p) && y.Covers(p))
  {}

  /** Something that stays within the pages of free stays apart from what was apart from free. */
  lemma StaysApart(free: set<Block>, after: set<Block>, y: Block)
    requires ApartFrom(free, y)
    requires forall p :: Holds(after, p) ==> Holds(free, p)
    ensures ApartFrom(after, y)
  {
    forall b | b in after ensures b.Apart(y) {
      var p := if b.head <= y.head then y.head else b.head;
      NoSharedPage(free, y, p);
      assert Holds(after, p) || !b.Covers(p);
    }
  }

  /** Allocation moves the pages it returns from the free to the live blocks. */
  lemma TakeKeeps(h: Heap, c: Block, order: nat, h': Heap)
    requires Tidy(h) && c in h.free && order <= c.order
    requires h' == Heap(AfterAlloc(h.free, c, order), h.live + {Block(c.head, order)})
    ensures Tidy(h') && SamePages(h'.free + h'.live, h.free + h.live)
    ensures Canonical(h.free) ==> Canonical(h'.free)
  {
    var got := Block(c.head, order);
    PackedPart(h.free + h.live, h.free);
    PackedPart(h.free + h.live, h.live);
    ApartSets(h.free, h.live);
    AllocKeepsPacked(h.free, c, order);
    if Canonical(h.free) { AllocKeepsCanonical(h.free, c, order); }
    forall p ensures Holds(h.free, p) <==> Holds(h'.free, p) || got.Covers(p) {
      AllocTakes(h.free, c, order, p);
    }
    forall y | y in h.live ensures ApartFrom(h'.free, y) && got.Apart(y) {
      StaysApart(h.free, h'.free, y);
      assert c.Apart(y);
    }
    PackedUnion(h.live, {got});
    PackedUnion(h'.free, h'.live);
    ApartMeansDisjoint(h'.free, h'.live);
    forall p ensures Holds(h'.free + h'.live, p) <==> Holds(h.free + h.live, p) {
      HoldsUnion(h'.free, h'.live, p);
      HoldsUnion(h.live, {got}, p);
      HoldsOne(got, p);
      HoldsUnion(h.free, h.live, p);
    }
  }

  /** Freeing moves the pages of x from the live to the free blocks, however the free
      blocks are redrawn. */
  lemma GiveKeeps(h: Heap, x: Block, h': Heap)
    requires Tidy(h) && x in h.live
    requires h'.live == h.live - {x} && Conserves(h.free, x, h'.free)
    ensures Tidy(h') && SamePages(h'.free + h'.live, h.free + h.live)
  {
    PackedPart(h.free + h.live, h'.live);
    ApartSets(h.free, h.live);
    assert x in h.free + h.live;
    forall y | y in h'.live ensures ApartFrom(h'.free, y) {
      assert y in h.free + h.live && ApartFrom(h.free + {x}, y);
      forall p ensures Holds(h'.free, p) ==> Holds(h.free + {x}, p) {
        HoldsUnion(h.free, {x}, p);
        HoldsOne(x, p);
      }
      StaysApart(h.free + {x}, h'.free, y);
    }
    PackedUnion(h'.free, h'.live);
    ApartMeansDisjoint(h'.free, h'.live);
    forall p ensures Holds(h'.free + h'.live, p) <==> Holds(h.free + h.live, p) {
      HoldsUnion(h'.free, h'.live, p);
      HoldsUnion(h'.live, {x}, p);
      HoldsOne(x, p);
      assert h'.live + {x} == h.live;
      HoldsUnion(h.free, h.live, p);
    }
  }

  lemma LiveApart(h: Heap, x: Block)
    requires Tidy(h) && x in h.live
    ensures Packed(h.free) && x.Aligned() && x.order < MAX_ORDER && ApartFrom(h.free, x)
  {
    PackedPart(h.free + h.live, h.free);
    ApartSets(h.free, h.live);
    assert x in h.free + h.live;
  }

  lemma StepKeeps(h: Heap, op: Op, h': Heap)
    requires Inv(h) && Step(h, op, h')
    ensures Inv(h') && SamePages(h'.free + h'.live, h.free + h.live)
  {
    match op {
      case Take(order, c) => TakeKeeps(h, c, order, h');
      case Give(x) =>
        LiveApart(h, x);
        CoalesceKeeps(h.free, x);
        GiveKeeps(h, x, h');
    }
  }

  // ----- whole runs -----

  /** Every run keeps the blocks packed, the free ones canonical, and loses no page. */
  lemma {:induction false} RunKeeps(h: Heap, ops: seq<Op>, h': Heap)
    requires Inv(h) && Run(h, ops, h')
    ensures Inv(h') && SamePages(h'.free + h'.live, h.free + h.live)
    decreases |ops|
  {
    if ops != [] {
      var m :| Step(h, ops[0], m) && Run(m, ops[1..], h');
      StepKeeps(h, ops[0], m);
      RunKeeps(m, ops[1..], h');
    }
  }

  lemma FreePages(h: Heap, p: int)
    requires Inv(h)
    ensures Holds(h.free, p) <==> Holds(h.free + h.live, p) && !Holds(h.live, p)
  {
    HoldsUnion(h.free, h.live, p);
    ApartSets(h.free, h.live);
  }

  /** The free blocks depend only on which pages are held, never on how that came about:
      any run after which the same pages are held, whatever it allocated and in whatever
      order it gave blocks back, ends with exactly the free blocks it started with. */
  lemma BalancedRunRestores(h: Heap, ops: seq<Op>, h': Heap)
    requires Inv(h) && Run(h, ops, h') && SamePages(h.live, h'.live)
    ensures h'.free == h.free
  {
    RunKeeps(h, ops, h');
    forall p ensures Holds(h.free, p) <==> Holds(h'.free, p) {
      FreePages(h, p);
      FreePages(h', p);
    }
    PackedPart(h.free + h.live, h.free);
    PackedPart(h'.free + h'.live, h'.free);
    CanonicalFormIsUnique(h.free, h'.free);
  }

  /** After any run an allocation fails exactly when no aligned run of free pages is left. */
  lemma RunThenAllocFailsIffNoRun(h: Heap, ops: seq<Op>, h': Heap, order: nat)
    requires Inv(h) && Run(h, ops, h') && order < MAX_ORDER
    ensures (forall c, h'' :: !Step(h', Take(order, c), h'')) <==>
            (forall x: Block | x.Aligned() && x.order == order :: !HoldsAll(h'.free, x))
  {
    RunKeeps(h, ops, h');
    PackedPart(h'.free + h'.live, h'.free);
    AllocFailsIffNoRun(h'.free, order);
    if c :| SmallestFit(h'.free, order, c) {
      var h'' := Heap(AfterAlloc(h'.free, c, order), h'.live + {Block(c.head, order)});
      assert Step(h', Take(order, c), h'');
    }
  }
}
