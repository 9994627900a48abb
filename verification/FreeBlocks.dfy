/** What the buddy allocator does to the set of free blocks, seen without its lists
    and descriptors (src/kernel/mm/physical_pages.c). */
module FreeBlocks {
  import opened Blocks

  // ----- sets of blocks -----

  /** Every block is aligned and of an existing order, and no two share a page. */
  ghost predicate Packed(bs: set<Block>) {
    && (forall b | b in bs :: b.Aligned() && b.order < MAX_ORDER)
    && (forall x, y | x in bs && y in bs && x != y :: x.Apart(y))
  }

  ghost predicate Holds(bs: set<Block>, p: int) {
    exists b | b in bs :: b.Covers(p)
  }

  ghost predicate SamePages(bs: set<Block>, cs: set<Block>) {
    forall p :: Holds(bs, p) <==> Holds(cs, p)
  }

  ghost predicate HoldsAll(bs: set<Block>, x: Block) {
    forall p | x.Covers(p) :: Holds(bs, p)
  }

  /** No two buddies below the largest order are both there: nothing is left to merge. */
  ghost predicate Canonical(bs: set<Block>) {
    forall b | b in bs && b.order < MAX_ORDER - 1 :: b.Buddy() !in bs
  }

  /** The n pages from ppn on were not held before and are held now; no held page is lost. */
  ghost predicate NewFrames(live: set<Block>, live': set<Block>, ppn: nat, n: nat) {
    && (forall p :: Holds(live, p) ==> Holds(live', p))
    && (forall p | ppn <= p < ppn + n :: !Holds(live, p) && Holds(live', p))
  }

  lemma OverlapExcludes(bs: set<Block>, x: Block, y: Block)
    requires Packed(bs) && x in bs && x != y && !x.Apart(y)
    ensures y !in bs
  {}

  lemma SameExtent(x: Block, y: Block)
    requires x.Inside(y) && y.Inside(x)
    ensures x == y
  {
    if x.order < y.order { Pow2Grows(x.order, y.order); }
    if y.order < x.order { Pow2Grows(y.order, x.order); }
  }

  /** The two halves of a block. */
  lemma Halves(x: Block)
    requires x.Aligned() && x.order > 0
    ensures var l := Block(x.head, x.order - 1);
            && l.Aligned() && l.Buddy().Aligned() && l.Buddy().Buddy() == l && l.Buddy().order == l.order
            && l.Inside(x) && l.Buddy().Inside(x)
  {
    AlignedBelow(x.head, x.order - 1, x.order);
    BuddyFacts(Block(x.head, x.order - 1));
    assert Pow2(x.order) == 2 * Pow2(x.order - 1);
    hide Pow2;
  }

  /** A block that shares a half with x and is no smaller contains x. */
  lemma AroundHalf(x: Block, half: Block, b: Block)
    requires x.Aligned() && b.Aligned() && half.Inside(x) && half.Inside(b) && x.order <= b.order
    ensures x.Inside(b)
  {
    NestedOrApart(x, b);
  }

  lemma InsideIsHeld(bs: set<Block>, x: Block, half: Block)
    requires HoldsAll(bs, x) && half.Inside(x)
    ensures HoldsAll(bs, half)
  {
    forall p | half.Covers(p) ensures Holds(bs, p) { assert x.Covers(p); }
  }

  /** In canonical form an aligned run of free pages never straddles two blocks. */
  lemma {:induction false} RunLiesInOneBlock(bs: set<Block>, x: Block) returns (b: Block)
    requires Packed(bs) && Canonical(bs)
    requires x.Aligned() && x.order < MAX_ORDER && HoldsAll(bs, x)
    ensures b in bs && x.Inside(b) && x.order <= b.order
    decreases x.order
  {
    if x.order == 0 {
      assert x.Covers(x.head);
      b :| b in bs && b.Covers(x.head);
    } else {
      var l := Block(x.head, x.order - 1);
      var r := l.Buddy();
      Halves(x);
      hide Block.Aligned, Block.Inside, Block.Buddy;
      InsideIsHeld(bs, x, l);
      InsideIsHeld(bs, x, r);
      var bl := RunLiesInOneBlock(bs, l);
      var br := RunLiesInOneBlock(bs, r);
      if bl.order >= x.order {
        AroundHalf(x, l, bl);
        b := bl;
      } else if br.order >= x.order {
        AroundHalf(x, r, br);
        b := br;
      } else {
        SameSize(l, bl);
        SameSize(r, br);
        assert false;
      }
    }
  }

  lemma SameSize(x: Block, y: Block)
    requires x.Inside(y) && x.order == y.order
    ensures x == y
  {}

  /** A set of free pages has only one canonical division into blocks. */
  lemma CanonicalFormIsUnique(bs: set<Block>, cs: set<Block>)
    requires Packed(bs) && Canonical(bs) && Packed(cs) && Canonical(cs)
    requires SamePages(bs, cs)
    ensures bs == cs
  {
    forall x ensures x in bs <==> x in cs {
      if x in bs { UniqueOneWay(bs, cs, x); }
      if x in cs { UniqueOneWay(cs, bs, x); }
    }
  }

  lemma UniqueOneWay(bs: set<Block>, cs: set<Block>, x: Block)
    requires Packed(bs) && Canonical(bs) && Packed(cs) && Canonical(cs)
    requires SamePages(bs, cs) && x in bs
    ensures x in cs
  {
    var y := RunLiesInOneBlock(cs, x);
    assert HoldsAll(bs, y) by { forall p | y.Covers(p) ensures Holds(bs, p) { assert Holds(cs, p); } }
    var z := RunLiesInOneBlock(bs, y);
    assert x == z;
    SameExtent(x, y);
  }

  // ----- allocation -----

  /** The block an allocation of the given order takes: one of the smallest that is big enough. */
  ghost predicate SmallestFit(free: set<Block>, order: nat, c: Block) {
    && c in free && order <= c.order
    && forall b | b in free && order <= b.order :: c.order <= b.order
  }

  /** The upper halves split off while a block is cut down to the given order. */
  function Offcuts(c: Block, order: nat): set<Block> {
    set i | order <= i < c.order :: Block(c.head + Pow2(i), i)
  }

  function AfterAlloc(free: set<Block>, c: Block, order: nat): set<Block> {
    free - {c} + Offcuts(c, order)
  }

  function Offcut(c: Block, i: nat): Block { Block(c.head + Pow2(i), i) }

  lemma OffcutFacts(c: Block, i: nat)
    requires c.Aligned() && i < c.order
    ensures Block(c.head, i).Aligned() && Offcut(c, i).Aligned()
    ensures Offcut(c, i) == Block(c.head, i).Buddy() && Offcut(c, i).Buddy() == Block(c.head, i)
    ensures Offcut(c, i).Inside(c) && Block(c.head, i).Inside(c)
  {
    AlignedBelow(c.head, i, c.order);
    AlignedBelow(c.head, i + 1, c.order);
    BuddyFacts(Block(c.head, i));
    Pow2Grows(i, c.order);
  }

  lemma {:induction false} OffcutAround(c: Block, order: nat, p: nat) returns (i: nat)
    requires order <= c.order && c.Covers(p) && !Block(c.head, order).Covers(p)
    ensures order <= i < c.order && Offcut(c, i).Covers(p)
    decreases c.order
  {
    i := c.order - 1;
    if p < c.head + Pow2(i) {
      i := OffcutAround(Block(c.head, i), order, p);
    }
  }

  lemma OffcutsInside(c: Block, order: nat)
    requires c.Aligned() && order <= c.order
    ensures forall b | b in Offcuts(c, order) :: b.Aligned() && b.Inside(c) && b.Apart(Block(c.head, order))
    ensures Block(c.head, order).Aligned() && Block(c.head, order).Inside(c)
  {
    forall b | b in Offcuts(c, order)
      ensures b.Aligned() && b.Inside(c) && b.Apart(Block(c.head, order))
    {
      OffcutFacts(c, b.order);
      Pow2Grows(order, b.order);
    }
    AlignedBelow(c.head, order, c.order);
    Pow2Grows(order, c.order);
  }

  lemma OffcutsPacked(c: Block, order: nat)
    requires c.Aligned() && c.order < MAX_ORDER && order <= c.order
    ensures Packed(Offcuts(c, order))
  {
    OffcutsInside(c, order);
    forall x, y | x in Offcuts(c, order) && y in Offcuts(c, order) && x != y ensures x.Apart(y) {
      if x.order < y.order { Pow2Grows(x.order, y.order); } else { Pow2Grows(y.order, x.order); }
    }
  }

  /** Cutting a block down leaves the block of the wanted order and one block of each
      order in between, which together make up the original. */
  lemma OffcutsMakeUp(c: Block, order: nat, p: int)
    requires c.Aligned() && order <= c.order
    ensures c.Covers(p) <==> Holds(Offcuts(c, order), p) || Block(c.head, order).Covers(p)
  {
    OffcutsInside(c, order);
    if c.Covers(p) && !Block(c.head, order).Covers(p) {
      var i := OffcutAround(c, order, p);
      assert Offcut(c, i) in Offcuts(c, order);
    }
  }

  lemma HoldsUnion(bs: set<Block>, cs: set<Block>, p: int)
    ensures Holds(bs + cs, p) <==> Holds(bs, p) || Holds(cs, p)
  {
    if b :| b in bs && b.Covers(p) { assert b in bs + cs; }
    if b :| b in cs && b.Covers(p) { assert b in bs + cs; }
  }

  lemma HoldsOne(c: Block, p: int)
    ensures Holds({c}, p) <==> c.Covers(p)
  {
    if c.Covers(p) { assert c in {c}; }
  }

  lemma PackedUnion(bs: set<Block>, cs: set<Block>)
    requires Packed(bs) && Packed(cs)
    requires forall x, y | x in bs && y in cs :: x.Apart(y)
    ensures Packed(bs + cs)
  {
    forall x, y | x in bs + cs && y in bs + cs && x != y ensures x.Apart(y) {
      if x in bs && y in cs { assert x.Apart(y); }
      if y in bs && x in cs { assert y.Apart(x); }
    }
  }

  /** Allocation takes exactly the pages of the block it returns. */
  lemma AllocTakes(free: set<Block>, c: Block, order: nat, p: int)
    requires Packed(free) && c in free && order <= c.order
    ensures Holds(free, p) <==> Holds(AfterAlloc(free, c, order), p) || Block(c.head, order).Covers(p)
  {
    OffcutsMakeUp(c, order, p);
    HoldsUnion(free - {c}, Offcuts(c, order), p);
    HoldsUnion(free - {c}, {c}, p);
    HoldsOne(c, p);
    assert free == free - {c} + {c};
  }

  /** What an allocation leaves is packed, and apart from the block it returns. */
  lemma AllocKeepsPacked(free: set<Block>, c: Block, order: nat)
    requires Packed(free) && c in free && order <= c.order
    ensures Packed(AfterAlloc(free, c, order))
    ensures Block(c.head, order).Aligned() && Block(c.head, order).Inside(c)
    ensures forall b | b in AfterAlloc(free, c, order) :: b.Apart(Block(c.head, order))
  {
    OffcutsInside(c, order);
    OffcutsPacked(c, order);
    var rest, cuts := free - {c}, Offcuts(c, order);
    forall x | x in rest ensures x.Apart(c) && x.Apart(Block(c.head, order)) {}
    forall x, y | x in rest && y in cuts ensures x.Apart(y) {
      assert x.Apart(c) && y.Inside(c);
    }
    PackedUnion(rest, cuts);
  }

  lemma AllocKeepsCanonical(free: set<Block>, c: Block, order: nat)
    requires Packed(free) && Canonical(free) && c in free && order <= c.order
    ensures Canonical(AfterAlloc(free, c, order))
  {
    forall b | b in AfterAlloc(free, c, order) && b.order < MAX_ORDER - 1
      ensures b.Buddy() !in AfterAlloc(free, c, order)
    {
      if b in Offcuts(c, order) {
        OffcutBuddyIsGone(free, c, order, b);
      } else if b.Buddy() in Offcuts(c, order) {
        BuddyFacts(b);
        OffcutBuddyIsGone(free, c, order, b.Buddy());
      }
    }
  }

  /** The blocks that are new after an allocation are one of each order from the wanted one
      up to, not including, the one that was taken. */
  lemma OneNewBlockPerOrder(free: set<Block>, c: Block, order: nat, b: Block)
    requires Packed(free) && c in free && order <= c.order
    ensures b in AfterAlloc(free, c, order) && b !in free
            <==> order <= b.order < c.order && b.head == c.head + Pow2(b.order)
  {
    if order <= b.order < c.order && b.head == c.head + Pow2(b.order) {
      assert b == Offcut(c, b.order) && b in Offcuts(c, order);
      OffcutFacts(c, b.order);
      SmallerIsOther(c, b);
      OverlapExcludes(free, c, b);
    }
  }

  lemma SmallerIsOther(c: Block, b: Block)
    requires b.order < c.order && b.Inside(c)
    ensures b != c && !c.Apart(b)
  {}

  lemma OffcutBuddyIsGone(free: set<Block>, c: Block, order: nat, b: Block)
    requires Packed(free) && c in free && order <= c.order
    requires b in Offcuts(c, order)
    ensures b.Buddy() !in AfterAlloc(free, c, order)
  {
    OffcutFacts(c, b.order);
    var l := Block(c.head, b.order);
    assert b.Buddy() == l && !l.Apart(c);
  }

  /** Allocation fails exactly when no aligned run of free pages is long enough: the
      lists, which know only blocks, answer a question about pages. */
  lemma AllocFailsIffNoRun(free: set<Block>, order: nat)
    requires Packed(free) && Canonical(free) && order < MAX_ORDER
    ensures (exists c :: SmallestFit(free, order, c)) <==>
            (exists x: Block :: x.Aligned() && x.order == order && HoldsAll(free, x))
  {
    if x: Block :| x.Aligned() && x.order == order && HoldsAll(free, x) {
      var b := RunLiesInOneBlock(free, x);
      var c := LeastOf(free, order, b);
    }
    if c :| SmallestFit(free, order, c) {
      var x := Block(c.head, order);
      AlignedBelow(c.head, order, c.order);
      Pow2Grows(order, c.order);
      assert HoldsAll(free, x) by {
        forall p | x.Covers(p) ensures Holds(free, p) { assert c.Covers(p); }
      }
    }
  }

  lemma {:induction false} LeastOf(free: set<Block>, order: nat, b: Block) returns (c: Block)
    requires b in free && order <= b.order
    ensures SmallestFit(free, order, c) && c.order <= b.order
    decreases b.order
  {
    if b' :| b' in free && order <= b'.order < b.order {
      c := LeastOf(free, order, b');
    } else {
      c := b;
    }
  }

  // ----- freeing -----

  /** The program text. AsWritten follows the source to the letter; Repaired has the
      two corrections its comments and its own merge code call for:
      find_buddy flips the order bit instead of masking it (physical_pages.h:55-56), and
      a block that is split leaves the used list of its old order (physical_pages.c:314). */
  datatype Text = AsWritten | Repaired

  /** find_buddy(head, order). */
  function FindBuddy(text: Text, x: Block): Block {
    Block(if text.Repaired? then Xor(x.head, Pow2(x.order)) else And(x.head, Pow2(x.order)), x.order)
  }

  /** The block a merge step makes of x and the block find_buddy named. */
  function Merged(text: Text, x: Block): Block {
    Block(And(x.head, FindBuddy(text, x).head), x.order + 1)
  }

  /** Whether a merge step is taken. The block being freed already counts as free. */
  predicate Merges(text: Text, free: set<Block>, x: Block) {
    x.order < MAX_ORDER - 1 && FindBuddy(text, x) in free + {x}
  }

  /** The free blocks once x has been given back and merged as far as possible. */
  function Coalesce(text: Text, free: set<Block>, x: Block): set<Block>
    decreases MAX_ORDER - x.order
  {
    if Merges(text, free, x) then Coalesce(text, free - {FindBuddy(text, x)}, Merged(text, x))
    else free + {x}
  }

  ghost predicate ApartFrom(bs: set<Block>, x: Block) {
    forall b | b in bs :: b.Apart(x)
  }

  /** Nothing is lost, nothing is invented and nothing overlaps when x is added to free. */
  ghost predicate Conserves(free: set<Block>, x: Block, after: set<Block>) {
    Packed(after) && forall p :: Holds(after, p) <==> Holds(free, p) || x.Covers(p)
  }

  lemma RepairedStep(x: Block)
    requires x.Aligned()
    ensures FindBuddy(Repaired, x) == x.Buddy() && Merged(Repaired, x) == x.Parent()
  {
    XorNamesBuddy(x);
    AndNamesParent(x);
    BuddyFacts(x);
  }

  lemma PackedAdd(free: set<Block>, x: Block)
    requires Packed(free) && x.Aligned() && x.order < MAX_ORDER && ApartFrom(free, x)
    ensures Packed(free + {x})
  {
    PackedUnion(free, {x});
  }

  lemma BuddyRemoved(free: set<Block>, x: Block, p: int)
    requires x.Aligned() && x.Buddy() in free
    ensures Holds(free - {x.Buddy()}, p) || x.Parent().Covers(p) <==> Holds(free, p) || x.Covers(p)
  {
    BuddyFacts(x);
    HoldsUnion(free - {x.Buddy()}, {x.Buddy()}, p);
    HoldsOne(x.Buddy(), p);
    assert free == free - {x.Buddy()} + {x.Buddy()};
  }

  lemma ParentApart(free: set<Block>, x: Block)
    requires Packed(free) && x.Aligned() && x.Buddy() in free && ApartFrom(free, x)
    ensures x.Parent().Aligned() && ApartFrom(free - {x.Buddy()}, x.Parent())
  {
    BuddyFacts(x);
    forall b | b in free - {x.Buddy()} ensures b.Apart(x.Parent()) {
      assert b.Apart(x) && b.Apart(x.Buddy());
      ApartFromHalves(b, x);
    }
  }

  lemma ApartFromHalves(b: Block, x: Block)
    requires x.Aligned() && b.Apart(x) && b.Apart(x.Buddy())
    ensures b.Apart(x.Parent())
  {
    BuddyFacts(x);
  }

  /** Freeing gives back exactly the pages of x and restores canonical form. */
  lemma {:induction false} CoalesceKeeps(free: set<Block>, x: Block)
    requires Packed(free)
    requires x.Aligned() && x.order < MAX_ORDER && ApartFrom(free, x)
    ensures Conserves(free, x, Coalesce(Repaired, free, x))
    ensures Canonical(free) ==> Canonical(Coalesce(Repaired, free, x))
    decreases MAX_ORDER - x.order
  {
    RepairedStep(x);
    if Merges(Repaired, free, x) {
      BuddyFacts(x);
      assert x.Buddy() in free;
      var rest := free - {x.Buddy()};
      ParentApart(free, x);
      CoalesceKeeps(rest, x.Parent());
      assert Coalesce(Repaired, free, x) == Coalesce(Repaired, rest, x.Parent());
      forall p ensures Holds(Coalesce(Repaired, free, x), p) <==> Holds(free, p) || x.Covers(p) {
        BuddyRemoved(free, x, p);
      }
    } else {
      AddedWithoutMerge(free, x);
    }
  }

  lemma AddedWithoutMerge(free: set<Block>, x: Block)
    requires Packed(free) && x.Aligned() && x.order < MAX_ORDER && ApartFrom(free, x)
    ensures Conserves(free, x, free + {x})
    ensures Canonical(free) ==> (Canonical(free + {x}) <==> x.order == MAX_ORDER - 1 || x.Buddy() !in free)
  {
    PackedAdd(free, x);
    forall p ensures Holds(free + {x}, p) <==> Holds(free, p) || x.Covers(p) {
      HoldsUnion(free, {x}, p);
      HoldsOne(x, p);
    }
    BuddyFacts(x);
    if Canonical(free) && (x.order == MAX_ORDER - 1 || x.Buddy() !in free) {
      forall b | b in free + {x} && b.order < MAX_ORDER - 1 ensures b.Buddy() !in free + {x} {
        BuddyFacts(b);
      }
    }
    if Canonical(free + {x}) && x.order < MAX_ORDER - 1 {
      assert x in free + {x};
    }
  }
}
