/** What find_buddy does as the header spells it, `&` instead of `^`
    (src/include/kernel/mm/physical_pages.h:55-56). */
module BuddyAsWritten {
  import opened Blocks
  import opened FreeBlocks

  /** Masking never names the buddy: it names page 0 or page 2^order. */
  lemma NeverNamesBuddy(x: Block)
    requires x.Aligned()
    ensures FindBuddy(AsWritten, x).head == 0 || FindBuddy(AsWritten, x).head == Pow2(x.order)
    ensures FindBuddy(AsWritten, x) != x.Buddy()
  {
    AndPicksBit(x);
    BuddyFacts(x);
    HalfOrWhole(0, x.order);
  }

  lemma {:induction false} DistinctPowers(o: nat)
    ensures And(Pow2(o), Pow2(o + 1)) == 0
  {
    if o == 0 {
      assert Pow2(1) == 2;
    } else {
      DistinctPowers(o - 1);
    }
  }

  lemma {:induction false} AndBit(x: Block)
    requires x.Aligned()
    ensures And(x.head, And(x.head, Pow2(x.order))) == And(x.head, Pow2(x.order))
    decreases x.order
  {
    if x.order == 0 {
      assert Pow2(0) == 1;
    } else {
      HalvedFacts(x);
      AndBit(Halved(x));
    }
  }

  /** Everything page 0 has been merged with stays merged with it, up to the largest order. */
  lemma {:induction false} ZeroSwallows(free: set<Block>, k: nat, b: Block)
    requires k < MAX_ORDER
    ensures b in Coalesce(AsWritten, free, Block(0, k)) <==>
            b == Block(0, MAX_ORDER - 1) || (b in free && !(b.head == 0 && k <= b.order < MAX_ORDER - 1))
    decreases MAX_ORDER - k
  {
    if k < MAX_ORDER - 1 {
      assert FindBuddy(AsWritten, Block(0, k)) == Block(0, k);
      ZeroSwallows(free - {Block(0, k)}, k + 1, b);
    }
  }

  /** A merge step drops the block the mask names and goes on with one twice as large there. */
  lemma MergeStep(free: set<Block>, x: Block, h: nat)
    requires x.Aligned() && Merges(AsWritten, free, x) && h == FindBuddy(AsWritten, x).head
    ensures Coalesce(AsWritten, free, x) == Coalesce(AsWritten, free - {Block(h, x.order)}, Block(h, x.order + 1))
  {
    AndBit(x);
  }

  lemma MergeAtZeroBreaks(free: set<Block>, x: Block)
    requires Packed(free + {x}) && x.order < MAX_ORDER - 1
    requires Block(0, x.order) in free + {x} && !x.Covers(Pow2(x.order))
    ensures !Conserves(free, x, Coalesce(AsWritten, free - {Block(0, x.order)}, Block(0, x.order + 1)))
  {
    TopBlockAppears(free - {Block(0, x.order)}, x.order);
    if Holds(free, Pow2(x.order)) {
      var b :| b in free && b.Covers(Pow2(x.order));
      OthersSurvive(free, x, b);
    }
  }

  lemma TopBlockAppears(rest: set<Block>, o: nat)
    requires o < MAX_ORDER - 1
    ensures Block(0, MAX_ORDER - 1) in Coalesce(AsWritten, rest, Block(0, o + 1))
    ensures Block(0, MAX_ORDER - 1).Covers(Pow2(o))
    ensures Holds(Coalesce(AsWritten, rest, Block(0, o + 1)), Pow2(o))
  {
    ZeroSwallows(rest, o + 1, Block(0, MAX_ORDER - 1));
    Pow2Grows(o, MAX_ORDER - 1);
  }

  lemma OthersSurvive(free: set<Block>, x: Block, b: Block)
    requires Packed(free + {x}) && x.order < MAX_ORDER - 1
    requires Block(0, x.order) in free + {x} && b in free && b.Covers(Pow2(x.order))
    ensures !Packed(Coalesce(AsWritten, free - {Block(0, x.order)}, Block(0, x.order + 1)))
  {
    var y := Block(0, x.order);
    assert b != y && b in free + {x} && b.Apart(y);
    ZeroSwallows(free - {y}, x.order + 1, b);
    TopBlockAppears(free - {y}, x.order);
    assert !b.Apart(Block(0, MAX_ORDER - 1));
  }

  lemma PageAbove(x: Block)
    requires x.Aligned() && FindBuddy(AsWritten, x).head == 0
    ensures !x.Covers(Pow2(x.order))
  {
    AndPicksBit(x);
    BuddyFacts(x);
    HalfOrWhole(0, x.order);
    Pow2Grows(x.order, x.order);
    if x.Covers(Pow2(x.order)) && x.head < Pow2(x.order) {
      MultiplesApart(x.head, Pow2(x.order), x.order);
    }
  }

  lemma MergeAtBitBreaks(free: set<Block>, x: Block)
    requires Packed(free + {x}) && x !in free
    requires Block(Pow2(x.order), x.order) in free + {x}
    ensures !Packed(Coalesce(AsWritten, free - {Block(Pow2(x.order), x.order)}, Block(Pow2(x.order), x.order + 1)))
  {
    var o := x.order;
    var y, low := Block(Pow2(o), o), Block(0, o + 1);
    assert Pow2(o + 1) == 2 * Pow2(o);
    OverlapExcludes(free + {x}, y, low);
    MisplacedStays(free - {y}, o);
  }

  lemma MisplacedStays(rest: set<Block>, o: nat)
    requires Block(0, o + 1) !in rest
    ensures !Packed(Coalesce(AsWritten, rest, Block(Pow2(o), o + 1)))
  {
    var z := Block(Pow2(o), o + 1);
    DistinctPowers(o);
    HalfOrWhole(0, o);
    assert z in Coalesce(AsWritten, rest, z) && !z.Aligned();
  }

  /** As written, freeing conserves the pages exactly when it does not merge at all. */
  lemma ConservesIffNoMerge(free: set<Block>, x: Block)
    requires Packed(free) && x.Aligned() && x.order < MAX_ORDER && ApartFrom(free, x)
    ensures Conserves(free, x, Coalesce(AsWritten, free, x)) <==> !Merges(AsWritten, free, x)
  {
    PackedAdd(free, x);
    Pow2Grows(x.order, x.order);
    if Merges(AsWritten, free, x) {
      NeverNamesBuddy(x);
      MergeStep(free, x, FindBuddy(AsWritten, x).head);
      if FindBuddy(AsWritten, x).head == 0 {
        PageAbove(x);
        MergeAtZeroBreaks(free, x);
      } else {
        MergeAtBitBreaks(free, x);
      }
    } else {
      AddedWithoutMerge(free, x);
    }
  }

  /** As written, freeing does what the merge loop is for exactly when there is nothing
      to merge: the true buddy is not free and no free block sits where the mask points. */
  lemma AgreesIffNothingToMerge(free: set<Block>, x: Block)
    requires Packed(free) && Canonical(free)
    requires x.Aligned() && x.order < MAX_ORDER && ApartFrom(free, x)
    ensures Coalesce(AsWritten, free, x) == Coalesce(Repaired, free, x) <==>
            x.order == MAX_ORDER - 1 || (FindBuddy(AsWritten, x) !in free + {x} && x.Buddy() !in free)
  {
    ConservesIffNoMerge(free, x);
    CoalesceKeeps(free, x);
    AddedWithoutMerge(free, x);
    RepairedStep(x);
    BuddyFacts(x);
  }

  /** The boot code marks page 0 and pages 2^0..2^8 used (physical_pages.c:262-266). As
      long as none of them is given back, no free ever merges anything. */
  lemma NoMergeAboveBootPages(free: set<Block>, x: Block)
    requires x.Aligned() && x.order < MAX_ORDER
    requires forall b, i: nat | b in free + {x} && i < MAX_ORDER - 1 :: !b.Covers(0) && !b.Covers(Pow2(i))
    ensures !Merges(AsWritten, free, x)
    ensures Coalesce(AsWritten, free, x) == free + {x}
  {
    NeverNamesBuddy(x);
    if Merges(AsWritten, free, x) {
      assert FindBuddy(AsWritten, x).Covers(FindBuddy(AsWritten, x).head);
    }
  }
}
