/** A run of the allocator as written that hands out a block somebody still holds. */
module DoubleAllocation {
  import opened Blocks
  import opened FreeBlocks
  import opened Clist
  import opened BuddyLists
  import opened BuddyAlloc
  import opened BuddyFree
  import opened LooseFrees
  import opened PageRanges
  import opened PhysicalPages

  lemma Powers()
    ensures Pow2(0) == 1 && Pow2(1) == 2 && Pow2(2) == 4 && Pow2(3) == 8 && Pow2(4) == 16
    ensures Pow2(5) == 32 && Pow2(6) == 64 && Pow2(7) == 128 && Pow2(8) == 256 && Pow2(9) == 512
  {
    assert Pow2(3) == 8;
    assert Pow2(6) == 64;
  }

  /** Page i heads a block, with these links. */
  ghost predicate At(d: seq<Ppage>, i: nat, order: nat, count: nat, prev: int, next: int) {
    i < |d| && d[i].head && d[i].order == order && d[i].count == count && d[i].prev == prev && d[i].next == next
  }

  ghost predicate Unlabelled(d: seq<Ppage>, i: nat) {
    i < |d| && d[i].slab == d[i].mapping == 0
  }

  ghost predicate FreeHeads(v: Phys, f0: int, f1: int, f2: int, f3: int) {
    && |v.heads| == LISTS
    && v.heads[FreeList(0)] == f0 && v.heads[FreeList(1)] == f1 && v.heads[FreeList(2)] == f2
       && v.heads[FreeList(3)] == f3
  }

  ghost predicate UsedHeads(v: Phys, u0: int, u1: int, u2: int, u3: int) {
    && |v.heads| == LISTS
    && v.heads[UsedList(0)] == u0 && v.heads[UsedList(1)] == u1 && v.heads[UsedList(2)] == u2
       && v.heads[UsedList(3)] == u3
  }

  /** h and g are the two blocks of two pages that boot leaves in use, in either order. */
  ghost predicate Pair(h: nat, g: nat) {
    (h == 488 && g == 490) || (h == 490 && g == 488)
  }

  /** There are 1024 pages of memory; page 0 is in use, and page 500 is nobody's. */
  ghost predicate Sound(d: seq<Ppage>) {
    |d| == 1024 && d[0].count != 0 && Unlabelled(d, 500)
  }

  // ----- the first page -----

  /** After boot: of the free blocks below page 512 there is but the one of sixteen pages. */
  ghost predicate Booted(v: Phys, h: nat, g: nat) {
    && Pair(h, g) && Sound(v.pages)
    && FreeHeads(v, NULL, NULL, NULL, NULL) && v.heads[FreeList(4)] == 496
    && UsedHeads(v, NULL, h, 492, 480) && v.heads[UsedList(4)] == NULL
    && At(v.pages, 480, 3, 1, 480, 480) && At(v.pages, h, 1, 1, g, g) && At(v.pages, 492, 2, 1, 492, 492)
    && At(v.pages, 496, 4, 0, 496, 496)
  }

  ghost predicate Cut4(v: Phys, h: nat, g: nat) {
    && Pair(h, g) && Sound(v.pages)
    && FreeHeads(v, NULL, NULL, NULL, NULL) && UsedHeads(v, NULL, h, 492, 480)
    && At(v.pages, 480, 3, 1, 480, 480) && At(v.pages, h, 1, 1, g, g) && At(v.pages, 492, 2, 1, 492, 492)
    && At(v.pages, 496, 4, 1, 496, 496)
  }

  ghost predicate Cut3(v: Phys, h: nat, g: nat) {
    && Pair(h, g) && Sound(v.pages)
    && FreeHeads(v, NULL, NULL, NULL, 504) && UsedHeads(v, NULL, h, 492, 480)
    && At(v.pages, 480, 3, 1, 496, 496) && At(v.pages, h, 1, 1, g, g) && At(v.pages, 492, 2, 1, 492, 492)
    && At(v.pages, 496, 3, 1, 480, 480) && At(v.pages, 504, 3, 0, 504, 504)
  }

  ghost predicate Cut2(v: Phys, h: nat, g: nat) {
    && Pair(h, g) && Sound(v.pages)
    && FreeHeads(v, NULL, NULL, 500, 504) && UsedHeads(v, NULL, h, 492, 480)
    && At(v.pages, 480, 3, 1, 496, 496) && At(v.pages, h, 1, 1, g, g) && At(v.pages, 492, 2, 1, 496, 496)
    && At(v.pages, 496, 2, 1, 492, 492) && At(v.pages, 500, 2, 0, 500, 500) && At(v.pages, 504, 3, 0, 504, 504)
  }

  ghost predicate Cut1(v: Phys, h: nat, g: nat) {
    && Pair(h, g) && Sound(v.pages)
    && FreeHeads(v, NULL, 498, 500, 504) && UsedHeads(v, NULL, h, 492, 480)
    && At(v.pages, 480, 3, 1, 496, 496) && At(v.pages, h, 1, 1, 496, g) && At(v.pages, 492, 2, 1, 496, 496)
    && At(v.pages, 496, 1, 1, g, h) && At(v.pages, 498, 1, 0, 498, 498)
    && At(v.pages, 500, 2, 0, 500, 500) && At(v.pages, 504, 3, 0, 504, 504)
  }

  /** Page 496 heads three used lists by now and is linked into two others. */
  ghost predicate OneTaken(v: Phys, h: nat, g: nat) {
    && Pair(h, g) && Sound(v.pages)
    && FreeHeads(v, 497, 498, 500, 504) && UsedHeads(v, 496, h, 492, 480)
    && At(v.pages, 480, 3, 1, 496, 496) && At(v.pages, h, 1, 1, 496, g) && At(v.pages, 492, 2, 1, 496, 496)
    && At(v.pages, 496, 0, 1, 496, 496) && At(v.pages, 497, 0, 0, 497, 497) && At(v.pages, 498, 1, 0, 498, 498)
    && At(v.pages, 500, 2, 0, 500, 500) && At(v.pages, 504, 3, 0, 504, 504)
  }

  lemma Take4(v: Phys, h: nat, g: nat)
    requires Booted(v, h, g)
    ensures var r := BlockAlloc(AsWritten, v, 4); r.Done? && r.ppn == 496 && Cut4(r.v, h, g)
  {}

  lemma Split3(v: Phys, h: nat, g: nat)
    requires Cut4(v, h, g)
    ensures var r := Split(AsWritten, v, 496, 3); r.Done? && r.ppn == 496 && Cut3(r.v, h, g)
  {
    Powers();
  }

  lemma Split2(v: Phys, h: nat, g: nat)
    requires Cut3(v, h, g)
    ensures var r := Split(AsWritten, v, 496, 2); r.Done? && r.ppn == 496 && Cut2(r.v, h, g)
  {
    Powers();
  }

  lemma Split1(v: Phys, h: nat, g: nat)
    requires Cut2(v, h, g)
    ensures var r := Split(AsWritten, v, 496, 1); r.Done? && r.ppn == 496 && Cut1(r.v, h, g)
  {
    Powers();
    if h == 488 { assert g == 490; }
  }

  lemma Split0(v: Phys, h: nat, g: nat)
    requires Cut1(v, h, g)
    ensures var r := Split(AsWritten, v, 496, 0); r.Done? && r.ppn == 496 && OneTaken(r.v, h, g)
  {
    Powers();
  }

  lemma Take3(v: Phys, h: nat, g: nat)
    requires Booted(v, h, g)
    ensures var r := BlockAlloc(AsWritten, v, 3); r.Done? && r.ppn == 496 && Cut3(r.v, h, g)
  {
    Take4(v, h, g);
    hide Cut3, Cut4, Split;
    Split3(BlockAlloc(AsWritten, v, 4).v, h, g);
  }

  lemma Take2(v: Phys, h: nat, g: nat)
    requires Booted(v, h, g)
    ensures var r := BlockAlloc(AsWritten, v, 2); r.Done? && r.ppn == 496 && Cut2(r.v, h, g)
  {
    Take3(v, h, g);
    hide Cut3, Cut2, Split;
    Split2(BlockAlloc(AsWritten, v, 3).v, h, g);
  }

  lemma Take1(v: Phys, h: nat, g: nat)
    requires Booted(v, h, g)
    ensures var r := BlockAlloc(AsWritten, v, 1); r.Done? && r.ppn == 496 && Cut1(r.v, h, g)
  {
    Take2(v, h, g);
    hide Cut2, Cut1, Split;
    Split1(BlockAlloc(AsWritten, v, 2).v, h, g);
  }

  lemma FirstPage(v: Phys, h: nat, g: nat)
    requires Booted(v, h, g)
    ensures var r := BlockAlloc(AsWritten, v, 0); r.Done? && r.ppn == 496 && OneTaken(r.v, h, g)
  {
    Take1(v, h, g);
    hide Cut1, OneTaken, Split;
    Split0(BlockAlloc(AsWritten, v, 1).v, h, g);
  }

  // ----- two more pages -----

  ghost predicate TwoTaken(v: Phys, h: nat, g: nat) {
    && Pair(h, g) && Sound(v.pages)
    && FreeHeads(v, NULL, 498, 500, 504) && UsedHeads(v, 496, h, 492, 480)
    && At(v.pages, 480, 3, 1, 496, 496) && At(v.pages, h, 1, 1, 496, g) && At(v.pages, 492, 2, 1, 496, 496)
    && At(v.pages, 496, 0, 1, 497, 497) && At(v.pages, 497, 0, 1, 496, 496) && At(v.pages, 498, 1, 0, 498, 498)
    && At(v.pages, 500, 2, 0, 500, 500) && At(v.pages, 504, 3, 0, 504, 504)
  }

  lemma SecondPage(v: Phys, h: nat, g: nat)
    requires OneTaken(v, h, g)
    ensures var r := BlockAlloc(AsWritten, v, 0); r.Done? && r.ppn == 497 && TwoTaken(r.v, h, g)
  {}

  ghost predicate TwoTakenAndPair(v: Phys, h: nat, g: nat) {
    && Pair(h, g) && Sound(v.pages)
    && FreeHeads(v, NULL, NULL, 500, 504) && UsedHeads(v, 496, h, 492, 480)
    && At(v.pages, 480, 3, 1, 496, 496) && At(v.pages, h, 1, 1, 498, g) && At(v.pages, 492, 2, 1, 496, 496)
    && At(v.pages, 496, 0, 1, 497, 498) && At(v.pages, 497, 0, 1, 496, 496) && At(v.pages, 498, 1, 1, 496, h)
    && At(v.pages, 500, 2, 0, 500, 500) && At(v.pages, 504, 3, 0, 504, 504)
  }

  lemma PairTaken(v: Phys, h: nat, g: nat)
    requires TwoTaken(v, h, g)
    ensures var r := BlockAlloc(AsWritten, v, 1); r.Done? && r.ppn == 498 && TwoTakenAndPair(r.v, h, g)
  {
    if h == 488 { assert g == 490; }
  }

  /** As boot takes them for its three slabs (src/kernel/mm/slab.c:294-297). */
  ghost predicate ThreeTaken(v: Phys, h: nat, g: nat) {
    && Pair(h, g) && Sound(v.pages)
    && FreeHeads(v, 499, NULL, 500, 504) && UsedHeads(v, 496, h, 492, 480)
    && At(v.pages, 480, 3, 1, 496, 496) && At(v.pages, h, 1, 1, 498, g) && At(v.pages, 492, 2, 1, 496, 496)
    && At(v.pages, 500, 2, 0, 500, 500) && At(v.pages, 504, 3, 0, 504, 504)
  }

  lemma ThirdPageCut(v: Phys, h: nat, g: nat)
    requires TwoTakenAndPair(v, h, g)
    ensures var r := Split(AsWritten, v, 498, 0); r.Done? && r.ppn == 498 && ThreeTaken(r.v, h, g)
  {
    Powers();
  }

  lemma ThirdPage(v: Phys, h: nat, g: nat)
    requires TwoTaken(v, h, g)
    ensures var r := BlockAlloc(AsWritten, v, 0); r.Done? && r.ppn == 498 && ThreeTaken(r.v, h, g)
  {
    PairTaken(v, h, g);
    hide TwoTakenAndPair, ThreeTaken, Split;
    ThirdPageCut(BlockAlloc(AsWritten, v, 1).v, h, g);
  }

  // ----- a block that is held and free -----

  /** Two pages are taken, 500; they come to stand in used list 2 behind a page in use. */
  ghost predicate FourTaken(v: Phys, h: nat, g: nat) {
    && Pair(h, g) && Sound(v.pages)
    && FreeHeads(v, 499, 502, NULL, 504) && UsedHeads(v, 496, h, 492, 480)
    && At(v.pages, 480, 3, 1, 496, 496) && At(v.pages, h, 1, 1, 500, g) && At(v.pages, 492, 2, 1, 500, 496)
    && At(v.pages, 500, 1, 1, 498, h) && At(v.pages, 502, 1, 0, 502, 502) && At(v.pages, 504, 3, 0, 504, 504)
  }

  ghost predicate QuadTaken(v: Phys, h: nat, g: nat) {
    && Pair(h, g) && Sound(v.pages)
    && FreeHeads(v, 499, NULL, NULL, 504) && UsedHeads(v, 496, h, 492, 480)
    && At(v.pages, 480, 3, 1, 496, 496) && At(v.pages, h, 1, 1, 498, g) && At(v.pages, 492, 2, 1, 500, 496)
    && At(v.pages, 500, 2, 1, 496, 492) && At(v.pages, 504, 3, 0, 504, 504)
  }

  lemma QuadIsTaken(v: Phys, h: nat, g: nat)
    requires ThreeTaken(v, h, g)
    ensures var r := BlockAlloc(AsWritten, v, 2); r.Done? && r.ppn == 500 && QuadTaken(r.v, h, g)
  {}

  lemma QuadCut(v: Phys, h: nat, g: nat)
    requires QuadTaken(v, h, g)
    ensures var r := Split(AsWritten, v, 500, 1); r.Done? && r.ppn == 500 && FourTaken(r.v, h, g)
  {
    Powers();
    if h == 488 { assert g == 490; }
  }

  lemma Fourth(v: Phys, h: nat, g: nat)
    requires ThreeTaken(v, h, g)
    ensures var r := BlockAlloc(AsWritten, v, 1); r.Done? && r.ppn == 500 && FourTaken(r.v, h, g)
  {
    QuadIsTaken(v, h, g);
    hide QuadTaken, FourTaken, Split;
    QuadCut(BlockAlloc(AsWritten, v, 2).v, h, g);
  }

  /** Given back, they are free, but used list 2 still leads to them. */
  ghost predicate FourGivenBack(v: Phys, h: nat, g: nat) {
    && Pair(h, g) && Sound(v.pages)
    && FreeHeads(v, 499, 502, NULL, 504) && UsedHeads(v, 496, h, 492, 480)
    && At(v.pages, 480, 3, 1, 496, 496) && At(v.pages, h, 1, 1, 498, g) && At(v.pages, 492, 2, 1, 500, 496)
    && At(v.pages, 500, 1, 0, 502, 502) && At(v.pages, 502, 1, 0, 500, 500) && At(v.pages, 504, 3, 0, 504, 504)
  }

  lemma NoBuddyNamed()
    ensures And(500, Pow2(1)) == 0
  {
    Powers();
    assert And(125, 0) == 0;
    assert And(250, 1) == 0;
  }

  lemma GivenBackAgain(v: Phys, h: nat, g: nat)
    requires FourTaken(v, h, g)
    ensures var r := BlockFree(AsWritten, v, 500, 1); r.Done? && FourGivenBack(r.v, h, g)
  {
    NoBuddyNamed();
    hide And, Pow2;
  }

  lemma UpperBuddy()
    ensures Block(500, 1).Buddy() == Block(502, 1)
  {
    Powers();
    assert Low(125, 0) == 0 && Low(250, 1) == 0 && Low(500, 2) == 0;
    hide Pow2;
  }

  /** That free does not do its work: the two blocks are buddies, and both free. */
  lemma NotCoalesced(v: Phys, h: nat, g: nat)
    requires FourGivenBack(v, h, g)
    ensures Block(500, 1) in FreeSet(v.pages) && Block(502, 1) in FreeSet(v.pages) && !Canonical(FreeSet(v.pages))
  {
    UpperBuddy();
  }

  /** Nor was the block let go: block 492, which is in use, is linked to it. */
  lemma StillNamed(v: Phys, h: nat, g: nat)
    requires FourTaken(v, h, g)
    ensures !LetGo(v, Block(500, 1))
  {
    if h == 488 { assert g == 490; }
    var v1 := Unlink(v, UsedList(1), 500);
    assert v1.pages[492].prev == 500 && v1.pages[492].head && v1.pages[492].count != 0;
  }

  ghost predicate FiveTaken(v: Phys, h: nat, g: nat) {
    && Pair(h, g) && Sound(v.pages)
    && FreeHeads(v, 499, 500, NULL, 504) && UsedHeads(v, 496, h, 492, 480)
    && At(v.pages, 480, 3, 1, 496, 496) && At(v.pages, h, 1, 1, 502, g) && At(v.pages, 492, 2, 1, 500, 496)
    && At(v.pages, 500, 1, 0, 500, 500) && At(v.pages, 502, 1, 1, 498, h) && At(v.pages, 504, 3, 0, 504, 504)
  }

  lemma Fifth(v: Phys, h: nat, g: nat)
    requires FourGivenBack(v, h, g)
    ensures var r := BlockAlloc(AsWritten, v, 1); r.Done? && r.ppn == 502 && FiveTaken(r.v, h, g)
  {
    if h == 488 { assert g == 490; }
  }

  ghost predicate EightTaken(v: Phys, h: nat, g: nat) {
    && Pair(h, g) && Sound(v.pages)
    && FreeHeads(v, 499, 500, NULL, NULL) && UsedHeads(v, 496, h, 492, 480)
    && At(v.pages, h, 1, 1, 502, g) && At(v.pages, 492, 2, 1, 500, 496)
    && At(v.pages, 500, 1, 0, 500, 500) && At(v.pages, 502, 1, 1, 498, h) && At(v.pages, 504, 3, 1, 496, 480)
  }

  lemma EightIsTaken(v: Phys, h: nat, g: nat)
    requires FiveTaken(v, h, g)
    ensures var r := BlockAlloc(AsWritten, v, 3); r.Done? && r.ppn == 504 && EightTaken(r.v, h, g)
  {}

  /** Four pages are taken, 504, and linked behind page 500, that is, into a free list. */
  ghost predicate SixTaken(v: Phys, h: nat, g: nat) {
    && Pair(h, g) && Sound(v.pages)
    && |v.heads| == LISTS && v.heads[FreeList(1)] == 500 && v.heads[UsedList(1)] == h
    && At(v.pages, h, 1, 1, 502, g) && At(v.pages, 500, 1, 0, 500, 504) && At(v.pages, 504, 2, 1, 500, 492)
    && At(v.pages, 502, 1, 1, 498, h)
  }

  lemma EightCut(v: Phys, h: nat, g: nat)
    requires EightTaken(v, h, g)
    ensures var r := Split(AsWritten, v, 504, 2); r.Done? && r.ppn == 504 && SixTaken(r.v, h, g)
  {
    Powers();
  }

  lemma Sixth(v: Phys, h: nat, g: nat)
    requires FiveTaken(v, h, g)
    ensures var r := BlockAlloc(AsWritten, v, 2); r.Done? && r.ppn == 504 && SixTaken(r.v, h, g)
  {
    EightIsTaken(v, h, g);
    hide EightTaken, SixTaken, Split;
    EightCut(BlockAlloc(AsWritten, v, 3).v, h, g);
  }

  lemma Seventh(v: Phys, h: nat, g: nat)
    requires SixTaken(v, h, g)
    ensures var r := BlockAlloc(AsWritten, v, 1);
            r.Done? && r.ppn == 500 && |r.v.heads| == LISTS && r.v.heads[FreeList(1)] == 504
            && 504 < |r.v.pages| && r.v.pages[504].head && r.v.pages[504].order == 2 && r.v.pages[504].count == 1
  {}

  // ----- the whole run -----

  /** The three pages boot takes for its first slabs. */
  function ThreePages(v: Phys): (r: Result)
    requires |v.heads| == LISTS
    ensures r.Done? ==> |r.v.heads| == LISTS && |r.v.pages| == |v.pages|
  {
    match BlockAlloc(AsWritten, v, 0)
    case Panic => Panic
    case Done(v1, _) =>
      match BlockAlloc(AsWritten, v1, 0)
      case Panic => Panic
      case Done(v2, _) => BlockAlloc(AsWritten, v2, 0)
  }

  /** These three pages were labelled with their slabs, in whichever way. */
  ghost predicate SlabsLabelled(v: Phys, v': Phys) {
    && v'.heads == v.heads && |v'.pages| == |v.pages|
    && forall i: nat | i < |v.pages| ::
         v'.pages[i] == v.pages[i].(slab := if 496 <= i < 499 then v'.pages[i].slab else v.pages[i].slab)
  }

  lemma SlabsReady(v: Phys, h: nat, g: nat, v': Phys)
    requires Booted(v, h, g)
    requires ThreePages(v).Done? ==> SlabsLabelled(ThreePages(v).v, v')
    ensures ThreePages(v).Done? && ThreeTaken(v', h, g)
  {
    FirstPage(v, h, g);
    var v1 := BlockAlloc(AsWritten, v, 0).v;
    hide Booted, OneTaken, TwoTaken, ThreeTaken, BlockAlloc, SlabsLabelled;
    assert |v.heads| == LISTS && |v1.heads| == LISTS by { BootedHeads(v, v1, h, g); }
    SecondPage(v1, h, g);
    ThirdPage(BlockAlloc(AsWritten, v1, 0).v, h, g);
    LabelsDoNotMatter(ThreePages(v).v, h, g, v');
  }

  lemma BootedHeads(v: Phys, v1: Phys, h: nat, g: nat)
    requires Booted(v, h, g) && OneTaken(v1, h, g)
    ensures |v.heads| == LISTS && |v1.heads| == LISTS
  {}

  lemma LabelsDoNotMatter(v: Phys, h: nat, g: nat, v': Phys)
    requires ThreeTaken(v, h, g) && SlabsLabelled(v, v')
    ensures ThreeTaken(v', h, g)
  {}

  /** As written, after a boot of 4MB with a kernel image that ends at page 490 and the first
      three slabs: take two pages, give them back, take two pages, four, two and two; the last
      call returns the block of four pages that is still held. */
  lemma SameBlockTwice(v: Phys, h: nat, g: nat, v3: Phys)
    requires Booted(v, h, g)
    requires ThreePages(v).Done? ==> SlabsLabelled(ThreePages(v).v, v3)
    ensures ThreePages(v).Done? && |v3.heads| == LISTS
    ensures var r4 := BlockAlloc(AsWritten, v3, 1);
            && r4.Done?
            && var r5 := BlockFree(AsWritten, r4.v, r4.ppn, 1);
            && r5.Done?
            && var r6 := BlockAlloc(AsWritten, r5.v, 1);
            && r6.Done?
            && var r7 := BlockAlloc(AsWritten, r6.v, 2);
            && r7.Done?
            && var r8 := BlockAlloc(AsWritten, r7.v, 1);
            && r8.Done? && r8.ppn != r7.ppn && Block(r7.ppn, 2) in LiveSet(r8.v.pages)
            && var r9 := BlockAlloc(AsWritten, r8.v, 1);
            && r9.Done? && r9.ppn == r7.ppn
  {
    SlabsReady(v, h, g, v3);
    hide Booted, BlockFree, ThreePages;
    Fourth(v3, h, g);
    var v4 := BlockAlloc(AsWritten, v3, 1).v;
    GivenBackAgain(v4, h, g);
    var v5 := BlockFree(AsWritten, v4, 500, 1).v;
    TwiceFromThere(v5, h, g);
  }

  lemma TwiceFromThere(v5: Phys, h: nat, g: nat)
    requires FourGivenBack(v5, h, g)
    ensures var r6 := BlockAlloc(AsWritten, v5, 1);
            && r6.Done?
            && var r7 := BlockAlloc(AsWritten, r6.v, 2);
            && r7.Done?
            && var r8 := BlockAlloc(AsWritten, r7.v, 1);
            && r8.Done? && r8.ppn != r7.ppn && Block(r7.ppn, 2) in LiveSet(r8.v.pages)
            && var r9 := BlockAlloc(AsWritten, r8.v, 1);
            && r9.Done? && r9.ppn == r7.ppn
  {
    Fifth(v5, h, g);
    hide FiveTaken, SixTaken;
    var v6 := BlockAlloc(AsWritten, v5, 1).v;
    Sixth(v6, h, g);
    Seventh(BlockAlloc(AsWritten, v6, 2).v, h, g);
    LastTake(BlockAlloc(AsWritten, BlockAlloc(AsWritten, v6, 2).v, 1).v);
  }

  lemma LastTake(v: Phys)
    requires |v.heads| == LISTS && v.heads[FreeList(1)] == 504 && 504 < |v.pages|
    ensures var r := BlockAlloc(AsWritten, v, 1); r.Done? && r.ppn == 504
  {}

  // ----- that boot -----

  /** The greedy division starts with a block of order o if that fits and no larger does. */
  lemma GreedyStep(p: nat, end: nat, o: nat)
    requires p < end && o < MAX_ORDER && FitsAt(p, o, end) && (o == MAX_ORDER - 1 || !FitsAt(p, o + 1, end))
    ensures BlocksOf(Greedy(p, end)) == {Block(p, o)} + BlocksOf(Greedy(p + Pow2(o), end))
  {
    OrderIsLargest(p, end, o);
    BlocksOfMore(Block(p, o), Greedy(p + Pow2(o), end));
    hide LargestFit, FitsAt, BlocksOf;
  }

  lemma OrderIsLargest(p: nat, end: nat, o: nat)
    requires p < end && o < MAX_ORDER && FitsAt(p, o, end) && (o == MAX_ORDER - 1 || !FitsAt(p, o + 1, end))
    ensures LargestFit(p, end, MAX_ORDER - 1) == o
  {
    var l := LargestFit(p, end, MAX_ORDER - 1);
    if o < l {
      AlignedBelow(p, o + 1, l);
      Pow2Grows(o + 1, l);
    }
  }

  lemma BlocksOfMore(b: Block, bs: seq<Block>)
    ensures BlocksOf([b] + bs) == {b} + BlocksOf(bs)
  {}

  lemma FitsIff(p: nat, o: nat, size: nat, end: nat)
    requires Pow2(o) == size
    ensures FitsAt(p, o, end) <==> p % size == 0 && p + size <= end
  {
    LowIsRemainder(p, o);
  }

  lemma GreedyBlock(p: nat, end: nat, o: nat, size: nat)
    requires p < end && o < MAX_ORDER && Pow2(o) == size && p % size == 0 && p + size <= end
    requires o + 1 == MAX_ORDER || p % (2 * size) != 0 || p + 2 * size > end
    ensures BlocksOf(Greedy(p, end)) == {Block(p, o)} + BlocksOf(Greedy(p + size, end))
  {
    FitsIff(p, o, size, end);
    if o + 1 < MAX_ORDER { FitsIff(p, o + 1, 2 * size, end); }
    GreedyStep(p, end, o);
  }

  lemma NoBlocks(p: nat)
    ensures BlocksOf(Greedy(p, p)) == {}
  {}

  /** A greedy block that fills a range. */
  lemma OneBlock(q: nat, o: nat, size: nat)
    requires o < MAX_ORDER && Pow2(o) == size && q % size == 0
    ensures BlocksOf(Greedy(q, q + size)) == {Block(q, o)}
  {
    NoBlocks(q + size);
    Pow2Grows(o, o);
    FitsIff(q, o, size, q + size);
    if o + 1 < MAX_ORDER { FitsIff(q, o + 1, 2 * size, q + size); }
    GreedyStep(q, q + size, o);
    hide Greedy, BlocksOf, FitsAt;
  }

  /** Two greedy blocks that fill a range. */
  lemma TwoBlocks(p: nat, o: nat, size: nat, o': nat, size': nat)
    requires o' < MAX_ORDER && Pow2(o') == size' && (p + size) % size' == 0
    requires BlocksOf(Greedy(p, p + size + size')) == {Block(p, o)} + BlocksOf(Greedy(p + size, p + size + size'))
    ensures BlocksOf(Greedy(p, p + size + size')) == {Block(p, o), Block(p + size, o')}
  {
    hide Greedy, BlocksOf;
    OneBlock(p + size, o', size');
  }

  lemma FreeRanges()
    ensures BlocksOf(Greedy(256, 256)) == {} && BlocksOf(Greedy(496, 1024)) == {Block(496, 4), Block(512, 9)}
  {
    Powers();
    NoBlocks(256);
    hide Pow2, Greedy, BlocksOf;
    GreedyBlock(496, 1024, 4, 16);
    TwoBlocks(496, 4, 16, 9, 512);
  }

  lemma EndOfImage()
    ensures BlocksOf(Greedy(480, 490)) == {Block(480, 3), Block(488, 1)}
  {
    Powers();
    hide Pow2, Greedy, BlocksOf;
    GreedyBlock(480, 490, 3, 8);
    TwoBlocks(480, 3, 8, 1, 2);
  }

  lemma ImageRange()
    ensures BlocksOf(Greedy(256, 490)) == {Block(256, 7), Block(384, 6), Block(448, 5)} + BlocksOf(Greedy(480, 490))
  {
    Powers();
    hide Pow2, Greedy, BlocksOf;
    GreedyBlock(256, 490, 7, 128);
    GreedyBlock(384, 490, 6, 64);
    GreedyBlock(448, 490, 5, 32);
  }

  lemma FirstMegabyte()
    ensures BlocksOf(Greedy(0, 256)) == {Block(0, 8)}
  {
    Powers();
    NoBlocks(256);
    hide Pow2, Greedy, BlocksOf;
    GreedyBlock(0, 256, 8, 256);
  }

  lemma DescriptorRange()
    ensures BlocksOf(Greedy(490, 496)) == {Block(490, 1), Block(492, 2)}
  {
    Powers();
    hide Pow2, Greedy, BlocksOf;
    GreedyBlock(490, 496, 1, 2);
    TwoBlocks(490, 1, 2, 2, 4);
  }

  ghost function BootFree(): set<Block> { {Block(496, 4), Block(512, 9)} }

  ghost function BootUsed(): set<Block> {
    {Block(0, 8), Block(256, 7), Block(384, 6), Block(448, 5), Block(480, 3), Block(488, 1), Block(490, 1),
     Block(492, 2)}
  }

  ghost predicate Holding(v: Phys, lists: seq<seq<nat>>) {
    Threaded(v, lists) && FreeSet(v.pages) == BootFree() && LiveSet(v.pages) == BootUsed()
  }

  /** The pages on the free list, and those on the used list, of order o. */
  lemma OnFreeList(v: Phys, lists: seq<seq<nat>>, o: nat)
    requires Holding(v, lists) && o < MAX_ORDER
    ensures IsClist(v.pages, v.heads[FreeList(o)], lists[FreeList(o)])
    ensures forall p: nat :: p in lists[FreeList(o)] <==> Block(p, o) in BootFree()
  {
    assert HoldsPagesAt(lists[FreeList(o)], Homes(v.pages), FreeList(o));
    forall p: nat ensures p in lists[FreeList(o)] <==> Block(p, o) in BootFree() {
      if p < |v.pages| && v.pages[p].head { assert Block(p, v.pages[p].order) in FreeSet(v.pages) + LiveSet(v.pages); }
    }
  }

  lemma OnUsedList(v: Phys, lists: seq<seq<nat>>, o: nat)
    requires Holding(v, lists) && o < MAX_ORDER
    ensures IsClist(v.pages, v.heads[UsedList(o)], lists[UsedList(o)])
    ensures forall p: nat :: p in lists[UsedList(o)] <==> Block(p, o) in BootUsed()
  {
    assert HoldsPagesAt(lists[UsedList(o)], Homes(v.pages), UsedList(o));
    forall p: nat ensures p in lists[UsedList(o)] <==> Block(p, o) in BootUsed() {
      if p < |v.pages| && v.pages[p].head { assert Block(p, v.pages[p].order) in FreeSet(v.pages) + LiveSet(v.pages); }
    }
  }

  lemma NoElement(d: seq<Ppage>, list: int, s: seq<nat>)
    requires IsClist(d, list, s) && forall p: nat :: p !in s
    ensures list == NULL
  {
    assert forall i | 0 <= i < |s| :: s[i] in s;
  }

  lemma OneElement(d: seq<Ppage>, list: int, s: seq<nat>, p: nat)
    requires IsClist(d, list, s) && forall q: nat :: q in s <==> q == p
    ensures list == p < |d| && d[p].next == p && d[p].prev == p
  {
    assert p in s;
    forall i | 0 <= i < |s| ensures s[i] == p { assert s[i] in s; }
    TwoDiffer(s);
    assert LinkedAt(d, s, 0);
  }

  lemma TwoDiffer(s: seq<nat>)
    requires Distinct(s)
    ensures |s| <= 1 || s[0] != s[1]
    ensures |s| <= 2 || (s[0] != s[2] && s[1] != s[2])
  {}

  lemma TwoElements(d: seq<Ppage>, list: int, s: seq<nat>, p: nat, q: nat) returns (h: nat, g: nat)
    requires IsClist(d, list, s) && p != q && forall i: nat :: i in s <==> i == p || i == q
    ensures (h == p && g == q) || (h == q && g == p)
    ensures list == h < |d| && d[h].next == g && d[h].prev == g
  {
    assert p in s && q in s;
    forall i | 0 <= i < |s| ensures s[i] == p || s[i] == q { assert s[i] in s; }
    TwoDiffer(s);
    assert LinkedAt(d, s, 0);
    h, g := s[0], s[1];
  }

  lemma FreeHeadsAtBoot(v: Phys, lists: seq<seq<nat>>)
    requires Holding(v, lists)
    ensures FreeHeads(v, NULL, NULL, NULL, NULL) && v.heads[FreeList(4)] == 496 < |v.pages|
    ensures v.pages[496].prev == v.pages[496].next == 496
  {
    forall o: nat | o < 4 ensures v.heads[FreeList(o)] == NULL {
      OnFreeList(v, lists, o);
      NoElement(v.pages, v.heads[FreeList(o)], lists[FreeList(o)]);
    }
    OnFreeList(v, lists, 4);
    OneElement(v.pages, v.heads[FreeList(4)], lists[FreeList(4)], 496);
  }

  lemma UsedHeadsAtBoot(v: Phys, lists: seq<seq<nat>>) returns (h: nat, g: nat)
    requires Holding(v, lists)
    ensures |v.pages| > 492 && Pair(h, g) && UsedHeads(v, NULL, h, 492, 480) && v.heads[UsedList(4)] == NULL
    ensures v.pages[480].prev == v.pages[480].next == 480 && v.pages[492].prev == v.pages[492].next == 492
    ensures v.pages[h].prev == v.pages[h].next == g
  {
    OnUsedList(v, lists, 0);
    NoElement(v.pages, v.heads[UsedList(0)], lists[UsedList(0)]);
    OnUsedList(v, lists, 4);
    NoElement(v.pages, v.heads[UsedList(4)], lists[UsedList(4)]);
    OnUsedList(v, lists, 3);
    OneElement(v.pages, v.heads[UsedList(3)], lists[UsedList(3)], 480);
    OnUsedList(v, lists, 2);
    OneElement(v.pages, v.heads[UsedList(2)], lists[UsedList(2)], 492);
    OnUsedList(v, lists, 1);
    h, g := TwoElements(v.pages, v.heads[UsedList(1)], lists[UsedList(1)], 488, 490);
  }

  lemma DataAtBoot(d: seq<Ppage>)
    requires |d| == 1024 && Pristine(d) && FreeSet(d) == BootFree() && LiveSet(d) == BootUsed()
    ensures Sound(d)
    ensures d[496].head && d[496].order == 4 && d[496].count == 0
    ensures d[480].head && d[480].order == 3 && d[480].count == 1
    ensures d[492].head && d[492].order == 2 && d[492].count == 1
    ensures d[488].head && d[488].order == 1 && d[488].count == 1
    ensures d[490].head && d[490].order == 1 && d[490].count == 1
  {
    assert Block(496, 4) in FreeSet(d);
    assert Block(0, 8) in LiveSet(d) && Block(480, 3) in LiveSet(d) && Block(492, 2) in LiveSet(d);
    assert Block(488, 1) in LiveSet(d) && Block(490, 1) in LiveSet(d);
  }

  lemma HoldingIsBooted(v: Phys, lists: seq<seq<nat>>) returns (h: nat, g: nat)
    requires Holding(v, lists) && |v.pages| == 1024 && Pristine(v.pages)
    ensures Booted(v, h, g)
  {
    DataAtBoot(v.pages);
    FreeHeadsAtBoot(v, lists);
    h, g := UsedHeadsAtBoot(v, lists);
    hide Holding, Pristine;
  }

  lemma BootHolds(v: Phys, lists: seq<seq<nat>>)
    requires Threaded(v, lists)
    requires FreeSet(v.pages) == BlocksOf(Greedy(256, 256)) + BlocksOf(Greedy(496, 1024))
    requires LiveSet(v.pages) == BlocksOf(Greedy(0, 256)) + BlocksOf(Greedy(256, 490)) + BlocksOf(Greedy(490, 496))
    ensures Holding(v, lists)
  {
    FreeRanges();
    ImageRange();
    EndOfImage();
    FirstMegabyte();
    DescriptorRange();
    hide Greedy, BlocksOf, FreeSet, LiveSet, Threaded;
  }

  /** Boot reaches that state. The boot allocator has handed out six pages, which hold the
      1024 descriptors. */
  method BootIntoStart() returns (a: PageAllocator, ghost h: nat, ghost g: nat)
    ensures a.Valid() && a.text.AsWritten? && Booted(a.View(), h, g)
  {
    Powers();
    LowIsRemainder(1024, MAX_ORDER - 1);
    hide Booted, Greedy, BlocksOf, Pristine, FreeSet, LiveSet, Holding, Canonical;
    a := new PageAllocator.BootInit(AsWritten, 1024, 256, 490, 496);
    BootHolds(a.View(), a.lists);
    h, g := HoldingIsBooted(a.View(), a.lists);
  }
}
