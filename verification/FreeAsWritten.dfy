/** Freeing as the text has it (src/kernel/mm/physical_pages.c:336-378), on descriptors and
    links, also where it merges what it should not. */
module FreeAsWritten {
  import opened Blocks
  import opened FreeBlocks
  import opened BuddyRuns
  import opened Clist
  import opened BuddyLists
  import opened BuddyAlloc
  import opened BuddyFree

  // ----- what becomes of heads, orders and counts -----

  lemma {:induction false} AndAgain(x: nat, y: nat)
    ensures And(x, And(x, y)) == And(x, y) && And(x, y) <= x
  {
    if x != 0 && y != 0 { AndAgain(x / 2, y / 2); }
  }

  /** The descriptor writes of a step that merges block into the page the mask names. */
  lemma MaskedMerge(d: seq<Ppage>, block: nat, buddy: nat, order: nat)
    requires block < |d| && buddy < |d|
    requires Block(block, order) in FreeSet(d) && Block(buddy, order) in FreeSet(d)
    ensures var d' := MergePages(d, block, buddy, buddy, order);
            && FreeSet(d') == FreeSet(d) - {Block(block, order)} - {Block(buddy, order)} + {Block(buddy, order + 1)}
            && LiveSet(d') == LiveSet(d) && KeepsRest(d, d')
  {}

  /** The loop's free blocks are what Coalesce says, and nothing else changes. */
  ghost predicate LoopLeaves(v: Phys, x: Block, r: Result) {
    && r.Done?
    && FreeSet(r.v.pages) == Coalesce(AsWritten, FreeSet(v.pages) - {x}, x)
    && LiveSet(r.v.pages) == LiveSet(v.pages) && KeepsRest(v.pages, r.v.pages)
  }

  /** The state after one turn of the loop that merges x into the page the mask names. */
  function MaskMerged(v: Phys, x: Block, buddy: nat): (v': Phys)
    requires |v.heads| == LISTS && x.order < MAX_ORDER && x.head < |v.pages| && buddy < |v.pages|
    ensures |v'.heads| == LISTS && |v'.pages| == |v.pages|
  {
    Turned(v, x, buddy, buddy)
  }

  lemma MaskMergedData(v: Phys, x: Block, buddy: nat)
    requires |v.heads| == LISTS && x.order < MAX_ORDER
    requires x in FreeSet(v.pages) && Block(buddy, x.order) in FreeSet(v.pages)
    ensures var d, d' := v.pages, MaskMerged(v, x, buddy).pages;
            && FreeSet(d') == FreeSet(d) - {x} - {Block(buddy, x.order)} + {Block(buddy, x.order + 1)}
            && LiveSet(d') == LiveSet(d) && KeepsRest(d, d')
  {
    var v1 := Unlink(v, FreeList(x.order), buddy);
    UnlinkData(v, FreeList(x.order), buddy);
    SameDataSameHeap(v.pages, v1.pages);
    MaskedMerge(v1.pages, x.head, buddy, x.order);
  }

  lemma LoopTurn(v: Phys, x: Block, buddy: nat, r: Result)
    requires |v.heads| == LISTS && x.order < MAX_ORDER - 1 && x in FreeSet(v.pages)
    requires buddy == FindBuddy(AsWritten, x).head && buddy < |v.pages| && MergeTest(v.pages, buddy, x.order)
    requires LoopLeaves(MaskMerged(v, x, buddy), Block(buddy, x.order + 1), r)
    ensures LoopLeaves(v, x, r)
  {
    MaskMergedData(v, x, buddy);
    AndAgain(x.head, Pow2(x.order));
    var v', y, f := MaskMerged(v, x, buddy), Block(buddy, x.order + 1), FreeSet(v.pages);
    hide KeepsRest, FreeSet, LiveSet, MaskMerged;
    NotYetMerged(v, x, buddy);
    KeepsRestTrans(v.pages, v'.pages, r.v.pages);
    assert FreeSet(v'.pages) - {y} == f - {x} - {Block(buddy, x.order)};
    assert Coalesce(AsWritten, f - {x}, x) == Coalesce(AsWritten, f - {x} - {Block(buddy, x.order)}, y);
  }

  lemma NotYetMerged(v: Phys, x: Block, buddy: nat)
    requires buddy < |v.pages| && MergeTest(v.pages, buddy, x.order)
    ensures Block(buddy, x.order) in FreeSet(v.pages) && Block(buddy, x.order + 1) !in FreeSet(v.pages)
  {}

  lemma LoopStops(v: Phys, x: Block, r: Result)
    requires |v.heads| == LISTS && x.order < MAX_ORDER && x in FreeSet(v.pages)
    requires FindBuddy(AsWritten, x).head < |v.pages|
    requires !(x.order < MAX_ORDER - 1 && MergeTest(v.pages, FindBuddy(AsWritten, x).head, x.order))
    requires r == Done(Link(v, FreeList(x.order), x.head), x.head)
    ensures LoopLeaves(v, x, r)
  {
    LinkData(v, FreeList(x.order), x.head);
    SameDataSameHeap(v.pages, r.v.pages);
    assert FreeSet(v.pages) - {x} + {x} == FreeSet(v.pages);
  }

  lemma OneTurn(v: Phys, x: Block)
    requires |v.heads| == LISTS && x.head < |v.pages| && x.order < MAX_ORDER && x in FreeSet(v.pages)
    ensures var buddy, r := FindBuddy(AsWritten, x).head, MergeLoop(AsWritten, v, x.head, x.order);
            && buddy < |v.pages|
            && r == if x.order < MAX_ORDER - 1 && MergeTest(v.pages, buddy, x.order)
                    then MergeLoop(AsWritten, MaskMerged(v, x, buddy), buddy, x.order + 1)
                    else Done(Link(v, FreeList(x.order), x.head), x.head)
  {
    AndAgain(x.head, Pow2(x.order));
    hide FreeSet, LiveSet, MergePages, Delete, Deleted, Push, And, Pow2, Threads;
  }

  /** The loop as written turns the free blocks into what Coalesce(AsWritten) says, whatever
      it does to the links. */
  lemma {:induction false} LoopData(v: Phys, x: Block)
    requires |v.heads| == LISTS && x.head < |v.pages| && x.order < MAX_ORDER && x in FreeSet(v.pages)
    ensures LoopLeaves(v, x, MergeLoop(AsWritten, v, x.head, x.order))
    decreases MAX_ORDER - x.order
  {
    var buddy := FindBuddy(AsWritten, x).head;
    OneTurn(v, x);
    hide LoopLeaves, MergeLoop, Link, And, Pow2, KeepsRest, MergePages, Unlink;
    if x.order < MAX_ORDER - 1 && MergeTest(v.pages, buddy, x.order) {
      MaskMergedData(v, x, buddy);
      LoopData(MaskMerged(v, x, buddy), Block(buddy, x.order + 1));
      LoopTurn(v, x, buddy, MergeLoop(AsWritten, v, x.head, x.order));
    } else {
      LoopStops(v, x, MergeLoop(AsWritten, v, x.head, x.order));
    }
  }

  // ----- the whole of _ppage_block_free -----

  /** The descriptors after x was given back: its reference is gone, and the free blocks are
      what Coalesce makes of them. */
  ghost predicate GivenBack(text: Text, d: seq<Ppage>, x: Block, d': seq<Ppage>)
    requires x.head < |d|
  {
    && FreeSet(d') == Coalesce(text, FreeSet(d), x) && LiveSet(d') == LiveSet(d) - {x}
    && KeepsRest(d[x.head := d[x.head].(count := 0)], d')
  }

  /** Whatever state the allocator is in: if the assertions on entry hold, the code as
      written ends, and leaves these free and held blocks and these counts. */
  lemma FreeData(v: Phys, x: Block)
    requires |v.heads| == LISTS && Freeable(v, x.head, x.order)
    ensures BlockFree(AsWritten, v, x.head, x.order).Done?
    ensures GivenBack(AsWritten, v.pages, x, BlockFree(AsWritten, v, x.head, x.order).v.pages)
  {
    var v1 := TakenBack(v, x.head, x.order);
    TakenBackData(v, x);
    LoopData(v1, x);
    hide KeepsRest, FreeSet, LiveSet, Coalesce, MergeLoop, TakenBack;
    KeepsRestTrans(v.pages[x.head := v.pages[x.head].(count := 0)], v1.pages,
                   BlockFree(AsWritten, v, x.head, x.order).v.pages);
    assert FreeSet(v.pages) + {x} - {x} == FreeSet(v.pages);
  }
}
