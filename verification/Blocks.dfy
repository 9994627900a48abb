/** Powers of two, the two bitwise operators the buddy code uses, and naturally
    aligned blocks of pages. */
module Blocks {

  // One more than the largest block order (physical_pages.h, MAX_PPAGE_BLOCK_ORDER).
  const MAX_ORDER: nat := 10

  function Pow2(n: nat): (p: nat)
    ensures p > 0
  {
    if n == 0 then 1 else 2 * Pow2(n - 1)
  }

  /** C's `x & y` on unsigned numbers. */
  function And(x: nat, y: nat): nat {
    if x == 0 || y == 0 then 0
    else 2 * And(x / 2, y / 2) + if x % 2 == 1 && y % 2 == 1 then 1 else 0
  }

  /** C's `x ^ y` on unsigned numbers. */
  function Xor(x: nat, y: nat): nat {
    if x == 0 && y == 0 then 0
    else 2 * Xor(x / 2, y / 2) + if x % 2 != y % 2 then 1 else 0
  }

  // ----- arithmetic -----

  /** The o lowest bits of x. Reading them bit by bit keeps the proofs below linear;
      LowIsRemainder says that this is C's `x % (1 << o)`. */
  function Low(x: nat, o: nat): (r: nat)
    ensures r < Pow2(o) && r <= x
  {
    if o == 0 then 0 else x % 2 + 2 * Low(x / 2, o - 1)
  }

  lemma MulBounds(d: int, k: int)
    requires d >= 0
    ensures k >= 1 ==> d * k >= d
    ensures k <= -1 ==> d * k <= -d
  {}

  lemma DivisionIsUnique(x: nat, d: nat, q: nat, r: nat)
    requires r < d && x == d * q + r
    ensures x / d == q && x % d == r
  {
    var q', r' := x / d, x % d;
    assert d * (q - q') == r' - r;
    MulBounds(d, q - q');
  }

  lemma DoubledDivision(x: nat, m: nat, q: nat, r: nat)
    requires x / 2 == m * q + r && r < m
    ensures x % (2 * m) == 2 * r + x % 2
  {
    assert (2 * m) * q == 2 * (m * q);
    DivisionIsUnique(x, 2 * m, q, 2 * r + x % 2);
  }

  lemma {:induction false} LowIsRemainder(x: nat, o: nat)
    ensures Low(x, o) == x % Pow2(o)
  {
    if o > 0 {
      LowIsRemainder(x / 2, o - 1);
      var m := Pow2(o - 1);
      var q, r := (x / 2) / m, Low(x / 2, o - 1);
      DoubledDivision(x, m, q, r);
    }
  }

  lemma {:induction false} AlignedBelow(x: nat, small: nat, big: nat)
    requires small <= big && Low(x, big) == 0
    ensures Low(x, small) == 0
  {
    if small > 0 {
      AlignedBelow(x / 2, small - 1, big - 1);
    }
  }

  lemma Pow2Doubles(n: nat)
    ensures Pow2(n + 1) == 2 * Pow2(n)
  {}

  lemma LowDoubles(x: nat, o: nat)
    ensures Low(2 * x, o + 1) == 2 * Low(x, o)
  {}

  lemma NoBits(x: nat)
    ensures Pow2(0) == 1 && Low(x, 0) == 0
  {}

  lemma {:induction false} Pow2Grows(small: nat, big: nat)
    requires small <= big
    ensures Pow2(small) <= Pow2(big)
    ensures small < big ==> 2 * Pow2(small) <= Pow2(big)
    ensures Low(Pow2(big), small) == 0
  {
    hide Low, Pow2;
    if big > 0 { Pow2Doubles(big - 1); }
    if small > 0 {
      Pow2Grows(small - 1, big - 1);
      Pow2Doubles(small - 1);
      LowDoubles(Pow2(big - 1), small - 1);
    } else {
      NoBits(Pow2(big));
    }
  }

  /** Two different multiples of 2^o are at least 2^o apart. */
  lemma {:induction false} MultiplesApart(x: nat, y: nat, o: nat)
    requires Low(x, o) == 0 && Low(y, o) == 0 && x < y
    ensures x + Pow2(o) <= y
  {
    if o > 0 {
      MultiplesApart(x / 2, y / 2, o - 1);
    }
  }

  lemma {:induction false} MultiplesAdd(x: nat, y: nat, o: nat)
    requires Low(x, o) == 0 && Low(y, o) == 0
    ensures Low(x + y, o) == 0
    ensures x >= y ==> Low(x - y, o) == 0
  {
    if o > 0 {
      MultiplesAdd(x / 2, y / 2, o - 1);
      assert (x + y) / 2 == x / 2 + y / 2;
      if x >= y {
        assert (x - y) / 2 == x / 2 - y / 2;
      }
    }
  }

  /** A multiple of 2^o is either a multiple of 2^(o+1) or halfway between two. */
  lemma {:induction false} HalfOrWhole(x: nat, o: nat)
    requires Low(x, o) == 0
    ensures Low(x, o + 1) == 0 || Low(x, o + 1) == Pow2(o)
    ensures Low(x, o + 1) == 0 ==> Low(x + Pow2(o), o + 1) == Pow2(o)
    ensures Low(x, o + 1) == Pow2(o) ==> x >= Pow2(o) && Low(x - Pow2(o), o + 1) == 0
  {
    hide Low, Pow2;
    if o == 0 {
      OneBit(x);
    } else {
      IsEven(x, o);
      var y := x / 2;
      LowDoubles(y, o - 1);
      HalfOrWhole(y, o - 1);
      Pow2Doubles(o - 1);
      LowDoubles(y, o);
      LowDoubles(y + Pow2(o - 1), o);
      if y >= Pow2(o - 1) { LowDoubles(y - Pow2(o - 1), o); }
    }
  }

  lemma OneBit(x: nat)
    ensures Pow2(0) == 1 && Low(x, 1) == x % 2 && Low(x + 1, 1) == (x + 1) % 2
    ensures x > 0 ==> Low(x - 1, 1) == (x - 1) % 2
  {}

  lemma IsEven(x: nat, o: nat)
    requires Low(x, o) == 0 && o > 0
    ensures x % 2 == 0
  {}

  // ----- blocks -----

  /** The 2^order pages that start at page number head. */
  datatype Block = Block(head: nat, order: nat) {
    function End(): nat { head + Pow2(order) }

    predicate Covers(p: int) { head <= p < End() }

    predicate Aligned() { Low(head, order) == 0 }

    predicate Inside(other: Block) { other.head <= head && End() <= other.End() }

    predicate Apart(other: Block) { End() <= other.head || other.End() <= head }

    /** The other half of the block this one is half of. */
    function Buddy(): Block {
      if Low(head, order + 1) < Pow2(order)
      then Block(head + Pow2(order), order)
      else Block(head - Pow2(order), order)
    }

    /** The block twice as large that contains an aligned block. */
    function Parent(): Block {
      Block(head - Low(head, order + 1), order + 1)
    }
  }

  /** Naturally aligned blocks are nested or apart. */
  lemma NestedOrApart(x: Block, y: Block)
    requires x.Aligned() && y.Aligned() && x.order <= y.order
    ensures x.Inside(y) || x.Apart(y)
  {
    AlignedBelow(y.head, x.order, y.order);
    Pow2Grows(x.order, y.order);
    MultiplesAdd(y.head, Pow2(y.order), x.order);
    if x.head < y.End() {
      MultiplesApart(x.head, y.End(), x.order);
    }
    if x.head < y.head {
      MultiplesApart(x.head, y.head, x.order);
    }
  }

  /** An aligned block is the lower or the upper half of its parent. */
  lemma BuddyCases(x: Block)
    requires x.Aligned()
    ensures var m := Pow2(x.order);
            if Low(x.head, x.order + 1) == 0
            then x.Buddy() == Block(x.head + m, x.order) && x.Parent() == Block(x.head, x.order + 1)
            else x.head >= m && x.Buddy() == Block(x.head - m, x.order) && x.Parent() == Block(x.head - m, x.order + 1)
    ensures x.Buddy().Aligned() && x.Parent().Aligned()
    ensures Low(x.head, x.order + 1) == 0 <==> Low(x.Buddy().head, x.order + 1) != 0
  {
    var m := Pow2(x.order);
    hide Low, Pow2;
    Pow2Grows(x.order, x.order);
    HalfOrWhole(x.head, x.order);
    MultiplesAdd(x.head, m, x.order);
  }

  /** A block and its buddy are apart, aligned, and together make up the parent. */
  lemma BuddyFacts(x: Block)
    requires x.Aligned()
    ensures x.Buddy().Aligned() && x.Parent().Aligned()
    ensures x.Buddy().Buddy() == x && x.Buddy().Parent() == x.Parent()
    ensures x.Parent().head == x.head || x.Parent().head == x.Buddy().head
    ensures x.Parent().head == x.head ==> x.Buddy().head == x.head + Pow2(x.order)
    ensures x.Parent().head == x.Buddy().head ==> x.head == x.Buddy().head + Pow2(x.order)
    ensures x.Parent().End() == x.Parent().head + 2 * Pow2(x.order)
  {
    BuddyCases(x);
    BuddyCases(x.Buddy());
    assert Pow2(x.order + 1) == 2 * Pow2(x.order);
    hide Low, Pow2, Block.Buddy;
  }

  // ----- what the C expressions compute on an aligned block -----

  /** Halving both the page number and the size of an aligned block. */
  function Halved(x: Block): Block
    requires x.order > 0
  {
    Block(x.head / 2, x.order - 1)
  }

  lemma HalvedFacts(x: Block)
    requires x.Aligned() && x.order > 0
    ensures x.head % 2 == 0 && Halved(x).Aligned()
    ensures x.Buddy().head == 2 * Halved(x).Buddy().head
    ensures x.Parent().head == 2 * Halved(x).Parent().head
    ensures Pow2(x.order) == 2 * Pow2(x.order - 1)
  {
    BuddyFacts(x);
    BuddyFacts(Halved(x));
  }

  /** `^` of two even numbers. */
  lemma XorEven(x: nat, y: nat)
    ensures Xor(2 * x, 2 * y) == 2 * Xor(x, y)
  {}

  lemma XorFirst(x: Block)
    requires x.Aligned() && x.order == 0
    ensures Xor(x.head, Pow2(x.order)) == x.Buddy().head
  {
    BuddyFacts(x);
    assert Pow2(1) == 2;
    XorZero(x.head / 2);
  }

  /** `^ (1 << order)` names the buddy. */
  lemma {:induction false} XorNamesBuddy(x: Block)
    requires x.Aligned()
    ensures Xor(x.head, Pow2(x.order)) == x.Buddy().head
    decreases x.order
  {
    hide Low, Block.Buddy, Block.Parent, Xor, Pow2;
    if x.order == 0 {
      XorFirst(x);
    } else {
      HalvedFacts(x);
      XorNamesBuddy(Halved(x));
      XorEven(x.head / 2, Pow2(x.order - 1));
    }
  }

  lemma {:induction false} XorZero(x: nat)
    ensures Xor(x, 0) == x
  {
    if x > 0 { XorZero(x / 2); }
  }

  /** `&` of a block's page number and its buddy's is the head of the parent. */
  lemma {:induction false} AndNamesParent(x: Block)
    requires x.Aligned()
    ensures And(x.head, x.Buddy().head) == x.Parent().head
    decreases x.order
  {
    BuddyFacts(x);
    if x.order == 0 {
      assert Pow2(1) == 2;
      AndSelf(x.head / 2);
      assert x.Buddy().head / 2 == x.head / 2;
    } else {
      HalvedFacts(x);
      AndNamesParent(Halved(x));
    }
  }

  lemma {:induction false} AndSelf(x: nat)
    ensures And(x, x) == x
  {
    if x > 0 { AndSelf(x / 2); }
  }

  /** `& (1 << order)` keeps only the bit that tells the two halves of a parent apart. */
  lemma {:induction false} AndPicksBit(x: Block)
    requires x.Aligned()
    ensures And(x.head, Pow2(x.order)) == if x.head == x.Parent().head then 0 else Pow2(x.order)
    decreases x.order
  {
    BuddyFacts(x);
    if x.order == 0 {
      assert Pow2(1) == 2;
    } else {
      HalvedFacts(x);
      AndPicksBit(Halved(x));
    }
  }
}
