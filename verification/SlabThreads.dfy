/** The free objects of a slab, threaded through the slab's own memory
    (src/kernel/mm/slab.c:32-115, 170-224). */
module SlabThreads {
  import opened Outcomes
  import opened SimpleLists
  import opened SlabCaches

  /** Address of slot k. */
  function SlotAddr(first: nat, size: nat, k: nat): (a: nat)
    ensures a == Obj(first, k, size).Addr()
  {
    first * PAGE + k * size
  }

  /** The addresses of the free objects, first to be handed out first. */
  function Addrs(s: Slab, size: nat): (t: seq<nat>)
    ensures |t| == |s.freeList|
    ensures forall i | 0 <= i < |t| :: t[i] == SlotAddr(s.first, size, s.freeList[i])
  {
    seq(|s.freeList|, i requires 0 <= i < |s.freeList| => SlotAddr(s.first, size, s.freeList[i]))
  }

  lemma SlotsDiffer(first: nat, size: nat, j: nat, k: nat)
    requires size > 0 && j != k
    ensures SlotAddr(first, size, j) != SlotAddr(first, size, k)
  {
    if j < k { MulMonotone(j + 1, k, size); } else { MulMonotone(k + 1, j, size); }
  }

  lemma NextSlot(first: nat, size: nat, k: nat)
    ensures SlotAddr(first, size, k) + size == SlotAddr(first, size, k + 1)
  {}

  lemma AddrsDiffer(s: Slab, size: nat)
    requires size > 0 && s.first > 0
    requires forall i, j | 0 <= i < j < |s.freeList| :: s.freeList[i] != s.freeList[j]
    ensures NoRepeats(Addrs(s, size)) && forall i | 0 <= i < |s.freeList| :: Addrs(s, size)[i] > 0
  {
    var t := Addrs(s, size);
    forall i, j | 0 <= i < j < |t| ensures t[i] != t[j] {
      SlotsDiffer(s.first, size, s.freeList[i], s.freeList[j]);
    }
  }

  /** free_obj_from_slab on an object of slot k. */
  function Pushed(s: Slab, k: nat): Slab {
    s.(freeCount := s.freeCount + 1, freeList := [k] + s.freeList)
  }

  /** Giving back the object that was handed out last restores the slab. */
  lemma PopThenPush(s: Slab)
    requires s.freeList != [] && s.freeCount > 0
    ensures Pushed(Popped(s).0, Popped(s).1) == s
  {
    assert [s.freeList[0]] + s.freeList[1..] == s.freeList;
  }

  /** The code takes back any address in the region. That leaves a good slab exactly when
      the address is that of an object in use. */
  lemma PushKeepsIff(s: Slab, c: Cache, k: nat)
    requires SlabOk(s, c)
    ensures SlabOk(Pushed(s, k), c) <==> k < c.perSlab && k !in s.freeList
  {
    var t := Pushed(s, k).freeList;
    assert t[0] == k && forall i | 0 < i < |t| :: t[i] == s.freeList[i - 1];
    if SlabOk(Pushed(s, k), c) {
      forall i | 0 <= i < |s.freeList| ensures s.freeList[i] != k { assert t[0] != t[i + 1]; }
    }
  }

  /** The first n elements of t are linked. */
  ghost predicate LinkedUpTo(next: map<nat, nat>, t: seq<nat>, n: nat) {
    n <= |t| && forall j | 0 <= j < n :: NextAt(next, t, j)
  }

  lemma NoneLinked(next: map<nat, nat>, t: seq<nat>)
    ensures LinkedUpTo(next, t, 0) && OnlyAt(next, next, t)
  {}

  lemma LinkOneMore(before: map<nat, nat>, next: map<nat, nat>, t: seq<nat>, n: nat)
    requires LinkedUpTo(next, t, n) && OnlyAt(before, next, t) && NoRepeats(t) && n < |t| && t[n] != NIL
    ensures LinkedUpTo(next[t[n] := Succ(t, n)], t, n + 1) && OnlyAt(before, next[t[n] := Succ(t, n)], t)
  {
    var next' := next[t[n] := Succ(t, n)];
    forall j | 0 <= j < n ensures NextAt(next', t, j) {
      assert NextAt(next, t, j) && t[j] != t[n];
    }
  }

  lemma AllLinked(next: map<nat, nat>, t: seq<nat>)
    requires LinkedUpTo(next, t, |t|) && NoRepeats(t)
    ensures IsList(next, HeadOf(t), t)
  {}

  /** struct Slab and the memory its objects lie in. */
  class ThreadedSlab {
    const memory: Memory
    var first: nat          // slab->vregion, by its first page
    var pages: nat          //   and its size
    var freeCount: nat      // free_objs_count
    var freeList: nat       // free_objs_list

    constructor (memory: Memory)
      ensures this.memory == memory
    {
      this.memory := memory;
      first, pages, freeCount, freeList := 0, 0, 0, NIL;
    }

    /** The struct and the memory represent the slab s of objects of that size. */
    ghost predicate Holds(s: Slab, size: nat)
      reads this, memory
    {
      && first == s.first && pages == s.pages && freeCount == s.freeCount == |s.freeList|
      && IsList(memory.next, freeList, Addrs(s, size))
    }

    /** Lines 87-105: links the free slots from used on. */
    method Thread(size: nat, used: nat)
      requires first > 0 && size > 0 && used < Capacity(pages, size) && freeCount == Capacity(pages, size) - used
      modifies `freeList, memory
      ensures Holds(NewSlab(first, pages, size, used), size)
      ensures OnlyAt(old(memory.next), memory.next, Addrs(NewSlab(first, pages, size, used), size))
    {
      ghost var s := NewSlab(first, pages, size, used);
      ghost var t, before := Addrs(s, size), memory.next;
      AddrsDiffer(s, size);
      assert t[0] == SlotAddr(first, size, used);
      hide Capacity, Addrs, LinkedUpTo, OnlyAt, NoRepeats;
      NoneLinked(before, t);
      var current := first * PAGE + used * size;
      freeList := current;
      var i := 1;
      while i < freeCount
        invariant 1 <= i <= freeCount && current == t[i - 1] && freeList == t[0]
        invariant LinkedUpTo(memory.next, t, i - 1) && OnlyAt(before, memory.next, t)
      {
        NextSlot(first, size, used + i - 1);
        var nextObj := current + size;
        LinkOneMore(before, memory.next, t, i - 1);
        memory.next := memory.next[current := nextObj];
        current := nextObj;
        i := i + 1;
      }
      LinkOneMore(before, memory.next, t, i - 1);
      memory.next := memory.next[current := NIL];
      AllLinked(memory.next, t);
    }

    /** initialize_slab. Ok(false) is its NULL; Halted is a failed KASSERT. */
    method Initialize(vpn: nat, nbrPages: nat, size: nat, used: nat) returns (r: Outcome<bool>)
      requires size > 0 && used <= Capacity(nbrPages, size)
      modifies this, memory
      ensures r.Halted? <==> vpn == 0 || (nbrPages * PAGE >= size && used == Capacity(nbrPages, size))
      ensures r == Ok(false) <==> vpn > 0 && nbrPages * PAGE < size
      ensures r == Ok(true) ==> Holds(NewSlab(vpn, nbrPages, size, used), size)
      ensures r == Ok(true) ==> OnlyAt(old(memory.next), memory.next, Addrs(NewSlab(vpn, nbrPages, size, used), size))
      ensures r == Ok(true) ==>
                && first == vpn && pages == nbrPages && freeCount == nbrPages * 4096 / size - used
                && IsList(memory.next, freeList, seq(freeCount, i => vpn * 4096 + (used + i) * size))
    {
      if vpn == 0 {
        return Halted(Misuse);
      }
      freeCount := nbrPages * PAGE / size - used;
      first, pages, freeList := vpn, nbrPages, NIL;
      if nbrPages * PAGE < size {
        return Ok(false);
      }
      if freeCount == 0 {
        // The list gets one element, which lies behind the last slot, and is not as
        // long as the count says.
        freeList := vpn * PAGE + used * size;
        memory.next := memory.next[freeList := NIL];
        return Halted(Misuse);
      }
      Thread(size, used);
      assert Addrs(NewSlab(vpn, nbrPages, size, used), size) == seq(freeCount, i => vpn * 4096 + (used + i) * size);
      var n := memory.Length(freeList, Addrs(NewSlab(vpn, nbrPages, size, used), size));
      return if n == freeCount then Ok(true) else Halted(Misuse);
    }

    /** alloc_obj_from_slab; NIL is its NULL. */
    method AllocObj(size: nat, ghost s: Slab) returns (obj: nat)
      requires Holds(s, size)
      modifies this, memory
      ensures s.freeCount == 0 ==> obj == NIL && Holds(s, size)
      ensures s.freeCount > 0 ==>
                && obj == SlotAddr(s.first, size, Popped(s).1) && Holds(Popped(s).0, size)
                && OnlyAt(old(memory.next), memory.next, [obj])
      ensures s.freeCount > 0 ==>
                && |s.freeList| > 0 && obj == s.first * 4096 + s.freeList[0] * size == old(freeList)
                && freeCount == old(freeCount) - 1
    {
      obj := NIL;
      if freeCount > 0 {
        freeList, obj := memory.PopHead(freeList, Addrs(s, size));
        freeCount := freeCount - 1;
        assert Addrs(s, size)[1..] == Addrs(Popped(s).0, size);
      }
    }

    /** free_obj_from_slab on any address; Halted is its KASSERT. Whatever address in the
        slab's pages it is given, that becomes the first free object. */
    method FreeObj(obj: nat, size: nat, ghost s: Slab) returns (r: Outcome<bool>)
      requires Holds(s, size) && s.first > 0 && size > 0
      modifies this, memory
      ensures r.Halted? <==> obj == NIL
      ensures r == Ok(true) <==> obj != NIL && s.first <= obj / PAGE <= s.first + s.pages - 1
      ensures r == Ok(true) ==>
                && freeList == obj && freeCount == old(freeCount) + 1
                   && memory.next == old(memory.next)[obj := old(freeList)]
                && first == old(first) && pages == old(pages)
      ensures r == Ok(true) ==>
                forall k: nat | obj == SlotAddr(s.first, size, k) && k !in s.freeList :: Holds(Pushed(s, k), size)
      ensures r != Ok(true) ==> Holds(s, size) && memory.next == old(memory.next)
    {
      if obj == NIL {
        return Halted(Misuse);
      }
      if first <= obj / PAGE && obj / PAGE <= first + pages - 1 {
        freeCount := freeCount + 1;
        freeList := memory.PushHead(freeList, obj, Addrs(s, size));
        forall k: nat | obj == SlotAddr(s.first, size, k) && k !in s.freeList ensures Holds(Pushed(s, k), size) {
          NotAmong(s, size, k);
          assert [obj] + Addrs(s, size) == Addrs(Pushed(s, k), size);
        }
        return Ok(true);
      }
      return Ok(false);
    }
  }

  lemma NotAmong(s: Slab, size: nat, k: nat)
    requires size > 0 && k !in s.freeList
    ensures SlotAddr(s.first, size, k) !in Addrs(s, size)
  {
    forall i | 0 <= i < |s.freeList| ensures Addrs(s, size)[i] != SlotAddr(s.first, size, k) {
      SlotsDiffer(s.first, size, s.freeList[i], k);
    }
  }

  /** An object in use lies in pages of the slab, so free_obj_from_slab takes it back. */
  lemma SlotIsInSlab(s: Slab, size: nat, k: nat)
    requires size > 0 && k < Capacity(s.pages, size)
    ensures s.first <= SlotAddr(s.first, size, k) / PAGE <= s.first + s.pages - 1
  {
    SlotInside(Obj(s.first, k, size), s.pages);
  }
}
