/** _vregion_alloc on the linked lists it works on (src/kernel/mm/virtual_pages.c:83-99,
    222-256, src/include/kernel/list.h:51-96). Module VirtualRegions has the same operations
    on sequences of regions. */
module RegionLists {
  import opened Outcomes
  import opened SimpleLists
  import opened VirtualRegions

  ghost predicate Known(regions: map<nat, Vregion>, s: seq<nat>) {
    forall i | 0 <= i < |s| :: s[i] in regions
  }

  /** The regions at the addresses s. */
  ghost function Vals(regions: map<nat, Vregion>, s: seq<nat>): (vs: seq<Vregion>)
    requires Known(regions, s)
    ensures |vs| == |s| && forall i | 0 <= i < |s| :: vs[i] == regions[s[i]]
  {
    seq(|s|, i requires 0 <= i < |s| => regions[s[i]])
  }

  /** Where list_insert_ordered puts a region. */
  ghost function Place(used: seq<Vregion>, el: Vregion): (k: nat)
    requires Inserted(used, el).Some?
    ensures k <= |used| && Inserted(used, el) == Some(used[..k] + [el] + used[k..])
  {
    if used == [] then
      assert used[..0] + [el] + used[0..] == [el];
      0
    else InsertPoint(used, el, 0).value
  }

  class Regions {
    const memory: Memory
    var regions: map<nat, Vregion>   // the structs by address
    var freeList: nat                // free_vregions
    var usedList: nat                // used_vregions

    constructor (memory: Memory)
      ensures this.memory == memory
    {
      this.memory := memory;
      regions, freeList, usedList := map[], NIL, NIL;
    }

    /** list_insert_ordered(usedList, el, vregion_cmp); false is a failed KASSERT of a
        comparison, with NULL if the loop walks off the end. */
    method InsertUsed(el: nat, ghost s: seq<nat>) returns (ok: bool)
      requires IsList(memory.next, usedList, s) && Known(regions, s) && el in regions && el != NIL && el !in s
      modifies `usedList, memory
      ensures ok <==> Inserted(Vals(regions, s), regions[el]).Some?
      ensures ok ==>
                var k := Place(Vals(regions, s), regions[el]);
                IsList(memory.next, usedList, s[..k] + [el] + s[k..])
      ensures OnlyAt(old(memory.next), memory.next, s + [el])
    {
      ghost var vs := Vals(regions, s);
      NoneIsNil(memory.next, usedList, s);
      if usedList == NIL {
        usedList := memory.PushHead(usedList, el, s);
        assert s[..0] + [el] + s[0..] == [el] + s;
        return true;
      }
      if !Comparable(regions[el], regions[usedList]) {
        return false;
      }
      if Cmp(regions[el], regions[usedList]) <= 0 {
        usedList := memory.PushHead(usedList, el, s);
        assert s[..0] + [el] + s[0..] == [el] + s;
        return true;
      }
      var prev, current := NIL, usedList;
      ghost var k := 0;
      while true
        invariant k <= |s| && current == HeadOf(s[k..]) && prev == if k == 0 then NIL else s[k - 1]
        invariant InsertPoint(vs, regions[el], 0) == InsertPoint(vs, regions[el], k)
        decreases |s| - k
      {
        if current == NIL || !Comparable(regions[el], regions[current]) {
          return false;
        }
        if Cmp(regions[el], regions[current]) <= 0 {
          break;
        }
        assert NextAt(memory.next, s, k);
        prev := current;
        current := memory.next[current];
        k := k + 1;
      }
      usedList := memory.InsertAfter(usedList, prev, el, s, k);
      return true;
    }

    /** The search of _vregion_alloc: the first free region with at least n pages, or NIL,
        and the region before it. */
    method Find(n: nat, ghost s: seq<nat>) returns (prev: nat, current: nat, ghost k: nat)
      requires IsList(memory.next, freeList, s) && Known(regions, s)
      ensures k == FitIndex(Vals(regions, s), n)
      ensures current == (if k < |s| then s[k] else NIL) && prev == if k == 0 then NIL else s[k - 1]
    {
      ghost var vs := Vals(regions, s);
      NoneIsNil(memory.next, freeList, s);
      prev, current, k := NIL, freeList, 0;
      while current != NIL
        invariant k <= |s| && current == HeadOf(s[k..]) && prev == if k == 0 then NIL else s[k - 1]
        invariant FitIndexFrom(vs, n, k) == FitIndex(vs, n)
        decreases |s| - k
      {
        if regions[current].pages >= n {
          break;
        }
        assert NextAt(memory.next, s, k);
        prev := current;
        current := memory.next[current];
        k := k + 1;
      }
    }

    /** Both lists, with no struct on both. */
    ghost predicate Lists(fs: seq<nat>, us: seq<nat>)
      reads this, memory
    {
      && IsList(memory.next, freeList, fs) && IsList(memory.next, usedList, us)
      && Known(regions, fs) && Known(regions, us) && (forall a | a in fs :: a !in us)
    }

    /** Lines 241-250: takes the region found off the free list and, if it is too large,
        cuts it in two and puts the upper part, a new struct, in its place. */
    method CutOut(n: nat, prev: nat, current: nat, upper: nat, ghost fs: seq<nat>, ghost us: seq<nat>, ghost k: nat)
      returns (ghost fs': seq<nat>)
      requires Lists(fs, us) && k < |fs| && current == fs[k] && prev == if k == 0 then NIL else fs[k - 1]
      requires upper != NIL && upper !in fs && upper !in us && regions[current].pages >= n
      modifies `freeList, `regions, memory
      ensures Lists(fs', us) && current !in fs' && current !in us && current in regions
      ensures Vals(regions, fs') == Trimmed(old(Vals(regions, fs)), k, n)
      ensures Vals(regions, us) == old(Vals(regions, us))
      ensures regions[current] == Vregion(old(regions)[current].first, n)
    {
      ghost var next0, regions0 := memory.next, regions;
      fs' := Without(fs, k);
      assert NoRepeats(fs);
      hide Trimmed, IsList, OnlyAt, NextAt;
      freeList := memory.DeleteEl(freeList, prev, current, fs, k);
      ListElsewhere(next0, memory.next, usedList, us, if k == 0 then [current] else [fs[k - 1], current]);
      if regions[current].pages > n {
        var r := regions[current];
        regions := regions[upper := Vregion(r.first + n, r.pages - n)];
        regions := regions[current := Vregion(r.first, n)];
        ghost var next1 := memory.next;
        freeList := memory.InsertAfter(freeList, prev, upper, fs', k);
        ListElsewhere(next1, memory.next, usedList, us, if k == 0 then [upper] else [fs'[k - 1], upper]);
        CutPart(regions0, fs, us, k, n, upper);
        fs' := fs'[..k] + [upper] + fs'[k..];
      } else {
        CutWhole(regions, fs, k, n);
      }
    }

    /** _vregion_alloc; upper is the struct its split would retrieve. Ok(None) is NULL. */
    method Take(n: nat, upper: nat, ghost fs: seq<nat>, ghost us: seq<nat>)
      returns (r: Outcome<Option<nat>>, ghost fs': seq<nat>, ghost us': seq<nat>)
      requires Lists(fs, us) && upper != NIL && upper !in fs && upper !in us
      modifies this, memory
      ensures r == Halted(NoRegion) <==> fs == []
      ensures r == Ok(None) <==> fs != [] && FitIndex(Vals(old(regions), fs), n) == |fs|
      ensures r == Ok(None) ==> Lists(fs, us) && regions == old(regions)
      ensures r.Ok? && r.value.Some? ==>
                Lists(fs', us')
                    && Taken(Vals(old(regions), fs), Vals(old(regions), us), n, Vals(regions, fs'), Vals(regions, us'))
      ensures r.Ok? && r.value.Some? ==>
                && FitIndex(Vals(old(regions), fs), n) < |fs| && r.value.value in us'
                && regions[r.value.value] == Vregion(Vals(old(regions), fs)[FitIndex(Vals(old(regions), fs), n)].first,
                                                     n)
      ensures r == Halted(Misuse) ==> CannotInsert(Vals(old(regions), fs), Vals(old(regions), us), n)
    {
      fs', us' := fs, us;
      hide IsList, Trimmed, Inserted, FitIndexFrom, OnlyAt;
      NoneIsNil(memory.next, freeList, fs);
      HeadIsNil(memory.next, freeList, fs);
      if freeList == NIL {
        return Halted(NoRegion), fs, us;
      }
      var prev, current, k := Find(n, fs);
      if current == NIL {
        return Ok(None), fs, us;
      }
      fs' := CutOut(n, prev, current, upper, fs, us, k);
      ghost var next1, free1 := memory.next, freeList;
      NoneIsNil(next1, usedList, us);
      var ok := InsertUsed(current, us);
      ListElsewhere(next1, memory.next, free1, fs', us + [current]);
      if !ok {
        return Halted(Misuse), fs', us;
      }
      ghost var at := Place(Vals(regions, us), regions[current]);
      us' := us[..at] + [current] + us[at..];
      PlacedValues(regions, us, current, at);
      r := Ok(Some(current));
    }
  }

  /** The regions of both lists before and after n pages were taken. */
  ghost predicate Taken(free: seq<Vregion>, used: seq<Vregion>, n: nat, free': seq<Vregion>, used': seq<Vregion>) {
    var i := FitIndex(free, n);
    && i < |free| && free' == Trimmed(free, i, n)
    && Inserted(used, Vregion(free[i].first, n)) == Some(used')
  }

  ghost predicate CannotInsert(free: seq<Vregion>, used: seq<Vregion>, n: nat) {
    var i := FitIndex(free, n);
    i < |free| && Inserted(used, Vregion(free[i].first, n)).None?
  }

  lemma HeadIsNil(next: map<nat, nat>, list: nat, s: seq<nat>)
    requires IsList(next, list, s)
    ensures list == NIL <==> s == []
  {
    NoneIsNil(next, list, s);
  }

  lemma PlacedValues(regions: map<nat, Vregion>, us: seq<nat>, el: nat, k: nat)
    requires Known(regions, us) && el in regions && k <= |us|
    ensures Known(regions, us[..k] + [el] + us[k..])
    ensures Vals(regions, us[..k] + [el] + us[k..]) == Vals(regions, us)[..k] + [regions[el]] + Vals(regions, us)[k..]
  {}

  function Without(s: seq<nat>, k: nat): (t: seq<nat>)
    requires k < |s|
    ensures t == s[..k] + s[k + 1..] && (forall a | a in t :: a in s) && (k > 0 ==> t[k - 1] == s[k - 1])
  {
    s[..k] + s[k + 1..]
  }

  lemma CutWhole(regions: map<nat, Vregion>, fs: seq<nat>, k: nat, n: nat)
    requires Known(regions, fs) && NoRepeats(fs) && k < |fs| && regions[fs[k]].pages == n
    ensures Known(regions, Without(fs, k)) && Vals(regions, Without(fs, k)) == Trimmed(Vals(regions, fs), k, n)
    ensures fs[k] !in Without(fs, k)
  {}

  lemma CutPart(regions: map<nat, Vregion>, fs: seq<nat>, us: seq<nat>, k: nat, n: nat, upper: nat)
    requires Known(regions, fs) && Known(regions, us) && NoRepeats(fs) && k < |fs| && regions[fs[k]].pages > n
    requires upper !in fs && upper !in us && fs[k] !in us
    ensures var r := regions[fs[k]];
            var regions' := regions[upper := Vregion(r.first + n, r.pages - n)][fs[k] := Vregion(r.first, n)];
            var fs' := Without(fs, k)[..k] + [upper] + Without(fs, k)[k..];
            && Known(regions', fs') && Vals(regions', fs') == Trimmed(Vals(regions, fs), k, n)
            && Known(regions', us) && Vals(regions', us) == Vals(regions, us)
            && fs[k] !in fs' && regions'[fs[k]] == Vregion(r.first, n)
  {}
}
