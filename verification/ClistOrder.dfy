/** clist_insert_ordered (src/include/kernel/list.h:221-251, 284-304). */
module ClistOrder {
  import opened Clist

  // ----- a circular list may be entered anywhere -----

  function Rotated(s: seq<nat>, k: nat): (t: seq<nat>)
    requires k <= |s|
    ensures |t| == |s|
    ensures forall i | 0 <= i < |s| :: t[i] == s[if i + k < |s| then i + k else i + k - |s|]
  {
    s[k..] + s[..k]
  }

  lemma RotatedIsClist(d: seq<Ppage>, list: int, s: seq<nat>, k: nat)
    requires IsClist(d, list, s) && k < |s|
    ensures IsClist(d, s[k], Rotated(s, k))
  {
    var t := Rotated(s, k);
    hide Rotated;
    forall i | 0 <= i < |t| ensures LinkedAt(d, t, i) {
      assert LinkedAt(d, s, if i + k < |s| then i + k else i + k - |s|);
    }
  }

  /** Pushing at the head of the list seen from element k puts el before element k. */
  lemma PushedBefore(d: seq<Ppage>, list: int, s: seq<nat>, k: nat, el: nat)
    requires IsClist(d, list, s) && 0 < k < |s| && el !in s && el < |d|
    ensures IsClist(Push(d, s[k], el), list, s[..k] + [el] + s[k..])
  {
    var r, t := Rotated(s, k), [el] + Rotated(s, k);
    RotateBack(s, k, el);
    hide IsClist, Push, Rotated;
    RotatedIsClist(d, list, s, k);
    PushPrepends(d, s[k], r, el);
    RotatedIsClist(Push(d, s[k], el), el, t, |t| - k);
    HeadIs(d, list, s);
  }

  lemma RotateBack(s: seq<nat>, k: nat, el: nat)
    requires 0 < k < |s| && el !in s
    ensures el !in Rotated(s, k)
    ensures Rotated([el] + Rotated(s, k), |s| + 1 - k) == s[..k] + [el] + s[k..]
  {
    forall i | 0 <= i < |s| ensures Rotated(s, k)[i] != el {}
  }

  lemma HeadIs(d: seq<Ppage>, list: int, s: seq<nat>)
    requires IsClist(d, list, s) && s != []
    ensures list == s[0]
  {}

  // ----- order -----

  /** cmp orders the elements by rank. */
  ghost predicate Sorted(rank: seq<int>, s: seq<nat>) {
    && (forall i | 0 <= i < |s| :: s[i] < |rank|)
    && (forall i, j | 0 <= i < j < |s| :: rank[s[i]] <= rank[s[j]])
  }

  /** The number of elements that rank below el. */
  ghost function Below(rank: seq<int>, s: seq<nat>, el: nat): (k: nat)
    requires Sorted(rank, s) && el < |rank|
    ensures k <= |s|
    ensures forall i | 0 <= i < k :: rank[s[i]] < rank[el]
    ensures forall i | k <= i < |s| :: rank[el] <= rank[s[i]]
  {
    if s == [] then 0
    else if rank[el] <= rank[s[0]] then 0
    else 1 + Below(rank, s[1..], el)
  }

  ghost predicate Ranked(rank: seq<int>, s: seq<nat>) {
    forall i | 0 <= i < |s| :: s[i] < |rank|
  }

  /** The first element that does not rank below el. */
  ghost function FirstAtLeast(rank: seq<int>, s: seq<nat>, el: nat): (k: nat)
    requires Ranked(rank, s) && el < |rank|
    ensures k <= |s| && (k < |s| ==> rank[el] <= rank[s[k]])
    ensures forall i | 0 <= i < k :: rank[s[i]] < rank[el]
  {
    if s == [] || rank[el] <= rank[s[0]] then 0 else 1 + FirstAtLeast(rank, s[1..], el)
  }

  /** Where the macro puts el into a list that need not be sorted: at the front, or behind a
      last element that ranks below it, or before the first element that does not. */
  ghost function Position(rank: seq<int>, s: seq<nat>, el: nat): (k: nat)
    requires Ranked(rank, s) && el < |rank|
    ensures k <= |s|
  {
    if s == [] || rank[el] <= rank[s[0]] then 0
    else if rank[s[|s| - 1]] < rank[el] then |s|
    else FirstAtLeast(rank, s, el)
  }

  /** In a sorted list that is behind exactly the elements that rank below. */
  lemma PositionIsBelow(rank: seq<int>, s: seq<nat>, el: nat)
    requires Sorted(rank, s) && el < |rank|
    ensures Position(rank, s, el) == Below(rank, s, el)
  {
    var k, b := FirstAtLeast(rank, s, el), Below(rank, s, el);
    hide FirstAtLeast, Below;
  }

  /** The insertion keeps the list sorted and adds nothing but the element. */
  lemma InsertionSorts(rank: seq<int>, s: seq<nat>, el: nat)
    requires Sorted(rank, s) && el < |rank|
    ensures var k := Below(rank, s, el);
            var t := s[..k] + [el] + s[k..];
            Sorted(rank, t) && multiset(t) == multiset(s) + multiset{el}
  {
    var k := Below(rank, s, el);
    hide Below;
    SameElements(s, k, el);
    InsertedSorted(rank, s, k, el);
  }

  lemma SameElements(s: seq<nat>, k: nat, el: nat)
    requires k <= |s|
    ensures multiset(s[..k] + [el] + s[k..]) == multiset(s) + multiset{el}
  {
    assert s[..k] + s[k..] == s;
  }

  lemma InsertedSorted(rank: seq<int>, s: seq<nat>, k: nat, el: nat)
    requires Sorted(rank, s) && el < |rank| && k <= |s|
    requires (forall i | 0 <= i < k :: rank[s[i]] < rank[el]) && (forall i | k <= i < |s| :: rank[el] <= rank[s[i]])
    ensures Sorted(rank, s[..k] + [el] + s[k..])
  {
    var t := s[..k] + [el] + s[k..];
    assert forall i | 0 <= i < |t| :: t[i] == if i < k then s[i] else if i == k then el else s[i - 1];
  }

  // ----- the macros -----

  method PushHead(d: array<Ppage>, list: int, el: nat, ghost s: seq<nat>) returns (list': int)
    requires el < d.Length && IsClist(d[..], list, s)
    modifies d
    ensures d[..] == Push(old(d[..]), list, el) && list' == el
  {
    if list != NULL {
      assert LinkedAt(d[..], s, 0) && LinkedAt(d[..], s, |s| - 1);
      d[el] := d[el].(next := list);
      d[el] := d[el].(prev := d[list].prev);
      var tail := d[list].prev;
      d[tail] := d[tail].(next := el);
      d[list] := d[list].(prev := el);
    } else {
      d[el] := d[el].(next := el);
      d[el] := d[el].(prev := el);
    }
    list' := el;
  }

  /** clist_push_tail writes what clist_push_head does, and keeps the head. */
  method PushTail(d: array<Ppage>, list: int, el: nat, ghost s: seq<nat>) returns (list': int)
    requires el < d.Length && IsClist(d[..], list, s)
    modifies d
    ensures d[..] == Push(old(d[..]), list, el) && list' == PushedTail(list, el)
  {
    var head := PushHead(d, list, el, s);
    list' := if list != NULL then list else el;
  }

  method InsertOrdered(d: array<Ppage>, list: int, el: nat, rank: seq<int>, ghost s: seq<nat>) returns (list': int)
    requires el < d.Length == |rank| && IsClist(d[..], list, s) && el !in s
    modifies d
    ensures Ranked(rank, s)
    ensures var k := Position(rank, s, el); IsClist(d[..], list', s[..k] + [el] + s[k..])
  {
    ghost var d0 := d[..];
    AllRanked(d0, list, s, rank);
    hide Push, Rotated, IsClist, FirstAtLeast, Ranked;
    if list == NULL || rank[el] - rank[list] <= 0 {
      list' := PushFirst(d, list, el, s);
      return;
    }
    if rank[el] - rank[d[list].prev] > 0 {
      PushAppends(d0, list, s, el);
      list' := PushTail(d, list, el, s);
      assert s[..|s|] + [el] + s[|s|..] == s + [el];
      return;
    }
    var current, k := FirstNotBelow(d, list, el, rank, s);
    PushedBefore(d0, list, s, k, el);
    RotatedIsClist(d0, list, s, k);
    current := PushHead(d, current, el, Rotated(s, k));
    list' := list;
  }

  /** The elements of a list are pages, and the head's prev is the last of them. */
  lemma AllRanked(d: seq<Ppage>, list: int, s: seq<nat>, rank: seq<int>)
    requires IsClist(d, list, s) && |rank| == |d|
    ensures Ranked(rank, s)
    ensures if s == [] then list == NULL else list == s[0] < |d| && d[list].prev == s[|s| - 1] < |d|
  {
    forall i | 0 <= i < |s| ensures s[i] < |rank| { assert LinkedAt(d, s, i); }
    if s != [] { assert LinkedAt(d, s, 0); }
  }

  /** The first two branches: the new element becomes the head. */
  method PushFirst(d: array<Ppage>, list: int, el: nat, ghost s: seq<nat>) returns (list': int)
    requires el < d.Length && IsClist(d[..], list, s) && el !in s
    modifies d
    ensures IsClist(d[..], list', s[..0] + [el] + s[0..])
  {
    hide Push, IsClist;
    PushPrepends(d[..], list, s, el);
    list' := PushHead(d, list, el, s);
    assert s[..0] + [el] + s[0..] == [el] + s;
  }

  /** The loop of clist_insert_ordered. */
  method FirstNotBelow(d: array<Ppage>, list: int, el: nat, rank: seq<int>, ghost s: seq<nat>)
    returns (current: int, ghost k: nat)
    requires el < d.Length == |rank| && IsClist(d[..], list, s) && Ranked(rank, s) && s != []
    requires rank[s[0]] < rank[el] <= rank[s[|s| - 1]]
    ensures k == FirstAtLeast(rank, s, el) && 0 < k < |s| && current == s[k]
  {
    current, k := list, 0;
    while rank[el] - rank[current] > 0
      invariant k < |s| && current == s[k] && forall i | 0 <= i < k :: rank[s[i]] < rank[el]
      decreases |s| - k
    {
      assert LinkedAt(d[..], s, k);
      current := d[current].next;
      k := k + 1;
    }
    hide FirstAtLeast;
    var first := FirstAtLeast(rank, s, el);
  }
}
