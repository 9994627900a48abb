/** Page descriptors and the circular doubly linked lists threaded through them
    (src/include/kernel/list.h:215-304). A link is a page number or NULL. */
module Clist {

  const NULL: int := -1

  /** struct Physical_page_dscr. A slab or mapping of 0 is C's NULL. */
  datatype Ppage = Ppage(head: bool, order: nat, count: nat, slab: nat, mapping: nat, prev: int, next: int)

  // ----- reading and writing through a link -----
  // Following NULL is undefined in C. Here it yields NULL and writes nothing; on the
  // lists IsClist describes it never happens.

  function Next(d: seq<Ppage>, i: int): int { if 0 <= i < |d| then d[i].next else NULL }

  function Prev(d: seq<Ppage>, i: int): int { if 0 <= i < |d| then d[i].prev else NULL }

  function SetNext(d: seq<Ppage>, i: int, v: int): (d': seq<Ppage>)
    ensures |d'| == |d|
  {
    if 0 <= i < |d| then d[i := d[i].(next := v)] else d
  }

  function SetPrev(d: seq<Ppage>, i: int, v: int): (d': seq<Ppage>)
    ensures |d'| == |d|
  {
    if 0 <= i < |d| then d[i := d[i].(prev := v)] else d
  }

  // ----- the macros -----

  /** clist_push_tail and clist_push_head write the same links; they differ in whether
      the new element becomes the head (PushedTail, PushedHead). */
  function Push(d: seq<Ppage>, list: int, el: int): (d': seq<Ppage>)
    ensures |d'| == |d|
  {
    if list != NULL then
      var d1 := SetNext(d, el, list);
      var d2 := SetPrev(d1, el, Prev(d1, list));
      var d3 := SetNext(d2, Prev(d2, list), el);
      SetPrev(d3, list, el)
    else
      SetPrev(SetNext(d, el, el), el, el)
  }

  function PushedTail(list: int, el: int): int { if list != NULL then list else el }

  /** clist_delete_el. */
  function Delete(d: seq<Ppage>, list: int, el: int): (d': seq<Ppage>)
    ensures |d'| == |d|
  {
    if Prev(d, list) == list && Next(d, list) == list then
      SetNext(SetPrev(d, el, NULL), el, NULL)
    else
      var d1 := SetNext(d, Prev(d, el), Next(d, el));
      SetPrev(d1, Next(d1, el), Prev(d1, el))
  }

  function Deleted(d: seq<Ppage>, list: int, el: int): int {
    if Prev(d, list) == list && Next(d, list) == list then NULL
    else if list == el then Next(Delete(d, list, el), list)
    else list
  }

  ghost predicate IsPage(d: seq<Ppage>, i: int) { 0 <= i < |d| }

  /** clist_delete_el would follow NULL, or another link that names no page. */
  ghost predicate DeleteFollows(d: seq<Ppage>, list: int, el: int) {
    || !IsPage(d, list)
    || (!(Prev(d, list) == list && Next(d, list) == list) && !(IsPage(d, Prev(d, el)) && IsPage(d, Next(d, el))))
  }

  /** clist_push_tail would. */
  ghost predicate PushFollows(d: seq<Ppage>, list: int) {
    list != NULL && !(IsPage(d, list) && IsPage(d, Prev(d, list)))
  }

  // ----- what a list means -----

  function After(i: nat, n: nat): nat { if i + 1 == n then 0 else i + 1 }

  function Before(i: nat, n: nat): nat
    requires n > 0
  {
    if i == 0 then n - 1 else i - 1
  }

  ghost predicate Distinct(s: seq<nat>) {
    forall i, j | 0 <= i < j < |s| :: s[i] != s[j]
  }

  /** Element i of the list s points at both its neighbours. */
  ghost predicate LinkedAt(d: seq<Ppage>, s: seq<nat>, i: nat)
    requires i < |s|
  {
    s[i] < |d| && d[s[i]].next == s[After(i, |s|)] && d[s[i]].prev == s[Before(i, |s|)]
  }

  /** list is the head of a circular list whose elements are s, in order. */
  ghost predicate IsClist(d: seq<Ppage>, list: int, s: seq<nat>) {
    && list == (if s == [] then NULL else s[0])
    && Distinct(s)
    && (forall i | 0 <= i < |s| :: LinkedAt(d, s, i))
  }

  /** d' differs from d in nothing but links, and in no link outside s. */
  ghost predicate OnlyLinks(d: seq<Ppage>, d': seq<Ppage>, s: seq<nat>) {
    && |d'| == |d|
    && (forall i | 0 <= i < |d| :: d'[i] == d[i].(prev := d'[i].prev, next := d'[i].next))
    && (forall i: nat | i < |d| && i !in s :: d'[i] == d[i])
  }

  function Without(s: seq<nat>, k: nat): seq<nat>
    requires k < |s|
  {
    s[..k] + s[k + 1..]
  }

  // ----- the macros refine sequence operations -----

  lemma DeleteIsSafe(d: seq<Ppage>, list: int, s: seq<nat>, k: nat)
    requires IsClist(d, list, s) && k < |s|
    ensures s[k] < |d| && !DeleteFollows(d, list, s[k])
  {
    assert LinkedAt(d, s, 0) && LinkedAt(d, s, k);
    assert LinkedAt(d, s, Before(k, |s|)) && LinkedAt(d, s, After(k, |s|));
  }

  lemma PushIsSafe(d: seq<Ppage>, list: int, s: seq<nat>)
    requires IsClist(d, list, s)
    ensures !PushFollows(d, list)
  {
    if s != [] {
      assert LinkedAt(d, s, 0) && LinkedAt(d, s, Before(0, |s|));
    }
  }

  lemma PushWrites(d: seq<Ppage>, list: int, s: seq<nat>, el: nat)
    requires IsClist(d, list, s) && s != [] && el !in s && el < |d|
    ensures var first, last, d' := s[0], s[|s| - 1], Push(d, list, el);
            forall x: nat | x < |d| ::
              d'[x] == d[x].(next := if x == last then el else if x == el then first else d[x].next,
                             prev := if x == first then el else if x == el then last else d[x].prev)
  {
    assert LinkedAt(d, s, 0) && LinkedAt(d, s, |s| - 1);
    assert s[0] in s && s[|s| - 1] in s;
  }

  lemma PushRelinks(d: seq<Ppage>, list: int, s: seq<nat>, el: nat, i: nat)
    requires IsClist(d, list, s) && s != [] && el !in s && el < |d| && i <= |s|
    ensures LinkedAt(Push(d, list, el), s + [el], i)
  {
    PushWrites(d, list, s, el);
    hide Push;
    var n, t := |s|, s + [el];
    if i < n {
      assert LinkedAt(d, s, i) && s[i] in s;
      assert i != 0 ==> s[i] != s[0];
      assert i != n - 1 ==> s[i] != s[n - 1];
    } else {
      assert LinkedAt(d, s, 0) && LinkedAt(d, s, n - 1);
    }
  }

  lemma PushAppends(d: seq<Ppage>, list: int, s: seq<nat>, el: nat)
    requires IsClist(d, list, s) && el !in s && el < |d|
    ensures IsClist(Push(d, list, el), PushedTail(list, el), s + [el])
    ensures OnlyLinks(d, Push(d, list, el), s + [el])
  {
    if s != [] {
      forall i | 0 <= i <= |s| ensures LinkedAt(Push(d, list, el), s + [el], i) {
        PushRelinks(d, list, s, el, i);
      }
      PushWrites(d, list, s, el);
      assert s[0] in s + [el] && s[|s| - 1] in s + [el] && el in s + [el];
      hide Push, LinkedAt;
    } else {
      assert el in [el];
    }
  }

  /** Pushing at the head is pushing at the tail seen from the new element. */
  lemma PushPrepends(d: seq<Ppage>, list: int, s: seq<nat>, el: nat)
    requires IsClist(d, list, s) && el !in s && el < |d|
    ensures IsClist(Push(d, list, el), el, [el] + s)
  {
    PushAppends(d, list, s, el);
    var d', t, u := Push(d, list, el), s + [el], [el] + s;
    hide Push, OnlyLinks;
    forall i | 0 <= i < |u| ensures LinkedAt(d', u, i) { TurnedBack(d', t, u, i); }
    FirstIsNew(s, el);
  }

  /** The last element put first. */
  lemma TurnedBack(d: seq<Ppage>, t: seq<nat>, u: seq<nat>, i: nat)
    requires |t| == |u| > i && forall j: nat | j < |u| :: u[j] == t[Before(j, |u|)]
    requires LinkedAt(d, t, Before(i, |u|))
    ensures LinkedAt(d, u, i)
  {}

  lemma FirstIsNew(s: seq<nat>, el: nat)
    requires Distinct(s) && el !in s
    ensures Distinct([el] + s)
  {}

  lemma DeleteWrites(d: seq<Ppage>, list: int, s: seq<nat>, k: nat)
    requires IsClist(d, list, s) && k < |s| && |s| > 1
    ensures var p, q, d' := s[Before(k, |s|)], s[After(k, |s|)], Delete(d, list, s[k]);
            forall x: nat | x < |d| ::
              d'[x] == d[x].(next := if x == p then q else d[x].next, prev := if x == q then p else d[x].prev)
    ensures Deleted(d, list, s[k]) == if k == 0 then s[1] else s[0]
    ensures s[Before(k, |s|)] != s[k] && s[After(k, |s|)] != s[k]
  {
    var n := |s|;
    assert LinkedAt(d, s, 0) && LinkedAt(d, s, k);
    assert LinkedAt(d, s, Before(k, n)) && LinkedAt(d, s, After(k, n));
    assert s[0] != s[1];
  }

  /** Where element i of Without(s, k) is in s. */
  function Skip(k: nat, i: nat): nat { if i < k then i else i + 1 }

  lemma SkipNeighbours(s: seq<nat>, k: nat, i: nat)
    requires k < |s| && |s| > 1 && i < |s| - 1
    ensures var n, t, j := |s|, Without(s, k), Skip(k, i);
            && t[i] == s[j]
            && t[After(i, n - 1)] == s[if j == Before(k, n) then After(k, n) else After(j, n)]
            && t[Before(i, n - 1)] == s[if j == After(k, n) then Before(k, n) else Before(j, n)]
  {}

  /** The links of element j once element k is deleted. */
  lemma DeleteWritesAt(d: seq<Ppage>, list: int, s: seq<nat>, k: nat, j: nat)
    requires IsClist(d, list, s) && k < |s| && |s| > 1 && j < |s|
    ensures var n, d' := |s|, Delete(d, list, s[k]);
            && s[j] < |d'|
            && d'[s[j]].next == s[if j == Before(k, n) then After(k, n) else After(j, n)]
            && d'[s[j]].prev == s[if j == After(k, n) then Before(k, n) else Before(j, n)]
  {
    DeleteWrites(d, list, s, k);
    hide Delete;
    var p, q := Before(k, |s|), After(k, |s|);
    assert LinkedAt(d, s, j);
    assert j != p ==> s[j] != s[p];
    assert j != q ==> s[j] != s[q];
  }

  lemma DeleteRelinks(d: seq<Ppage>, list: int, s: seq<nat>, k: nat, i: nat)
    requires IsClist(d, list, s) && k < |s| && |s| > 1 && i < |s| - 1
    ensures LinkedAt(Delete(d, list, s[k]), Without(s, k), i)
  {
    assert |Without(s, k)| == |s| - 1;
    SkipNeighbours(s, k, i);
    hide Delete, Without, After, Before, IsClist;
    DeleteWritesAt(d, list, s, k, Skip(k, i));
  }

  lemma WithoutDistinct(s: seq<nat>, k: nat)
    requires Distinct(s) && k < |s| && |s| > 1
    ensures Distinct(Without(s, k)) && |Without(s, k)| == |s| - 1
    ensures Without(s, k)[0] == if k == 0 then s[1] else s[0]
  {
    forall i, j | 0 <= i < j < |s| - 1 ensures Without(s, k)[i] != Without(s, k)[j] {
      assert s[Skip(k, i)] != s[Skip(k, j)];
    }
  }

  lemma DeleteOnlyLinks(d: seq<Ppage>, list: int, s: seq<nat>, k: nat)
    requires IsClist(d, list, s) && k < |s|
    ensures OnlyLinks(d, Delete(d, list, s[k]), s)
  {
    assert s[k] in s;
    if |s| == 1 {
      assert LinkedAt(d, s, 0);
    } else {
      DeleteWrites(d, list, s, k);
      assert s[Before(k, |s|)] in s && s[After(k, |s|)] in s;
      hide Delete;
    }
  }

  lemma DeleteRemoves(d: seq<Ppage>, list: int, s: seq<nat>, k: nat)
    requires IsClist(d, list, s) && k < |s|
    ensures IsClist(Delete(d, list, s[k]), Deleted(d, list, s[k]), Without(s, k))
    ensures OnlyLinks(d, Delete(d, list, s[k]), s)
  {
    DeleteOnlyLinks(d, list, s, k);
    hide OnlyLinks;
    if |s| == 1 {
      assert LinkedAt(d, s, 0);
      assert Without(s, k) == [];
    } else {
      WithoutDistinct(s, k);
      DeleteWrites(d, list, s, k);
      forall i | 0 <= i < |s| - 1 ensures LinkedAt(Delete(d, list, s[k]), Without(s, k), i) {
        DeleteRelinks(d, list, s, k, i);
      }
      hide Delete, Deleted, Without, LinkedAt;
    }
  }

  /** A list does not notice changes to pages it does not thread. */
  lemma ListUnaffected(d: seq<Ppage>, list: int, s: seq<nat>, d': seq<Ppage>)
    requires IsClist(d, list, s) && |d| <= |d'|
    requires forall p: nat | p in s && p < |d| :: d'[p].prev == d[p].prev && d'[p].next == d[p].next
    ensures IsClist(d', list, s)
  {
    forall i | 0 <= i < |s| ensures LinkedAt(d', s, i) {
      assert LinkedAt(d, s, i);
    }
  }
}
