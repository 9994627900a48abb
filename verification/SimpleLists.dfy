/** Singly linked lists threaded through memory (src/include/kernel/list.h:16-131). */
module SimpleLists {

  const NIL: nat := 0

  function HeadOf(s: seq<nat>): nat { if s == [] then NIL else s[0] }

  /** The successor of element i. */
  function Succ(s: seq<nat>, i: nat): nat { if i + 1 < |s| then s[i + 1] else NIL }

  ghost predicate NextAt(next: map<nat, nat>, s: seq<nat>, i: nat)
    requires i < |s|
  {
    s[i] != NIL && s[i] in next && next[s[i]] == Succ(s, i)
  }

  ghost predicate NoRepeats(s: seq<nat>) {
    forall i, j | 0 <= i < j < |s| :: s[i] != s[j]
  }

  /** list points at the first of the elements s, and each points at the one after it. */
  ghost predicate IsList(next: map<nat, nat>, list: nat, s: seq<nat>) {
    && list == HeadOf(s) && NoRepeats(s)
    && (forall i | 0 <= i < |s| :: NextAt(next, s, i))
  }

  /** No address changes but those of s. */
  ghost predicate OnlyAt(next: map<nat, nat>, next': map<nat, nat>, s: seq<nat>) {
    && next.Keys <= next'.Keys && (forall a | a in next' && a !in next :: a in s)
    && (forall a | a in next && a !in s :: next'[a] == next[a])
  }

  lemma NoneIsNil(next: map<nat, nat>, list: nat, s: seq<nat>)
    requires IsList(next, list, s)
    ensures forall i | 0 <= i < |s| :: s[i] != NIL && s[i] in next
  {
    forall i | 0 <= i < |s| ensures s[i] != NIL && s[i] in next { assert NextAt(next, s, i); }
  }

  lemma ListElsewhere(next: map<nat, nat>, next': map<nat, nat>, list: nat, s: seq<nat>, t: seq<nat>)
    requires IsList(next, list, s) && OnlyAt(next, next', t) && forall a | a in s :: a !in t
    ensures IsList(next', list, s)
  {
    forall i | 0 <= i < |s| ensures NextAt(next', s, i) {
      assert NextAt(next, s, i);
    }
  }

  /** The elements in memory, by the next field of each. */
  class Memory {
    var next: map<nat, nat>

    constructor ()
      ensures next == map[]
    {
      next := map[];
    }

    /** list_push_head, which does not ask whether the element is on the list already. */
    method PushHead(list: nat, el: nat, ghost s: seq<nat>) returns (list': nat)
      requires IsList(next, list, s) && el != NIL
      modifies this
      ensures list' == el && next == old(next)[el := list]
      ensures el !in s ==> IsList(next, list', [el] + s)
    {
      next := next[el := list];
      list' := el;
      if el !in s {
        forall i | 0 <= i < |s| + 1 ensures NextAt(next, [el] + s, i) {
          if i > 0 { assert NextAt(old(next), s, i - 1); }
        }
      }
    }

    /** list_pop_head. */
    method PopHead(list: nat, ghost s: seq<nat>) returns (list': nat, el: nat)
      requires IsList(next, list, s) && s != []
      modifies this
      ensures el == s[0] && IsList(next, list', s[1..]) && OnlyAt(old(next), next, [el])
    {
      assert NextAt(next, s, 0);
      NoneIsNil(next, list, s);
      el := list;
      if next[list] == NIL {
        list' := NIL;
      } else {
        list' := next[el];
        next := next[el := NIL];
      }
      forall i | 0 <= i < |s| - 1 ensures NextAt(next, s[1..], i) {
        assert NextAt(old(next), s, i + 1);
      }
    }

    /** list_length. */
    method Length(list: nat, ghost s: seq<nat>) returns (n: nat)
      requires IsList(next, list, s)
      ensures n == |s|
    {
      NoneIsNil(next, list, s);
      n := 0;
      var current := list;
      while current != NIL
        invariant n <= |s| && current == HeadOf(s[n..])
        decreases |s| - n
      {
        assert NextAt(next, s, n);
        n := n + 1;
        current := next[current];
      }
    }

    /** list_delete_el; prev is the element before el, or NIL. */
    method DeleteEl(list: nat, prev: nat, el: nat, ghost s: seq<nat>, ghost k: nat) returns (list': nat)
      requires IsList(next, list, s) && k < |s| && el == s[k] && prev == if k == 0 then NIL else s[k - 1]
      modifies this
      ensures IsList(next, list', s[..k] + s[k + 1..])
      ensures OnlyAt(old(next), next, if k == 0 then [el] else [s[k - 1], el])
    {
      assert NextAt(next, s, k);
      if k > 0 { assert NextAt(next, s, k - 1); }
      if k + 1 < |s| { assert NextAt(next, s, k + 1); }
      if list == el || prev == NIL {
        list' := next[el];
      } else {
        list' := list;
        next := next[prev := next[el]];
      }
      next := next[el := NIL];
      ghost var t := s[..k] + s[k + 1..];
      forall i | 0 <= i < |t| ensures NextAt(next, t, i) {
        var j := if i < k then i else i + 1;
        assert NextAt(old(next), s, j) && t[i] == s[j];
      }
    }

    /** list_insert_after; after NIL it is list_push_head. */
    method InsertAfter(list: nat, prev: nat, el: nat, ghost s: seq<nat>, ghost k: nat) returns (list': nat)
      requires IsList(next, list, s) && k <= |s| && el != NIL && el !in s && prev == if k == 0 then NIL else s[k - 1]
      modifies this
      ensures IsList(next, list', s[..k] + [el] + s[k..])
      ensures OnlyAt(old(next), next, if k == 0 then [el] else [s[k - 1], el])
    {
      if k > 0 { assert NextAt(next, s, k - 1); }
      if prev != NIL {
        next := next[el := next[prev]];
        next := next[prev := el];
        list' := list;
      } else {
        next := next[el := list];
        list' := el;
      }
      ghost var t := s[..k] + [el] + s[k..];
      forall i | 0 <= i < |t| ensures NextAt(next, t, i) {
        if i != k { assert NextAt(old(next), s, if i < k then i else i - 1); }
      }
    }
  }
}
