/** The lists of free and used virtual regions (src/kernel/mm/virtual_pages.c), with the
    ordered insertion of src/include/kernel/list.h:76-96. */
module VirtualRegions {
  import opened Outcomes

  /** struct Virtual_region: pages consecutive virtual pages starting at page first. */
  datatype Vregion = Vregion(first: nat, pages: nat) {
    function Last(): int { first + pages - 1 }

    function End(): nat { first + pages }

    predicate Covers(p: int) { first <= p < End() }

    /** This region ends before the other begins. */
    predicate Below(other: Vregion) { End() <= other.first }
  }

  ghost predicate Covered(rs: seq<Vregion>, p: int) {
    exists i | 0 <= i < |rs| :: rs[i].Covers(p)
  }

  // ----- the ordered insertion -----

  /** The KASSERT of vregion_cmp. */
  predicate Comparable(a: Vregion, b: Vregion) {
    (a.first <= b.first && a.Last() <= b.Last()) || (b.first <= a.first && b.Last() <= a.Last())
  }

  /** vregion_cmp: positive when b starts above a, so that lists end up descending. */
  function Cmp(a: Vregion, b: Vregion): int {
    if b.first == a.first then 0 else if b.first > a.first then 1 else -1
  }

  /** list_insert_ordered(used, el, vregion_cmp). None when a comparison fails its KASSERT
      or the loop walks off the end of the list and compares with NULL. */
  method InsertOrdered(used: seq<Vregion>, el: Vregion) returns (r: Option<seq<Vregion>>)
    ensures r == Inserted(used, el)
  {
    if used == [] {
      return Some([el]);
    }
    if !Comparable(el, used[0]) {
      return None;
    }
    if Cmp(el, used[0]) <= 0 {
      assert used[..0] + [el] + used[0..] == [el] + used;
      return Some([el] + used);
    }
    var i := 0;
    while true
      invariant 0 <= i <= |used|
      invariant InsertPoint(used, el, 0) == InsertPoint(used, el, i)
      decreases |used| - i
    {
      if i == |used| || !Comparable(el, used[i]) {
        return None;
      }
      if Cmp(el, used[i]) <= 0 {
        break;
      }
      i := i + 1;
    }
    return Some(used[..i] + [el] + used[i..]);
  }

  /** The first position from i on whose region does not start above el, unless a
      comparison on the way there fails. */
  function InsertPoint(used: seq<Vregion>, el: Vregion, i: nat): (k: Option<nat>)
    requires i <= |used|
    ensures k.Some? ==> i <= k.value < |used| && used[k.value].first <= el.first
    ensures k.Some? ==> forall j | i <= j < k.value :: used[j].first > el.first
    decreases |used| - i
  {
    if i == |used| || !Comparable(el, used[i]) then None
    else if Cmp(el, used[i]) <= 0 then Some(i)
    else InsertPoint(used, el, i + 1)
  }

  function Inserted(used: seq<Vregion>, el: Vregion): Option<seq<Vregion>> {
    if used == [] then Some([el])
    else
      match InsertPoint(used, el, 0)
      case None => None
      case Some(k) => Some(used[..k] + [el] + used[k..])
  }

  // ----- the invariant of the two lists -----

  /** Regions in ascending order, none overlapping. */
  ghost predicate Ascending(rs: seq<Vregion>) {
    forall i, j | 0 <= i < j < |rs| :: rs[i].Below(rs[j])
  }

  /** Regions in descending order, none overlapping. */
  ghost predicate Descending(rs: seq<Vregion>) {
    forall i, j | 0 <= i < j < |rs| :: rs[j].Below(rs[i])
  }

  ghost predicate AllApart(rs: seq<Vregion>, ts: seq<Vregion>) {
    forall i, j | 0 <= i < |rs| && 0 <= j < |ts| :: rs[i].Below(ts[j]) || ts[j].Below(rs[i])
  }

  ghost predicate AllFrom(rs: seq<Vregion>, lo: nat) {
    forall i | 0 <= i < |rs| :: rs[i].first >= lo
  }

  /** There is an empty free region only if boot handed out all pages and nobody asked since. */
  ghost predicate NotEmpty(free: seq<Vregion>, news: seq<Vregion>) {
    (forall i | 0 <= i < |free| :: free[i].pages > 0) || (|free| == 1 && news == [])
  }

  /** The used list is news followed by the boot regions. The boot regions ascend and lie
      below page lo, everything else lies from lo on; news descend; free regions ascend
      and are not empty, unless boot has left nothing; nothing overlaps. */
  ghost predicate RegionsOk(free: seq<Vregion>, news: seq<Vregion>, boots: seq<Vregion>, lo: nat) {
    && Ascending(free) && NotEmpty(free, news) && AllFrom(free, lo)
    && Descending(news) && AllFrom(news, lo) && AllApart(free, news)
    && Ascending(boots) && boots != [] && (forall i | 0 <= i < |boots| :: boots[i].End() <= lo && boots[i].pages > 0)
  }

  // ----- first fit -----

  /** The first region, in list order, with at least n pages (virtual_pages.c:229-236). */
  method FirstFit(free: seq<Vregion>, n: nat) returns (i: nat)
    ensures i == FitIndex(free, n)
  {
    i := 0;
    while i < |free|
      invariant i <= |free| && FitIndexFrom(free, n, i) == FitIndex(free, n)
    {
      if free[i].pages >= n {
        break;
      }
      i := i + 1;
    }
  }

  function FitIndexFrom(free: seq<Vregion>, n: nat, i: nat): (k: nat)
    requires i <= |free|
    ensures i <= k <= |free|
    ensures k < |free| ==> free[k].pages >= n
    ensures forall j | i <= j < k :: free[j].pages < n
    decreases |free| - i
  {
    if i == |free| || free[i].pages >= n then i else FitIndexFrom(free, n, i + 1)
  }

  function FitIndex(free: seq<Vregion>, n: nat): (k: nat)
    ensures k <= |free| && (k < |free| ==> free[k].pages >= n)
    ensures forall j | 0 <= j < k :: free[j].pages < n
  {
    FitIndexFrom(free, n, 0)
  }

  /** The free list once n pages have been cut from the start of region i. */
  function Trimmed(free: seq<Vregion>, i: nat, n: nat): seq<Vregion>
    requires i < |free| && n <= free[i].pages
  {
    if free[i].pages > n then free[i := Vregion(free[i].first + n, free[i].pages - n)]
    else free[..i] + free[i + 1..]
  }

  // ----- allocation keeps the invariant -----

  ghost predicate ApartFromAll(el: Vregion, rs: seq<Vregion>) {
    forall j | 0 <= j < |rs| :: el.Below(rs[j]) || rs[j].Below(el)
  }

  /** n pages cut from the start of a free region, which is not empty unless nobody has one. */
  ghost predicate CutFrom(el: Vregion, r: Vregion, news: seq<Vregion>) {
    (r.pages > 0 || news == []) && el.first == r.first && el.pages <= r.pages
  }

  /** The new region is comparable with everything in use, and the insertion loop stops
      at the first boot region at the latest. */
  lemma {:induction false} InsertStops(news: seq<Vregion>, boots: seq<Vregion>, el: Vregion, r: Vregion, i: nat)
    requires CutFrom(el, r, news) && ApartFromAll(r, news) && i <= |news|
    requires boots != [] && boots[0].Below(r)
    ensures InsertPoint(news + boots, el, i).Some? && InsertPoint(news + boots, el, i).value <= |news|
    decreases |news| - i
  {
    var used := news + boots;
    if i < |news| {
      assert used[i] == news[i];
      InsertStops(news, boots, el, r, i + 1);
    } else {
      assert used[i] == boots[0];
    }
  }

  /** Inserted where the loop stops, the new region keeps the list descending. */
  lemma InsertKeepsDescending(news: seq<Vregion>, el: Vregion, r: Vregion, k: nat)
    requires Descending(news) && CutFrom(el, r, news) && ApartFromAll(r, news) && k <= |news|
    requires forall j | 0 <= j < k :: news[j].first > el.first
    requires k < |news| ==> news[k].first <= el.first
    ensures Descending(news[..k] + [el] + news[k..])
  {
    var s := news[..k] + [el] + news[k..];
    forall a, b | 0 <= a < b < |s| ensures s[b].Below(s[a]) {
      if a < k && b < k { assert news[b].Below(news[a]); }
      if a < k && b == k { assert r.Below(news[a]) || news[a].Below(r); }
      if a < k && b > k { assert news[b - 1].Below(news[a]); }
      if a == k {
        assert r.Below(news[b - 1]) || news[b - 1].Below(r);
        if b - 1 > k { assert news[b - 1].Below(news[k]); }
      }
      if a > k { assert news[b - 1].Below(news[a - 1]); }
    }
  }

  /** Trimming keeps the free regions ascending, leaves none empty, and keeps them apart from
      everything they were apart from and from the region cut off. */
  lemma TrimKeeps(free: seq<Vregion>, news: seq<Vregion>, lo: nat, i: nat, n: nat)
    requires Ascending(free) && NotEmpty(free, news) && AllFrom(free, lo)
    requires i < |free| && n <= free[i].pages
    ensures Ascending(Trimmed(free, i, n)) && AllFrom(Trimmed(free, i, n), lo)
    ensures forall j | 0 <= j < |Trimmed(free, i, n)| :: Trimmed(free, i, n)[j].pages > 0
    ensures ApartFromAll(Vregion(free[i].first, n), Trimmed(free, i, n))
    ensures forall t | ApartFromAll(t, free) :: ApartFromAll(t, Trimmed(free, i, n))
  {
    var f := Trimmed(free, i, n);
    if free[i].pages > n {
      assert forall j | 0 <= j < |f| :: free[j].first <= f[j].first && f[j].End() == free[j].End();
    } else {
      assert forall j | 0 <= j < |f| :: f[j] == free[if j < i then j else j + 1];
    }
  }

  /** The pages of the trimmed list and of the region cut off are those of the old list. */
  lemma TrimCovers(free: seq<Vregion>, i: nat, n: nat, p: int)
    requires i < |free| && n <= free[i].pages
    ensures Covered(free, p) <==> Covered(Trimmed(free, i, n), p) || Vregion(free[i].first, n).Covers(p)
  {
    var f := Trimmed(free, i, n);
    if Covered(free, p) {
      var j :| 0 <= j < |free| && free[j].Covers(p);
      if free[i].pages > n { assert f[j].Covers(p) || j == i; }
      else if j != i { assert f[if j < i then j else j - 1].Covers(p); }
    }
    if Covered(f, p) {
      var j :| 0 <= j < |f| && f[j].Covers(p);
      if free[i].pages > n { assert free[j].Covers(p); }
      else { assert free[if j < i then j else j + 1].Covers(p); }
    }
    if Vregion(free[i].first, n).Covers(p) { assert free[i].Covers(p); }
  }

  lemma InsertCovers(rs: seq<Vregion>, el: Vregion, k: nat, p: int)
    requires k <= |rs|
    ensures Covered(rs[..k] + [el] + rs[k..], p) <==> Covered(rs, p) || el.Covers(p)
  {
    var s := rs[..k] + [el] + rs[k..];
    if Covered(rs, p) {
      var j :| 0 <= j < |rs| && rs[j].Covers(p);
      assert s[if j < k then j else j + 1].Covers(p);
    }
    if el.Covers(p) { assert s[k].Covers(p); }
  }

  /** The lists after cutting n pages from free region i. */
  ghost predicate Cut(free: seq<Vregion>, news: seq<Vregion>, boots: seq<Vregion>, i: nat, n: nat, news': seq<Vregion>)
    requires i < |free|
  {
    var el := Vregion(free[i].first, n);
    && Inserted(news + boots, el) == Some(news' + boots)
    && el in news' && |news'| == |news| + 1
    && (forall r | r in news' :: r == el || r in news)
    && (forall r | r in news :: r in news')
  }

  lemma InsertSucceeds(free: seq<Vregion>, news: seq<Vregion>, boots: seq<Vregion>, lo: nat, i: nat,
          n: nat) returns (k: nat)
    requires RegionsOk(free, news, boots, lo) && i < |free| && n <= free[i].pages
    ensures k <= |news| && Cut(free, news, boots, i, n, news[..k] + [Vregion(free[i].first, n)] + news[k..])
    ensures Descending(news[..k] + [Vregion(free[i].first, n)] + news[k..])
  {
    var el, r := Vregion(free[i].first, n), free[i];
    assert boots[0].Below(r);
    forall j | 0 <= j < |news| ensures r.Below(news[j]) || news[j].Below(r) {
      assert free[i].Below(news[j]) || news[j].Below(free[i]);
    }
    InsertStops(news, boots, el, r, 0);
    k := InsertPoint(news + boots, el, 0).value;
    InsertedAt(news, boots, el, k);
    InsertKeepsDescending(news, el, r, k);
    hide InsertPoint, Descending, Ascending, AllApart, AllFrom, NotEmpty, RegionsOk;
    IsCut(free, news, boots, i, n, k);
  }

  lemma IsCut(free: seq<Vregion>, news: seq<Vregion>, boots: seq<Vregion>, i: nat, n: nat, k: nat)
    requires i < |free| && k <= |news| && InsertPoint(news + boots, Vregion(free[i].first, n), 0) == Some(k)
    ensures Cut(free, news, boots, i, n, news[..k] + [Vregion(free[i].first, n)] + news[k..])
  {
    hide InsertPoint;
    var el := Vregion(free[i].first, n);
    assert (news + boots)[..k] + [el] + (news + boots)[k..] == news[..k] + [el] + news[k..] + boots;
  }

  /** Cutting a region from a free one and putting it in use never fails, keeps both
      lists in order and disjoint, and neither loses nor doubles a page. */
  lemma AllocKeepsRegions(free: seq<Vregion>, news: seq<Vregion>, boots: seq<Vregion>, lo: nat, i: nat, n: nat)
    returns (news': seq<Vregion>)
    requires RegionsOk(free, news, boots, lo) && i < |free| && n <= free[i].pages
    ensures Cut(free, news, boots, i, n, news')
    ensures RegionsOk(Trimmed(free, i, n), news', boots, lo)
    ensures forall p :: Covered(free, p) <==> Covered(Trimmed(free, i, n), p) || Vregion(free[i].first, n).Covers(p)
    ensures forall p :: Covered(news', p) <==> Covered(news, p) || Vregion(free[i].first, n).Covers(p)
  {
    var k := InsertSucceeds(free, news, boots, lo, i, n);
    var el := Vregion(free[i].first, n);
    news' := news[..k] + [el] + news[k..];
    forall p ensures Covered(free, p) <==> Covered(Trimmed(free, i, n), p) || el.Covers(p) {
      TrimCovers(free, i, n, p);
    }
    forall p ensures Covered(news', p) <==> Covered(news, p) || el.Covers(p) { InsertCovers(news, el, k, p); }
    hide Cut, Covered, Trimmed, Inserted;
    TrimKeeps(free, news, lo, i, n);
    NewsApart(free, news, i, n, k);
  }

  lemma InsertedAt(news: seq<Vregion>, boots: seq<Vregion>, el: Vregion, k: nat)
    requires boots != [] && k <= |news| && InsertPoint(news + boots, el, 0) == Some(k)
    ensures forall j | 0 <= j < k :: news[j].first > el.first
    ensures k < |news| ==> news[k].first <= el.first
  {
    forall j | 0 <= j < k ensures news[j].first > el.first { assert (news + boots)[j] == news[j]; }
  }

  lemma NewsApart(free: seq<Vregion>, news: seq<Vregion>, i: nat, n: nat, k: nat)
    requires Ascending(free) && NotEmpty(free, news) && AllApart(free, news)
    requires i < |free| && n <= free[i].pages && k <= |news|
    ensures AllApart(Trimmed(free, i, n), news[..k] + [Vregion(free[i].first, n)] + news[k..])
  {
    var f, el, s := Trimmed(free, i, n), Vregion(free[i].first, n), news[..k] + [Vregion(free[i].first, n)] + news[k..];
    TrimKeeps(free, news, 0, i, n);
    forall a, b | 0 <= a < |f| && 0 <= b < |s| ensures f[a].Below(s[b]) || s[b].Below(f[a]) {
      if b != k {
        var t := s[b];
        assert t == news[if b < k then b else b - 1];
        assert ApartFromAll(t, free);
      }
    }
  }
}
