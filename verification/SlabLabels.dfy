/** Which Slab object the descriptors of a slab's frames name (src/kernel/mm/slab.c:126-148,
    329-336, src/kernel/mm/physical_pages.c:416-428). */
module SlabLabels {
  import opened Blocks
  import opened FreeBlocks
  import opened Clist
  import opened PhysicalPages
  import opened VirtualRegions
  import opened SlabCaches
  import opened KernelState

  /** The Slab object recorded for region r is in use, and its address is in the descriptor of
      every frame of r. */
  ghost predicate LabelOk(s: Sys, d: seq<Ppage>, r: Vregion)
    requires |s.caches| > SLAB && r in s.labels
  {
    && IsUsed(s.caches[SLAB], s.labels[r])
    && forall p: nat | r.Covers(p) ::
         p in s.mapping && s.mapping[p] < |d| && d[s.mapping[p]].slab == s.labels[r].Addr()
  }

  /** Slab f of a cache other than the two reserves was made by create_slab or boot. */
  ghost predicate Recorded(s: Sys, i: nat, f: nat)
    requires i < |s.caches|
  {
    i != SLAB && i != VREG && f in Slabs(s.caches[i]) ==> Vregion(f, s.caches[i].pagesPerSlab) in s.labels
  }

  /** Every region recorded has a Slab object of its own, and all slabs that are not refills of
      the reserves are recorded. */
  ghost predicate LabelsOk(s: Sys, d: seq<Ppage>) {
    && |s.caches| > VREG
    && (forall r | r in s.labels :: LabelOk(s, d, r))
    && (forall r, t | r in s.labels && t in s.labels && r != t :: s.labels[r] != s.labels[t])
    && (forall i: nat, f: nat | i < |s.caches| :: Recorded(s, i, f))
  }

  /** o is not the Slab object of any region. */
  ghost predicate NotNamed(s: Sys, o: Obj) {
    forall r | r in s.labels :: s.labels[r] != o
  }

  /** Regions recorded since s have Slab objects that were not in use in s. */
  ghost predicate NewNames(s: Sys, s': Sys) {
    |s.caches| > SLAB ==> forall r | r in s'.labels && r !in s.labels :: !IsUsed(s.caches[SLAB], s'.labels[r])
  }

  lemma NewNamesTrans(s: Sys, s1: Sys, s2: Sys)
    requires Extends(s, s1) && Extends(s1, s2) && NewNames(s, s1) && NewNames(s1, s2)
    ensures NewNames(s, s2)
  {
    hide IsUsed;
    if |s.caches| > SLAB {
      forall r | r in s2.labels && r !in s.labels ensures !IsUsed(s.caches[SLAB], s2.labels[r]) {}
    }
  }

  /** Everything the kernel does but creating a slab: no region is recorded, no frame changes its
      label, and no slab joins that is not recorded. */
  lemma LabelsStay(s: Sys, s': Sys, d: seq<Ppage>, d': seq<Ppage>)
    requires LabelsOk(s, d) && Extends(s, s') && s'.labels == s.labels && SlabsAlike(d, d')
    requires forall i: nat, f: nat | i < |s'.caches| :: Recorded(s', i, f)
    ensures LabelsOk(s', d')
  {
    hide IsUsed, Slabs, Recorded;
    forall r | r in s'.labels ensures LabelOk(s', d', r) { assert LabelOk(s, d, r); }
  }

  lemma SameRecorded(s: Sys, s': Sys)
    requires |s'.caches| == |s.caches| && s'.labels == s.labels
    requires forall j | 0 <= j < |s.caches| :: Slabs(s'.caches[j]).Keys == Slabs(s.caches[j]).Keys
    requires forall j | 0 <= j < |s.caches| :: SameShape(s.caches[j], s'.caches[j])
    requires forall i: nat, f: nat | i < |s.caches| :: Recorded(s, i, f)
    ensures forall i: nat, f: nat | i < |s'.caches| :: Recorded(s', i, f)
  {
    hide Slabs;
    forall i: nat, f: nat | i < |s'.caches| ensures Recorded(s', i, f) { assert Recorded(s, i, f); }
  }

  /** An object that was free names no slab when it is handed out. */
  lemma FreeIsNotNamed(s: Sys, d: seq<Ppage>, o: Obj)
    requires LabelsOk(s, d) && !IsUsed(s.caches[SLAB], o)
    ensures NotNamed(s, o)
  {
    hide IsUsed, Slabs, Recorded;
    forall r | r in s.labels ensures s.labels[r] != o { assert LabelOk(s, d, r); }
  }

  lemma StillNotNamed(s: Sys, s': Sys, o: Obj)
    requires |s.caches| > SLAB && IsUsed(s.caches[SLAB], o) && NotNamed(s, o) && NewNames(s, s') && Extends(s, s')
    ensures NotNamed(s', o)
  {
    hide IsUsed;
  }

  function WithLabel(s: Sys, el: Vregion, o: Obj): Sys {
    s.(labels := s.labels[el := o])
  }

  /** create_slab, lines 134-148: the new region el has been mapped to the frames from ppn on,
      and these carry the address of the Slab object o. */
  lemma LabelGrows(s: Sys, d: seq<Ppage>, el: Vregion, ppn: nat, o: Obj, live: set<Block>, d': seq<Ppage>)
    requires LabelsOk(s, d) && MapOk(s, live) && el.pages > 0 && el !in s.labels && ppn + el.pages <= |d|
    requires forall p: nat | el.Covers(p) :: p in s.mapping && s.mapping[p] == ppn + (p - el.first)
    requires IsUsed(s.caches[SLAB], o) && NotNamed(s, o) && SlabSet(d, d', ppn, el.pages, o.Addr())
    requires forall r, p: nat | r in s.labels && r.Covers(p) :: !el.Covers(p)
    ensures LabelsOk(WithLabel(s, el, o), d')
  {
    hide IsUsed, Slabs, InUse, Holds;
    var s' := WithLabel(s, el, o);
    forall i: nat, f: nat | i < |s'.caches| ensures Recorded(s', i, f) { assert Recorded(s, i, f); }
    hide Recorded, Obj.Addr;
    forall r | r in s'.labels ensures LabelOk(s', d', r) {
      if r != el {
        assert LabelOk(s, d, r);
        forall p: nat | r.Covers(p) ensures d'[s.mapping[p]].slab == d[s.mapping[p]].slab {
          OtherFrame(s, live, el, ppn, p);
        }
      }
    }
  }

  /** A page outside el has no frame of el's. */
  lemma OtherFrame(s: Sys, live: set<Block>, el: Vregion, ppn: nat, p: nat)
    requires MapOk(s, live) && p in s.mapping && !el.Covers(p)
    requires forall q: nat | el.Covers(q) :: q in s.mapping && s.mapping[q] == ppn + (q - el.first)
    ensures !(ppn <= s.mapping[p] < ppn + el.pages)
  {
    hide MapOk;
    if ppn <= s.mapping[p] < ppn + el.pages {
      var q := el.first + (s.mapping[p] - ppn);
      assert el.Covers(q);
      OneFrame(s, live, p, q);
    }
  }

  lemma OneFrame(s: Sys, live: set<Block>, p: nat, q: nat)
    requires MapOk(s, live) && p in s.mapping && q in s.mapping && s.mapping[p] == s.mapping[q]
    ensures p == q
  {
    hide InUse, Holds;
  }

  /** The descriptor of a frame tells which slab is on it: of all slabs but the refills of the
      reserves, two pages are of the same one if and only if their frames carry the same label. */
  lemma FrameNamesSlab(s: Sys, lo: nat, tables: set<nat>, live: set<Block>, d: seq<Ppage>,
                       i: nat, f: nat, p: nat, j: nat, g: nat, q: nat)
    requires SysOk(s, lo, tables, live) && LabelsOk(s, d) && i < |s.caches| && j < |s.caches|
    requires i != SLAB && i != VREG && f in Slabs(s.caches[i]) && f <= p < f + s.caches[i].pagesPerSlab
    requires j != SLAB && j != VREG && g in Slabs(s.caches[j]) && g <= q < g + s.caches[j].pagesPerSlab
    ensures p in s.mapping && q in s.mapping && s.mapping[p] < |d| && s.mapping[q] < |d|
    ensures d[s.mapping[p]].slab == d[s.mapping[q]].slab <==> f == g
    ensures f == g ==> i == j
  {
    hide SysOk, LabelsOk, IsUsed, Slabs, Obj.Addr;
    var r := IsLabelled(s, d, i, f, p);
    var t := IsLabelled(s, d, j, g, q);
    OneOwner(s, lo, tables, live, i, f, j, g);
    if f != g { NamesDiffer(s, lo, tables, live, d, r, t); }
  }

  /** The label of page p of slab f. */
  lemma IsLabelled(s: Sys, d: seq<Ppage>, i: nat, f: nat, p: nat) returns (r: Vregion)
    requires LabelsOk(s, d) && i < |s.caches| && i != SLAB && i != VREG
    requires f in Slabs(s.caches[i]) && f <= p < f + s.caches[i].pagesPerSlab
    ensures r == Vregion(f, s.caches[i].pagesPerSlab) && r in s.labels
    ensures p in s.mapping && s.mapping[p] < |d| && d[s.mapping[p]].slab == s.labels[r].Addr()
  {
    hide IsUsed, Slabs, Obj.Addr;
    r := Vregion(f, s.caches[i].pagesPerSlab);
    assert Recorded(s, i, f) && LabelOk(s, d, r) && r.Covers(p);
  }

  lemma OneOwner(s: Sys, lo: nat, tables: set<nat>, live: set<Block>, i: nat, f: nat, j: nat, g: nat)
    requires SysOk(s, lo, tables, live) && i < |s.caches| && j < |s.caches|
    requires f in Slabs(s.caches[i]) && g in Slabs(s.caches[j])
    ensures f == g ==> i == j
  {
    hide CachesOk, RegionsOk, TablesPresent, MapOk, Slabs;
  }

  lemma NamesDiffer(s: Sys, lo: nat, tables: set<nat>, live: set<Block>, d: seq<Ppage>, r: Vregion, t: Vregion)
    requires SysOk(s, lo, tables, live) && LabelsOk(s, d) && r in s.labels && t in s.labels && r != t
    ensures s.labels[r].Addr() != s.labels[t].Addr()
  {
    assert LabelOk(s, d, r) && LabelOk(s, d, t);
    SlabObjectSize(s, lo, tables, live, s.labels[r]);
    SlabObjectSize(s, lo, tables, live, s.labels[t]);
    hide SysOk, IsUsed, Slabs, Obj.Addr;
    ObjectsNeverOverlap(s, lo, tables, live, SLAB, s.labels[r], SLAB, s.labels[t]);
  }

  lemma SlabObjectSize(s: Sys, lo: nat, tables: set<nat>, live: set<Block>, o: Obj)
    requires SysOk(s, lo, tables, live) && |s.caches| > SLAB && IsUsed(s.caches[SLAB], o)
    ensures o.size > 0 && IsObject(s, SLAB, o)
  {
    hide RegionsOk, SlabsPlaced, TablesPresent, MapOk;
    ObjectFits(s, SLAB, o);
  }
}
