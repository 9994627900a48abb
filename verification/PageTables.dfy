/** What the kernel believes is mapped, and what the page tables say. */
module PageTables {
  import opened Outcomes
  import opened Blocks
  import opened FreeBlocks
  import opened VirtualRegions
  import opened KernelState
  import P = Paging

  type Mem = map<int, P.word>

  /** The hardware sends page p to the frame the kernel chose for it. */
  ghost predicate ShownAt(mapping: map<nat, nat>, m: Mem, cr3: P.word, p: nat) {
    p in mapping ==>
      && p < P.PAGES && mapping[p] < P.PAGES
      && forall v: P.word | v / P.PAGE == p :: P.Walk(m, cr3, v) == Some(mapping[p] * P.PAGE + v % P.PAGE)
  }

  ghost predicate Shown(mapping: map<nat, nat>, m: Mem, cr3: P.word) {
    forall p: nat :: ShownAt(mapping, m, cr3, p)
  }

  /** The directory slots the kernel takes for page tables are present ones. */
  ghost predicate TablesAgree(tables: set<nat>, m: Mem, cr3: P.word) {
    forall i: nat | i < P.REC :: i in tables <==> P.Present(P.Pde(m, cr3, i))
  }

  /** map_pages succeeds in the kernel's book keeping exactly when it does on the hardware. */
  lemma MapPagesAgree(tables: set<nat>, m: Mem, cr3: P.word, vpn: nat, n: nat, flags: P.word)
    requires TablesAgree(tables, m, cr3) && vpn + n <= P.REC * P.ENTRIES && !P.Big(flags)
    ensures (forall p: nat | vpn <= p < vpn + n :: HasTable(tables, p)) <==> P.AllMappable(m, cr3, vpn, n, flags)
  {
    forall p: nat | vpn <= p < vpn + n ensures HasTable(tables, p) <==> P.HasPageTable(m, cr3, p) {
      assert p / P.ENTRIES < P.REC;
    }
    hide P.Pde, P.Present, HasTable;
  }

  /** Mapping a region on the hardware shows the mapping the kernel recorded for it. */
  lemma MapShows(mapping: map<nat, nat>, el: Vregion, ppn: nat, m: Mem, m': Mem, cr3: P.word, flags: P.word)
    requires Shown(mapping, m, cr3) && flags < P.PAGE && P.Present(flags)
    requires P.RangeMapped(m, m', cr3, ppn, el.first, el.pages, flags)
    requires el.End() <= P.PAGES && ppn + el.pages <= P.PAGES
    ensures Shown(Mapped(mapping, el, ppn), m', cr3)
  {
    hide Mapped, P.Walk, P.ByPte, P.Present, P.FrameAddr;
    forall p: nat ensures ShownAt(Mapped(mapping, el, ppn), m', cr3, p) {
      MappedAt(mapping, el, ppn, p);
      assert ShownAt(mapping, m, cr3, p);
      if el.Covers(p) {
        var q := ppn + (p - el.first);
        forall v: P.word | v / P.PAGE == p ensures P.Walk(m', cr3, v) == Some(q * P.PAGE + v % P.PAGE) {
          P.EntryMeans(q, flags, v);
          SmallFrame(q);
        }
      }
    }
  }

  lemma SmallFrame(q: nat)
    requires q < P.PAGES
    ensures P.FrameAddr(q) == q * P.PAGE
  {}

  /** PAGE_PRESENT | PAGE_READ_WRITE | PAGE_SUPERVISOR | PAGE_GLOBAL. */
  const PAGE_FLAGS: P.word := 1 + 2 + 256

  lemma FlagsMean()
    ensures P.Present(PAGE_FLAGS) && !P.Big(PAGE_FLAGS) && PAGE_FLAGS < P.PAGE
  {}

  /** The hardware sends the first own pages of kernel space to the first own frames. */
  ghost predicate OwnShown(m: Mem, cr3: P.word, own: nat) {
    forall v: P.word | 0xC000_0000 <= v < 0xC000_0000 + own * 4096 :: P.Walk(m, cr3, v) == Some(v - 0xC000_0000)
  }

  /** Mapping pages behind them leaves them as they are. */
  lemma OwnStays(m: Mem, m': Mem, cr3: P.word, vpn: nat, n: nat, own: nat)
    requires OwnShown(m, cr3, own) && OthersStay(m, m', cr3, vpn, n) && vpn >= 0xC0000 + own
    ensures OwnShown(m', cr3, own)
  {
    hide P.Walk;
    forall v: P.word | 0xC000_0000 <= v < 0xC000_0000 + own * 4096 ensures P.Walk(m', cr3, v) == P.Walk(m, cr3, v) {
      assert v / P.PAGE < vpn;
    }
  }

  /** The frames of the directory and of its tables are among these. */
  ghost predicate HoldTables(frames: set<nat>, m: Mem, cr3: P.word) {
    && P.Base(cr3) / P.PAGE in frames
    && forall i | 0 <= i < P.ENTRIES && P.Present(P.Pde(m, cr3, i)) :: P.Base(P.Pde(m, cr3, i)) / P.PAGE in frames
  }

  /** These frames are in use, but not for anything the kernel has mapped. */
  ghost predicate Untouched(frames: set<nat>, mapping: map<nat, nat>, live: set<Block>) {
    && (forall f | f in frames :: Holds(live, f))
    && (forall p | p in mapping :: mapping[p] !in frames)
  }

  /** Mapping a region to frames that were not in use. */
  lemma StillUntouched(frames: set<nat>, mapping: map<nat, nat>, live: set<Block>, el: Vregion, ppn: nat,
                       live': set<Block>)
    requires Untouched(frames, mapping, live) && NewFrames(live, live', ppn, el.pages)
    ensures Untouched(frames, Mapped(mapping, el, ppn), live')
  {
    var m := Mapped(mapping, el, ppn);
    hide Holds, Mapped;
    forall p | p in m ensures m[p] !in frames { MappedAt(mapping, el, ppn, p); }
  }

  /** The machine's page tables, which are in these frames, hold what the kernel recorded. */
  ghost predicate Agrees(machine: P.Machine, mapping: map<nat, nat>, tables: set<nat>, frames: set<nat>)
    reads machine
  {
    && machine.Valid() && Shown(mapping, machine.mem, machine.cr3) && TablesAgree(tables, machine.mem, machine.cr3)
    && HoldTables(frames, machine.mem, machine.cr3)
    && forall t | t in tables :: t < P.REC
  }

  /** A range with page tables ends below the recursive window. */
  lemma EndsBelowWindow(tables: set<nat>, vpn: nat, n: nat)
    requires n > 0 && (forall p: nat | vpn <= p < vpn + n :: HasTable(tables, p)) && forall t | t in tables :: t < P.REC
    ensures vpn + n <= P.REC * P.ENTRIES
  {
    assert HasTable(tables, vpn + n - 1);
  }

  lemma TablesStay(tables: set<nat>, frames: set<nat>, m: Mem, m': Mem, cr3: P.word)
    requires TablesAgree(tables, m, cr3) && HoldTables(frames, m, cr3) && P.SameDirectory(m, m', cr3)
    ensures TablesAgree(tables, m', cr3) && HoldTables(frames, m', cr3)
  {
    hide P.Pde, P.Present, P.Base;
  }

  /** The hardware translates every address outside these pages as before. */
  ghost predicate OthersStay(m: Mem, m': Mem, cr3: P.word, vpn: nat, n: nat) {
    forall v: P.word | !(vpn <= v / P.PAGE < vpn + n) :: P.Walk(m', cr3, v) == P.Walk(m, cr3, v)
  }

  lemma OnlyRange(m: Mem, m': Mem, cr3: P.word, ppn: nat, vpn: nat, n: nat, flags: P.word)
    requires flags < P.PAGE && P.RangeMapped(m, m', cr3, ppn, vpn, n, flags)
    ensures OthersStay(m, m', cr3, vpn, n)
  {
    hide P.Walk;
  }

  /** map_pages, and the kernel's record of it; false is a panic. */
  method MapInto(machine: P.Machine, ghost mapping: map<nat, nat>, ghost tables: set<nat>, ghost frames: set<nat>,
                 ppn: nat, vpn: nat, n: nat) returns (ok: bool)
    requires Agrees(machine, mapping, tables, frames) && vpn + n <= P.REC * P.ENTRIES && ppn + n <= P.PAGES
    modifies machine
    ensures ok <==> vpn != 0 && forall p: nat | vpn <= p < vpn + n :: HasTable(tables, p)
    ensures ok ==>
              && Agrees(machine, Mapped(mapping, Vregion(vpn, n), ppn), tables, frames)
              && machine.cr3 == old(machine.cr3)
    ensures ok ==> OthersStay(old(machine.mem), machine.mem, machine.cr3, vpn, n)
    ensures ok ==> P.EntriesWritten(machine.mem, machine.cr3, ppn, vpn, n, 0x103)
  {
    FlagsMean();
    hide Shown, TablesAgree, HoldTables, Mapped, OthersStay, HasTable;
    hide P.EntriesWritten, P.RangeMapped, P.SameDirectory, P.AllMappable;
    hide P.Present, P.Big, P.Recursive, P.Coherent, P.TablesApart;
    MapPagesAgree(tables, machine.mem, machine.cr3, vpn, n, PAGE_FLAGS);
    ghost var m := machine.mem;
    ok := machine.MapPages(ppn, vpn, n, PAGE_FLAGS);
    if ok {
      MapShows(mapping, Vregion(vpn, n), ppn, m, machine.mem, machine.cr3, PAGE_FLAGS);
      TablesStay(tables, frames, m, machine.mem, machine.cr3);
      OnlyRange(m, machine.mem, machine.cr3, ppn, vpn, n, PAGE_FLAGS);
    }
  }
}
