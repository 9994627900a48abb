/** 32-bit paging and the kernel's page tables (src/arch/x86/paging.c,
    src/include/x86/paging.h). The hardware is that of section 4.3 of the Intel 64 and
    IA-32 Architectures Software Developer's Manual, Volume 3A, with 4MB pages enabled, for a
    processor without PSE-36: physical addresses have 32 bits, and bits 13 to 21 of the entry
    of a 4MB page are reserved, so that using it faults if one of them is set. */
module Paging {
  import opened Outcomes

  /** A word of memory, or a 32-bit address. */
  type word = x: int | 0 <= x < 0x1_0000_0000

  const PAGE: int := 4096
  const MB4: int := 0x40_0000
  const ENTRIES: int := 1024           // NBR_PD_ENTRIES, NBR_PT_ENTRIES
  const REC: int := 1023               // REC_PAGING_ENTRY
  const PAGES: int := 0x10_0000        // pages of the address space
  const KERNEL_SPACE: int := 0xC000_0000

  // ----- entries -----

  /** get_addr_of_pte, get_addr_of_pde. */
  function Base(e: word): (b: word)
    ensures b % PAGE == 0 && b <= e < b + PAGE
  {
    e - e % PAGE
  }

  /** PAGE_PRESENT is set. */
  predicate Present(e: word) { e % 2 == 1 }

  /** PAGE_4MB is set. */
  predicate Big(e: word) { e / 128 % 2 == 1 }

  /** A reserved bit of a 4MB entry is set; bit 12, PAT, is not one of them. */
  predicate ReservedSet(e: word) { e / 0x2000 % 512 != 0 }

  /** Physical memory, by the address of each word. */
  function Word(m: map<int, word>, a: int): word { if a in m then m[a] else 0 }

  function PdeIndex(v: word): (i: int)
    ensures 0 <= i < ENTRIES
  {
    v / MB4
  }

  function PteIndex(v: word): (i: int)
    ensures 0 <= i < ENTRIES
  {
    v / PAGE % ENTRIES
  }

  function Pde(m: map<int, word>, cr3: word, i: int): word { Word(m, Base(cr3) + 4 * i) }

  function Pte(m: map<int, word>, pde: word, j: int): word { Word(m, Base(pde) + 4 * j) }

  // ----- the hardware -----

  /** Where a page table entry sends an address. */
  function ByPte(pte: word, v: word): Option<int> {
    if Present(pte) then Some(Base(pte) + v % PAGE) else None
  }

  /** The page walk: the physical address of v, unless v is not mapped. */
  function Walk(m: map<int, word>, cr3: word, v: word): Option<int> {
    var pde := Pde(m, cr3, PdeIndex(v));
    if !Present(pde) then None
    else if Big(pde) then if ReservedSet(pde) then None else Some(pde / MB4 * MB4 + v % MB4)
    else ByPte(Pte(m, pde, PteIndex(v)), v)
  }

  /** All addresses of a page are translated alike. */
  lemma WalkByPage(m: map<int, word>, cr3: word, v: word)
    ensures match Walk(m, cr3, v / PAGE * PAGE)
            case None => Walk(m, cr3, v) == None
            case Some(p) => p % PAGE == 0 && Walk(m, cr3, v) == Some(p + v % PAGE)
  {
    var w := v / PAGE * PAGE;
    hide Pde, Pte, PdeIndex, PteIndex, Big, Present;
    SamePage(v);
    BigPageStart(Pde(m, cr3, PdeIndex(v)), w);
  }

  lemma SamePage(v: word)
    ensures PdeIndex(v / PAGE * PAGE) == PdeIndex(v) && PteIndex(v / PAGE * PAGE) == PteIndex(v)
    ensures (v / PAGE * PAGE) % PAGE == 0 && (v / PAGE * PAGE) % MB4 + v % PAGE == v % MB4
  {}

  lemma BigPageStart(pde: word, w: word)
    requires w % PAGE == 0
    ensures (pde / MB4 * MB4 + w % MB4) % PAGE == 0
  {}

  /** Cached translations, page to frame, agree with the walk. */
  ghost predicate Coherent(m: map<int, word>, cr3: word, tlb: map<int, int>) {
    forall p | p in tlb :: 0 <= p < PAGES && Walk(m, cr3, p * PAGE) == Some(tlb[p] * PAGE)
  }

  // ----- the recursive entry -----

  /** The last directory entry refers to the directory itself. */
  ghost predicate Recursive(m: map<int, word>, cr3: word) {
    var e := Pde(m, cr3, REC);
    Present(e) && !Big(e) && Base(e) == Base(cr3)
  }

  /** The virtual address of directory entry i. */
  function PdeWindow(i: int): (v: word)
    requires 0 <= i < ENTRIES
  {
    REC * MB4 + REC * PAGE + 4 * i
  }

  /** The virtual address of entry j of table i. */
  function PteWindow(i: int, j: int): (v: word)
    requires 0 <= i < ENTRIES && 0 <= j < ENTRIES
  {
    REC * MB4 + i * PAGE + 4 * j
  }

  /** Through the recursive entry the window addresses are the entries themselves. */
  lemma WindowIsEntry(m: map<int, word>, cr3: word, i: int, j: int)
    requires Recursive(m, cr3) && 0 <= i < ENTRIES && 0 <= j < ENTRIES
    ensures Walk(m, cr3, PdeWindow(i)) == Some(Base(cr3) + 4 * i)
    ensures Walk(m, cr3, PteWindow(i, j)) ==
            if Present(Pde(m, cr3, i)) then Some(Base(Pde(m, cr3, i)) + 4 * j) else None
  {
    var v, w := PdeWindow(i), PteWindow(i, j);
    assert PdeIndex(v) == REC && PteIndex(v) == REC && v % PAGE == 4 * i;
    assert PdeIndex(w) == REC && PteIndex(w) == i && w % PAGE == 4 * j;
  }

  // ----- one page table entry is written -----

  /** No two present directory entries share a table, and all but the recursive one refer
      to tables; so no table is the directory. */
  ghost predicate TablesApart(m: map<int, word>, cr3: word) {
    && (forall i | 0 <= i < REC :: Present(Pde(m, cr3, i)) ==> !Big(Pde(m, cr3, i)))
    && (forall i, j | 0 <= i < j < ENTRIES && Present(Pde(m, cr3, i)) && Present(Pde(m, cr3, j)) ::
          Base(Pde(m, cr3, i)) != Base(Pde(m, cr3, j)))
  }

  lemma EntriesDiffer(a: int, i: int, b: int, j: int)
    requires a % PAGE == 0 && b % PAGE == 0 && 0 <= i < ENTRIES && 0 <= j < ENTRIES
    ensures a + 4 * i == b + 4 * j <==> a == b && i == j
  {}

  /** Writing entry j of table i changes no directory entry, and no entry of any other
      table or place. */
  lemma PteWriteIsLocal(m: map<int, word>, cr3: word, i: int, j: int, x: word)
    requires Recursive(m, cr3) && TablesApart(m, cr3) && 0 <= i < REC && 0 <= j < ENTRIES && Present(Pde(m, cr3, i))
    ensures var m' := m[Base(Pde(m, cr3, i)) + 4 * j := x];
            && (forall k | 0 <= k < ENTRIES :: Pde(m', cr3, k) == Pde(m, cr3, k))
            && (forall k, l | 0 <= k < ENTRIES && 0 <= l < ENTRIES && Present(Pde(m, cr3, k)) ::
                  Pte(m', Pde(m, cr3, k), l) == if k == i && l == j then x else Pte(m, Pde(m, cr3, k), l))
  {
    var pde := Pde(m, cr3, i);
    var m' := m[Base(pde) + 4 * j := x];
    forall k | 0 <= k < ENTRIES ensures Pde(m', cr3, k) == Pde(m, cr3, k) {
      EntriesDiffer(Base(pde), j, Base(cr3), k);
    }
    forall k, l | 0 <= k < ENTRIES && 0 <= l < ENTRIES && Present(Pde(m, cr3, k))
      ensures Pte(m', Pde(m, cr3, k), l) == if k == i && l == j then x else Pte(m, Pde(m, cr3, k), l)
    {
      EntriesDiffer(Base(pde), j, Base(Pde(m, cr3, k)), l);
    }
  }

  ghost predicate SameDirectory(m: map<int, word>, m': map<int, word>, cr3: word) {
    forall k | 0 <= k < ENTRIES :: Pde(m', cr3, k) == Pde(m, cr3, k)
  }

  /** The translation after page p was given the entry pte, whatever it was before. */
  ghost predicate Remapped(m: map<int, word>, m': map<int, word>, cr3: word, p: int, pte: word) {
    forall v: word :: Walk(m', cr3, v) == if v / PAGE == p then ByPte(pte, v) else Walk(m, cr3, v)
  }

  lemma PageSplits(p: int, v: word)
    requires 0 <= p < PAGES
    ensures v / PAGE == p <==> PdeIndex(v) == p / ENTRIES && PteIndex(v) == p % ENTRIES
  {}

  /** One translation changes, no other does, and everything the kernel relies on stays. */
  lemma PteWriteRemaps(m: map<int, word>, cr3: word, p: int, x: word)
    requires Recursive(m, cr3) && TablesApart(m, cr3) && 0 <= p < REC * ENTRIES && Present(Pde(m, cr3, p / ENTRIES))
    ensures var m' := m[Base(Pde(m, cr3, p / ENTRIES)) + 4 * (p % ENTRIES) := x];
            Remapped(m, m', cr3, p, x) && SameDirectory(m, m', cr3) && Recursive(m', cr3) && TablesApart(m', cr3)
  {
    var i, j := p / ENTRIES, p % ENTRIES;
    var m' := m[Base(Pde(m, cr3, i)) + 4 * j := x];
    PteWriteIsLocal(m, cr3, i, j, x);
    assert !Big(Pde(m, cr3, i));
    hide Pde, Pte, Present, Big, Base, PdeIndex, PteIndex, ByPte;
    forall v: word ensures Walk(m', cr3, v) == if v / PAGE == p then ByPte(x, v) else Walk(m, cr3, v) {
      PageSplits(p, v);
      assert Pde(m', cr3, PdeIndex(v)) == Pde(m, cr3, PdeIndex(v));
    }
  }

  lemma CoherentButOne(m: map<int, word>, m': map<int, word>, cr3: word, p: int, pte: word, tlb: map<int, int>)
    requires Coherent(m, cr3, tlb) && Remapped(m, m', cr3, p, pte)
    ensures Coherent(m', cr3, tlb - {p})
  {
    hide Walk, ByPte;
    forall q | q in tlb - {p} ensures 0 <= q < PAGES && Walk(m', cr3, q * PAGE) == Some(tlb[q] * PAGE) {
      var v: word := q * PAGE;
    }
  }

  // ----- the machine -----

  class Machine {
    var mem: map<int, word>    // physical memory
    var cr3: word
    var tlb: map<int, int>     // the translations the processor happens to hold

    constructor (mem: map<int, word>)
      ensures this.mem == mem && tlb == map[]
    {
      this.mem, cr3, tlb := mem, 0, map[];
    }

    /** The page tables can be read and written through the recursive entry. */
    ghost predicate Windowed()
      reads this
    {
      Recursive(mem, cr3) && Coherent(mem, cr3, tlb)
    }

    /** What the kernel relies on whenever it maps pages. */
    ghost predicate Valid()
      reads this
    {
      Windowed() && TablesApart(mem, cr3)
    }

    /** The processor may cache a translation at any time. */
    method MayCache(v: word)
      requires Coherent(mem, cr3, tlb)
      modifies `tlb
      ensures Coherent(mem, cr3, tlb) && old(tlb).Keys <= tlb.Keys
    {
      var r, cached := Walk(mem, cr3, v / PAGE * PAGE), *;
      if r.Some? && cached {
        WalkByPage(mem, cr3, v);
        tlb := tlb[v / PAGE := r.value / PAGE];
      }
    }

    /** Translates an address: from the cache if it is there, by the walk otherwise. */
    method Translate(v: word) returns (r: Option<int>)
      requires Coherent(mem, cr3, tlb)
      modifies `tlb
      ensures r == Walk(mem, cr3, v) && Coherent(mem, cr3, tlb) && old(tlb).Keys <= tlb.Keys
    {
      WalkByPage(mem, cr3, v);
      if v / PAGE in tlb {
        r := Some(tlb[v / PAGE] * PAGE + v % PAGE);
      } else {
        r := Walk(mem, cr3, v);
      }
      MayCache(v);
      var elsewhere: word := *;
      MayCache(elsewhere);
    }

    method Load(v: word) returns (r: Option<word>)
      requires Coherent(mem, cr3, tlb)
      modifies `tlb
      ensures Coherent(mem, cr3, tlb)
      ensures r == match Walk(mem, cr3, v) case None => None case Some(p) => Some(Word(mem, p))
    {
      var p := Translate(v);
      return if p.None? then None else Some(Word(mem, p.value));
    }

    /** Leaves the cache as it is: what it holds was right before the store. */
    method Store(v: word, x: word) returns (ok: bool)
      requires Coherent(mem, cr3, tlb)
      modifies `mem, `tlb
      ensures Coherent(old(mem), cr3, tlb)
      ensures ok <==> Walk(old(mem), cr3, v).Some?
      ensures mem == if ok then old(mem)[Walk(old(mem), cr3, v).value := x] else old(mem)
    {
      var p := Translate(v);
      if p.Some? {
        mem := mem[p.value := x];
      }
      return p.Some?;
    }

    /** invlpg */
    method Invlpg(v: word)
      modifies `tlb
      ensures tlb == old(tlb) - {v / PAGE}
    {
      tlb := tlb - {v / PAGE};
    }

    // ----- entries through the window -----

    method GetPde(i: int) returns (e: word)
      requires Windowed() && 0 <= i < ENTRIES
      modifies `tlb
      ensures Windowed() && e == Pde(mem, cr3, i)
    {
      WindowIsEntry(mem, cr3, i, 0);
      hide Walk;
      var r := Load(REC * MB4 + REC * PAGE + i * 4);
      e := r.value;
    }

    /** Changing the directory may change any translation; the cache keeps the old ones. */
    method SetPde(i: int, e: word)
      requires Windowed() && 0 <= i < ENTRIES
      modifies `mem, `tlb
      ensures mem == old(mem)[Base(cr3) + 4 * i := e] && Coherent(old(mem), cr3, tlb)
    {
      WindowIsEntry(mem, cr3, i, 0);
      hide Walk;
      var ok := Store(REC * MB4 + REC * PAGE + i * 4, e);
    }

    method GetPte(i: int, j: int) returns (e: word)
      requires Windowed() && 0 <= i < ENTRIES && 0 <= j < ENTRIES && Present(Pde(mem, cr3, i))
      modifies `tlb
      ensures Windowed() && e == Pte(mem, Pde(mem, cr3, i), j)
    {
      WindowIsEntry(mem, cr3, i, j);
      hide Walk;
      var r := Load(REC * MB4 + i * PAGE + j * 4);
      e := r.value;
    }

    method SetPte(i: int, j: int, e: word)
      requires Windowed() && 0 <= i < ENTRIES && 0 <= j < ENTRIES && Present(Pde(mem, cr3, i))
      modifies `mem, `tlb
      ensures mem == old(mem)[Base(Pde(old(mem), cr3, i)) + 4 * j := e] && Coherent(old(mem), cr3, tlb)
    {
      WindowIsEntry(mem, cr3, i, j);
      hide Walk;
      var ok := Store(REC * MB4 + i * PAGE + j * 4, e);
    }

    /** virt_to_phys_addr, where 0 stands for not mapped. It agrees with the hardware except
        on a 4MB page whose entry has one of bits 12 to 21 set: get_addr_of_pde keeps them.
        With a reserved one among them the hardware faults, which a sum of 2^32 looks like. */
    method VirtToPhys(v: word) returns (r: word)
      requires Windowed()
      modifies `tlb
      ensures Windowed()
      ensures var pde := Pde(mem, cr3, PdeIndex(v));
              r == PhysOrNull(Walk(mem, cr3, v)) <==>
                !Misplaced(pde) || (ReservedSet(pde) && Base(pde) + v % MB4 == 0x1_0000_0000)
    {
      r := 0;
      hide Recursive, Coherent, Walk, Pde, Pte, Present, Big, ReservedSet, Base, Misplaced;
      WalkCases(mem, cr3, v);
      var pde := GetPde(v / MB4);
      if Present(pde) {
        if !Big(pde) {
          var pte := GetPte(v / MB4, v / PAGE % ENTRIES);
          if Present(pte) {
            BaseFits(pte, v);
          r := Base(pte) + v % PAGE;
          }
        } else {
          MisplacedIff(pde, v);
          r := (Base(pde) + v % MB4) % 0x1_0000_0000;
        }
      }
    }

    /** map_page; false is a panic. paddr | flags is a sum because flags has no address bits. */
    method MapPage(ppn: int, vpn: int, flags: word) returns (ok: bool)
      requires Valid() && 0 <= ppn && 0 <= vpn < REC * ENTRIES && flags < PAGE
      modifies `mem, `tlb
      ensures ok <==> vpn != 0 && !Big(flags) && Present(Pde(old(mem), cr3, vpn / ENTRIES))
      ensures !ok ==> mem == old(mem)
      ensures ok ==>
                && Valid() && Remapped(old(mem), mem, cr3, vpn, FrameAddr(ppn) + flags)
                && SameDirectory(old(mem), mem, cr3)
      ensures ok ==> EntryWritten(old(mem), mem, cr3, ppn, vpn, flags)
    {
      hide Recursive, Coherent, TablesApart, Remapped, SameDirectory, Walk;
      var vaddr: word := vpn * PAGE;
      if vaddr == 0 {
        return false;
      }
      if Big(flags) {
        return false;
      }
      VpnIndices(vpn);
      var pde := GetPde(PdeIndex(vaddr));
      if !Present(pde) {
        return false;
      }
      PteWriteRemaps(mem, cr3, vpn, FrameAddr(ppn) + flags);
      SetPte(PdeIndex(vaddr), PteIndex(vaddr), FrameAddr(ppn) + flags);
      CoherentButOne(old(mem), mem, cr3, vpn, FrameAddr(ppn) + flags, tlb);
      Invlpg(vaddr);
      return true;
    }

    /** map_pages; false is a panic. */
    method MapPages(ppn: int, vpn: int, n: int, flags: word) returns (ok: bool)
      requires Valid() && 0 <= ppn && 0 <= n && 0 <= vpn && vpn + n <= REC * ENTRIES && flags < PAGE
      modifies `mem, `tlb
      ensures ok <==> vpn != 0 && AllMappable(old(mem), cr3, vpn, n, flags)
      ensures ok ==>
                && Valid() && RangeMapped(old(mem), mem, cr3, ppn, vpn, n, flags)
                && SameDirectory(old(mem), mem, cr3)
      ensures ok ==> EntriesWritten(mem, cr3, ppn, vpn, n, flags)
    {
      if vpn == 0 {
        return false;
      }
      hide Recursive, Coherent, TablesApart, SameDirectory, AllMappable, EntriesWritten, Walk, RangeMapped, MapProgress;
      ghost var m0 := mem;
      NothingMapped(m0, cr3, ppn, vpn, flags);
      var done := 0;
      while done < n
        invariant 0 <= done <= n && Valid() && MapProgress(m0, mem, cr3, ppn, vpn, done, flags)
      {
        ok := MapNext(ppn, vpn, done, flags, m0);
        if !ok {
          NotMappable(m0, cr3, vpn, n, done, flags);
          return false;
        }
        done := done + 1;
      }
      MapDone(m0, mem, cr3, ppn, vpn, n, flags);
      return true;
    }

    /** One turn of the loop. */
    method MapNext(ppn: int, vpn: int, done: int, flags: word, ghost m0: map<int, word>) returns (ok: bool)
      requires Valid() && 0 <= done && 0 < vpn && vpn + done < REC * ENTRIES && flags < PAGE
      requires MapProgress(m0, mem, cr3, ppn, vpn, done, flags)
      modifies `mem, `tlb
      ensures ok <==> !Big(flags) && Present(Pde(m0, cr3, (vpn + done) / ENTRIES))
      ensures ok ==> Valid() && MapProgress(m0, mem, cr3, ppn, vpn, done + 1, flags)
    {
      hide Recursive, Coherent, TablesApart, SameDirectory, Remapped, EntryWritten, MapProgress, Pde, Present, Big;
      ghost var m1 := mem;
      SameTable(m0, m1, cr3, ppn, vpn, done, flags);
      ok := MapPage(ppn + done, vpn + done, flags);
      if ok { OneMoreMapped(m0, m1, mem, cr3, ppn, vpn, done, flags); }
    }

    // ----- paging_boot_init -----

    /** memset of one table. */
    method Clear(table: word)
      requires table % PAGE == 0
      modifies `mem
      ensures forall i | 0 <= i < ENTRIES :: Word(mem, table + 4 * i) == 0
      ensures forall a | !(table <= a < table + PAGE) :: Word(mem, a) == Word(old(mem), a)
    {
      var i := 0;
      while i < ENTRIES
        invariant 0 <= i <= ENTRIES
        invariant forall k | 0 <= k < i :: Word(mem, table + 4 * k) == 0
        invariant forall a | !(table <= a < table + PAGE) :: Word(mem, a) == Word(old(mem), a)
      {
        mem := mem[table + 4 * i := 0];
        i := i + 1;
      }
    }

    /** One of the two loops: maps the pages from first to last to themselves. */
    method Identity(table: word, first: int, last: int)
      requires table % PAGE == 0 && 0 <= first && last < ENTRIES
      modifies `mem
      ensures forall i | 0 <= i < ENTRIES ::
                Word(mem, table + 4 * i) ==
                if first <= i <= last then i * PAGE + RW_PRESENT else Word(old(mem), table + 4 * i)
      ensures forall a | !(table <= a < table + PAGE) :: Word(mem, a) == Word(old(mem), a)
    {
      var i := first;
      while i <= last
        invariant first <= i && (i <= last + 1 || i == first)
        invariant forall k | 0 <= k < ENTRIES ::
          Word(mem, table + 4 * k) == if first <= k < i then k * PAGE + RW_PRESENT else Word(old(mem), table + 4 * k)
        invariant forall a | !(table <= a < table + PAGE) :: Word(mem, a) == Word(old(mem), a)
      {
        mem := mem[table + 4 * i := i * PAGE + RW_PRESENT];
        i := i + 1;
      }
    }

    /** paging_boot_init, by the physical addresses of _kpgd and _first_kpgt: maps the first
        megabyte and the kernel image to KERNEL_SPACE, installs the recursive entry, and
        maps nothing else. */
    method BootInit(kpgd: word, kpgt: word, bootStart: int, kernelEnd: int)
      requires kpgd % PAGE == 0 && kpgt % PAGE == 0 && kpgd != kpgt
      requires 0 <= bootStart && 0 < kernelEnd <= ENTRIES * PAGE
      modifies this
      ensures cr3 == kpgd && Valid()
      ensures forall v: word | 0xC000_0000 <= v < 0xC010_0000 :: Walk(mem, cr3, v) == Some(v - 0xC000_0000)
      ensures forall v: word | 0xC000_0000 + bootStart - bootStart % 4096 <= v < 0xC000_0000 + kernelEnd ::
                Walk(mem, cr3, v) == Some(v - 0xC000_0000)
      ensures forall v: word | 0xC010_0000 <= v < 0xC040_0000 ::
                var page := v - v % 4096 - 0xC000_0000;
                page + 4096 <= bootStart || kernelEnd <= page ==> Walk(mem, cr3, v) == None
      ensures forall v: word | v < 0xC000_0000 || 0xC040_0000 <= v < 0xFFC0_0000 :: Walk(mem, cr3, v) == None
      ensures forall v: word | 0xFFC0_0000 <= v ::
                Walk(mem, cr3, v) ==
                if v / 4096 == 0xFFF00 then Some(kpgt + v % 4096)
                else if v / 4096 == 0xFFFFF then Some(kpgd + v % 4096) else None
      ensures forall i | 0 <= i < ENTRIES :: Present(Pde(mem, cr3, i)) <==> i == KERNEL_SPACE / MB4 || i == REC
      ensures Base(Pde(mem, cr3, KERNEL_SPACE / MB4)) == kpgt && Base(Pde(mem, cr3, REC)) == kpgd
      ensures Pde(mem, cr3, 768) == kpgt + 3 && Pde(mem, cr3, 1023) == kpgd + 3
      ensures forall i | 0 <= i < 1024 :: Word(mem, kpgt + 4 * i) == 0 || Word(mem, kpgt + 4 * i) == i * 4096 + 3
    {
      SetUpTables(kpgd, kpgt, bootStart, kernelEnd);
      cr3, tlb := kpgd, map[];
      hide BootDirectory, BootTable, BootTranslation, Walk, Base, Present, TablesApart, Recursive;
      BootTablesWork(mem, kpgd, kpgt, bootStart, kernelEnd);
      BootIsShown(mem, kpgd, kpgt, bootStart, kernelEnd);
      BootEntries(mem, kpgd, kpgt, bootStart, kernelEnd);
    }

    /** The directory and the table before they are loaded. */
    method SetUpTables(kpgd: word, kpgt: word, bootStart: int, kernelEnd: int)
      requires kpgd % PAGE == 0 && kpgt % PAGE == 0 && kpgd != kpgt
      requires 0 <= bootStart && 0 < kernelEnd <= ENTRIES * PAGE
      modifies `mem
      ensures BootDirectory(mem, kpgd, kpgt) && BootTable(mem, kpgt, bootStart, kernelEnd)
    {
      PagesApart(kpgd, kpgt);
      SetUpDirectory(kpgd, kpgt);
      hide BootMapped, RoundUp;
      RoundUpFits(kernelEnd);
      Identity(kpgt, bootStart / PAGE, RoundUp(kernelEnd) / PAGE - 1);
      Identity(kpgt, 0, MEGABYTE / PAGE - 1);
      forall i | 0 <= i < ENTRIES
        ensures Word(mem, kpgt + 4 * i) == if BootMapped(bootStart, kernelEnd, i) then i * PAGE + RW_PRESENT else 0
      {
        BootMappedIs(bootStart, kernelEnd, i);
      }
    }

    /** The two calls of memset and the two directory entries. */
    method SetUpDirectory(kpgd: word, kpgt: word)
      requires kpgd % PAGE == 0 && kpgt % PAGE == 0 && (kpgd + PAGE <= kpgt || kpgt + PAGE <= kpgd)
      modifies `mem
      ensures BootDirectory(mem, kpgd, kpgt)
      ensures forall i | 0 <= i < ENTRIES :: Word(mem, kpgt + 4 * i) == 0
    {
      Clear(kpgd);
      Clear(kpgt);
      mem := mem[kpgd + 4 * (KERNEL_SPACE / MB4) := kpgt + RW_PRESENT];
      mem := mem[kpgd + 4 * REC := kpgd + RW_PRESENT];
    }
  }

  /** ppn_to_paddr in 32 bits. */
  function FrameAddr(ppn: int): (a: word)
    requires ppn >= 0
    ensures a % PAGE == 0 && a <= 0xFFFF_F000
  {
    ppn % PAGES * PAGE
  }

  lemma VpnIndices(vpn: int)
    requires 0 <= vpn < PAGES
    ensures PdeIndex(vpn * PAGE) == vpn / ENTRIES && PteIndex(vpn * PAGE) == vpn % ENTRIES
  {}

  /** The pages from vpn on go to the frames from ppn on, and no other translation changes. */
  ghost predicate RangeMapped(m: map<int, word>, m': map<int, word>, cr3: word, ppn: int, vpn: int, n: int, flags: word)
    requires ppn >= 0 && flags < PAGE
  {
    forall v: word :: Walk(m', cr3, v) ==
      if vpn <= v / PAGE < vpn + n then ByPte(FrameAddr(ppn + (v / PAGE - vpn)) + flags, v) else Walk(m, cr3, v)
  }

  ghost predicate HasPageTable(m: map<int, word>, cr3: word, p: int) {
    Present(Pde(m, cr3, p / 1024))
  }

  /** Every page of the range has a page table, and 4MB pages are not asked for. */
  ghost predicate AllMappable(m: map<int, word>, cr3: word, vpn: int, n: int, flags: word)
    requires 0 <= vpn
  {
    forall p | vpn <= p < vpn + n :: !Big(flags) && HasPageTable(m, cr3, p)
  }

  /** The first n pages are mapped. */
  ghost predicate MapProgress(m: map<int, word>, m': map<int, word>, cr3: word, ppn: int, vpn: int, n: int,
                              flags: word) {
    && 0 <= ppn && 0 <= vpn && flags < PAGE
    && RangeMapped(m, m', cr3, ppn, vpn, n, flags) && AllMappable(m, cr3, vpn, n, flags)
    && EntriesWritten(m', cr3, ppn, vpn, n, flags) && SameDirectory(m, m', cr3)
  }

  lemma NothingMapped(m: map<int, word>, cr3: word, ppn: int, vpn: int, flags: word)
    requires ppn >= 0 && vpn >= 0 && flags < PAGE
    ensures MapProgress(m, m, cr3, ppn, vpn, 0, flags)
  {
    hide Walk;
  }

  lemma SameTable(m: map<int, word>, m': map<int, word>, cr3: word, ppn: int, vpn: int, n: int, flags: word)
    requires MapProgress(m, m', cr3, ppn, vpn, n, flags) && 0 <= n && vpn + n < REC * ENTRIES
    ensures 0 <= ppn && Pde(m', cr3, (vpn + n) / ENTRIES) == Pde(m, cr3, (vpn + n) / ENTRIES)
  {
    hide Pde, RangeMapped, EntriesWritten;
  }

  lemma NotMappable(m: map<int, word>, cr3: word, vpn: int, n: int, done: int, flags: word)
    requires 0 <= vpn && 0 <= done < n && !(!Big(flags) && Present(Pde(m, cr3, (vpn + done) / ENTRIES)))
    ensures !AllMappable(m, cr3, vpn, n, flags)
  {
    var p := vpn + done;
    assert HasPageTable(m, cr3, p) ==> Big(flags);
  }

  lemma MapDone(m: map<int, word>, m': map<int, word>, cr3: word, ppn: int, vpn: int, n: int, flags: word)
    requires MapProgress(m, m', cr3, ppn, vpn, n, flags)
    ensures RangeMapped(m, m', cr3, ppn, vpn, n, flags) && AllMappable(m, cr3, vpn, n, flags)
    ensures SameDirectory(m, m', cr3) && EntriesWritten(m', cr3, ppn, vpn, n, flags)
  {
    hide RangeMapped, AllMappable, SameDirectory, EntriesWritten;
  }

  lemma OneMoreMapped(m0: map<int, word>, m1: map<int, word>, m2: map<int, word>, cr3: word,
                      ppn: int, vpn: int, n: int, flags: word)
    requires MapProgress(m0, m1, cr3, ppn, vpn, n, flags) && 0 <= n && vpn + n < REC * ENTRIES && !Big(flags)
    requires Present(Pde(m0, cr3, (vpn + n) / ENTRIES)) && SameDirectory(m1, m2, cr3)
    requires Remapped(m1, m2, cr3, vpn + n, FrameAddr(ppn + n) + flags) && Recursive(m1, cr3) && TablesApart(m1, cr3)
    requires EntryWritten(m1, m2, cr3, ppn + n, vpn + n, flags)
    ensures MapProgress(m0, m2, cr3, ppn, vpn, n + 1, flags)
  {
    hide RangeMapped, EntriesWritten, EntryWritten, Remapped, Recursive, TablesApart;
    hide Pde, FrameAddr, Present, Big, Base;
    OneMoreShown(m0, m1, m2, cr3, ppn, vpn, n, flags);
    OneMoreWritten(m0, m1, m2, cr3, ppn, vpn, n, flags);
  }

  lemma OneMoreShown(m0: map<int, word>, m1: map<int, word>, m2: map<int, word>, cr3: word,
                     ppn: int, vpn: int, n: int, flags: word)
    requires ppn >= 0 && n >= 0 && flags < PAGE
    requires RangeMapped(m0, m1, cr3, ppn, vpn, n, flags) && Remapped(m1, m2, cr3, vpn + n, FrameAddr(ppn + n) + flags)
    ensures RangeMapped(m0, m2, cr3, ppn, vpn, n + 1, flags)
  {
    hide Walk, ByPte, FrameAddr;
    forall v: word ensures Walk(m2, cr3, v) ==
      if vpn <= v / PAGE < vpn + n + 1 then ByPte(FrameAddr(ppn + (v / PAGE - vpn)) + flags, v) else Walk(m0, cr3, v) {}
  }

  /** Nothing is written but the entry of page vpn: the address of frame ppn with the flags. */
  ghost predicate EntryWritten(m: map<int, word>, m': map<int, word>, cr3: word, ppn: int, vpn: int, flags: word)
    requires flags < PAGE
  {
    m' == m[Base(Pde(m, cr3, vpn / 1024)) + 4 * (vpn % 1024) := ppn % 0x10_0000 * 4096 + flags]
  }

  /** The entries of the pages from vpn on name the frames from ppn on. */
  ghost predicate EntriesWritten(m: map<int, word>, cr3: word, ppn: int, vpn: int, n: int, flags: word) {
    0 <= vpn && 0 <= ppn && forall p | vpn <= p < vpn + n ::
      Pte(m, Pde(m, cr3, p / 1024), p % 1024) == (ppn + (p - vpn)) % 0x10_0000 * 4096 + flags
  }

  lemma OneMoreWritten(m0: map<int, word>, m1: map<int, word>, m2: map<int, word>, cr3: word,
                       ppn: int, vpn: int, n: int, flags: word)
    requires EntriesWritten(m1, cr3, ppn, vpn, n, flags) && 0 <= n && vpn + n < REC * ENTRIES && flags < PAGE
    requires Recursive(m1, cr3) && TablesApart(m1, cr3) && SameDirectory(m0, m1, cr3)
    requires AllMappable(m0, cr3, vpn, n, flags) && Present(Pde(m0, cr3, (vpn + n) / ENTRIES))
    requires EntryWritten(m1, m2, cr3, ppn + n, vpn + n, flags)
    ensures EntriesWritten(m2, cr3, ppn, vpn, n + 1, flags)
  {
    var q := vpn + n;
    hide Recursive, TablesApart, Pde, Pte, Base, Present, Big;
    PteWriteIsLocal(m1, cr3, q / 1024, q % 1024, (ppn + n) % 0x10_0000 * 4096 + flags);
    forall p | vpn <= p < vpn + n + 1
      ensures Pte(m2, Pde(m2, cr3, p / 1024), p % 1024) == (ppn + (p - vpn)) % 0x10_0000 * 4096 + flags
    {
      assert p == q || p / 1024 != q / 1024 || p % 1024 != q % 1024;
      assert p < vpn + n ==> HasPageTable(m0, cr3, p);
    }
  }

  /** What the entry written means: a page with PAGE_PRESENT is mapped to its frame. */
  lemma EntryMeans(ppn: int, flags: word, v: word)
    requires ppn >= 0 && flags < PAGE
    ensures ByPte(FrameAddr(ppn) + flags, v) == if Present(flags) then Some(FrameAddr(ppn) + v % PAGE) else None
  {
    FrameAndFlags(ppn % PAGES, flags);
    hide FrameAddr, Base;
    assert FrameAddr(ppn) == ppn % PAGES * PAGE by { FrameIs(ppn); }
    EvenFrame(ppn % PAGES, flags);
  }

  lemma FrameIs(ppn: int)
    requires ppn >= 0
    ensures FrameAddr(ppn) == ppn % PAGES * PAGE
  {}

  lemma FrameAndFlags(f: int, flags: word)
    requires 0 <= f < PAGES && flags < PAGE
    ensures f * PAGE + flags < 0x1_0000_0000 && Base(f * PAGE + flags) == f * PAGE
  {}

  lemma EvenFrame(f: int, flags: int)
    ensures (f * PAGE + flags) % 2 == flags % 2
  {
    assert f * PAGE == 2 * (2048 * f);
  }

  const RW_PRESENT: int := 3   // PAGE_SUPERVISOR | PAGE_READ_WRITE | PAGE_PRESENT

  const MEGABYTE: int := 0x10_0000

  /** ROUNDUP(x, PPAGE_SIZE). */
  function RoundUp(x: int): (r: int)
    requires x >= 0
    ensures r % 4096 == 0 && x <= r < x + 4096
  {
    (x / PAGE + if x % PAGE != 0 then 1 else 0) * PAGE
  }

  /** The pages of the first 4MB that boot maps. */
  predicate BootMapped(bootStart: int, kernelEnd: int, p: int)
    requires kernelEnd >= 0
  {
    0 <= p < MEGABYTE / PAGE || bootStart / PAGE <= p < RoundUp(kernelEnd) / PAGE
  }

  lemma RoundUpFits(x: int)
    requires 0 <= x <= ENTRIES * PAGE
    ensures RoundUp(x) <= ENTRIES * PAGE && RoundUp(x) % PAGE == 0
  {}

  lemma BootMappedIs(bootStart: int, kernelEnd: int, p: int)
    requires kernelEnd >= 0
    ensures BootMapped(bootStart, kernelEnd, p) <==>
            0 <= p <= MEGABYTE / PAGE - 1 || bootStart / PAGE <= p <= RoundUp(kernelEnd) / PAGE - 1
  {}

  /** The address space after boot. */
  function BootTranslation(kpgd: word, kpgt: word, bootStart: int, kernelEnd: int, v: word): Option<int>
    requires kernelEnd >= 0
  {
    if PdeIndex(v) == KERNEL_SPACE / MB4 then
      if BootMapped(bootStart, kernelEnd, PteIndex(v)) then Some(v - KERNEL_SPACE) else None
    else if PdeIndex(v) == REC then
      if PteIndex(v) == KERNEL_SPACE / MB4 then Some(kpgt + v % PAGE)
      else if PteIndex(v) == REC then Some(kpgd + v % PAGE)
      else None
    else None
  }

  /** Where boot sends the address v, in plain numbers. */
  ghost predicate BootShows(m: map<int, word>, kpgd: word, kpgt: word, bootStart: int, kernelEnd: int, v: word) {
    var page := v - v % 4096 - 0xC000_0000;
    && (0xC000_0000 <= v < 0xC010_0000 ==> Walk(m, kpgd, v) == Some(v - 0xC000_0000))
    && (0xC000_0000 + bootStart - bootStart % 4096 <= v < 0xC000_0000 + kernelEnd ==>
          Walk(m, kpgd, v) == Some(v - 0xC000_0000))
    && (0xC010_0000 <= v < 0xC040_0000 && (page + 4096 <= bootStart || kernelEnd <= page) ==> Walk(m, kpgd, v) == None)
    && (v < 0xC000_0000 || 0xC040_0000 <= v < 0xFFC0_0000 ==> Walk(m, kpgd, v) == None)
    && (0xFFC0_0000 <= v ==>
          Walk(m, kpgd, v) ==
          if v / 4096 == 0xFFF00 then Some(kpgt + v % 4096)
          else if v / 4096 == 0xFFFFF then Some(kpgd + v % 4096) else None)
  }

  /** Boot maps the pages of the first megabyte and those with a byte of the image. */
  lemma PagesOfImage(bootStart: int, kernelEnd: int, v: word)
    requires 0xC000_0000 <= v < 0xC040_0000 && 0 <= bootStart && 0 <= kernelEnd
    ensures var page := v - v % 4096 - 0xC000_0000;
            BootMapped(bootStart, kernelEnd, PteIndex(v)) <==>
            v < 0xC010_0000 || (bootStart < page + 4096 && page < kernelEnd)
  {
    hide RoundUp;
    var p := PteIndex(v);
    assert v - v % 4096 == 0xC000_0000 + p * 4096;
    RoundDown(bootStart, p);
    RoundUpPages(kernelEnd, p);
  }

  lemma RoundDown(x: int, p: int)
    requires 0 <= x
    ensures x / PAGE <= p <==> x < p * 4096 + 4096
  {}

  lemma RoundUpPages(x: int, p: int)
    requires 0 <= x
    ensures p < RoundUp(x) / PAGE <==> p * 4096 < x
  {
    var q := RoundUp(x) / PAGE;
    hide RoundUp;
    assert RoundUp(x) == q * 4096;
  }

  lemma BootSpace(m: map<int, word>, kpgd: word, kpgt: word, bootStart: int, kernelEnd: int, v: word)
    requires 0 <= bootStart && 0 <= kernelEnd <= ENTRIES * PAGE
    requires Walk(m, kpgd, v) == BootTranslation(kpgd, kpgt, bootStart, kernelEnd, v)
    ensures BootShows(m, kpgd, kpgt, bootStart, kernelEnd, v)
  {
    hide Walk, BootMapped;
    if 0xC000_0000 <= v < 0xC040_0000 { PagesOfImage(bootStart, kernelEnd, v); }
    assert PdeIndex(v) == KERNEL_SPACE / MB4 <==> 0xC000_0000 <= v < 0xC040_0000;
    assert PdeIndex(v) == REC <==> 0xFFC0_0000 <= v;
  }

  lemma BootIsShown(m: map<int, word>, kpgd: word, kpgt: word, bootStart: int, kernelEnd: int)
    requires 0 <= bootStart && 0 <= kernelEnd <= ENTRIES * PAGE
    requires forall v: word :: Walk(m, kpgd, v) == BootTranslation(kpgd, kpgt, bootStart, kernelEnd, v)
    ensures forall v: word | 0xC000_0000 <= v < 0xC010_0000 :: Walk(m, kpgd, v) == Some(v - 0xC000_0000)
    ensures forall v: word | 0xC000_0000 + bootStart - bootStart % 4096 <= v < 0xC000_0000 + kernelEnd ::
              Walk(m, kpgd, v) == Some(v - 0xC000_0000)
    ensures forall v: word | 0xC010_0000 <= v < 0xC040_0000 ::
              var page := v - v % 4096 - 0xC000_0000;
              page + 4096 <= bootStart || kernelEnd <= page ==> Walk(m, kpgd, v) == None
    ensures forall v: word | v < 0xC000_0000 || 0xC040_0000 <= v < 0xFFC0_0000 :: Walk(m, kpgd, v) == None
    ensures forall v: word | 0xFFC0_0000 <= v ::
              Walk(m, kpgd, v) ==
              if v / 4096 == 0xFFF00 then Some(kpgt + v % 4096)
              else if v / 4096 == 0xFFFFF then Some(kpgd + v % 4096) else None
  {
    hide Walk, BootTranslation;
    forall v: word {:trigger Walk(m, kpgd, v)} ensures BootShows(m, kpgd, kpgt, bootStart, kernelEnd, v) {
      BootSpace(m, kpgd, kpgt, bootStart, kernelEnd, v);
    }
  }

  function BootPde(kpgd: word, kpgt: word, i: int): (e: word)
    requires kpgd % PAGE == 0 && kpgt % PAGE == 0
  {
    if i == KERNEL_SPACE / MB4 then kpgt + RW_PRESENT else if i == REC then kpgd + RW_PRESENT else 0
  }

  ghost predicate BootDirectory(m: map<int, word>, kpgd: word, kpgt: word)
    requires kpgd % PAGE == 0 && kpgt % PAGE == 0
  {
    forall i | 0 <= i < ENTRIES :: Word(m, kpgd + 4 * i) == BootPde(kpgd, kpgt, i)
  }

  ghost predicate BootTable(m: map<int, word>, kpgt: word, bootStart: int, kernelEnd: int)
    requires kernelEnd >= 0
  {
    forall i | 0 <= i < ENTRIES ::
      Word(m, kpgt + 4 * i) == if BootMapped(bootStart, kernelEnd, i) then i * PAGE + RW_PRESENT else 0
  }

  lemma BootTablesWork(m: map<int, word>, kpgd: word, kpgt: word, bootStart: int, kernelEnd: int)
    requires kpgd % PAGE == 0 && kpgt % PAGE == 0 && kpgd != kpgt && kernelEnd >= 0
    requires BootDirectory(m, kpgd, kpgt) && BootTable(m, kpgt, bootStart, kernelEnd)
    ensures Recursive(m, kpgd) && TablesApart(m, kpgd)
    ensures forall v: word :: Walk(m, kpgd, v) == BootTranslation(kpgd, kpgt, bootStart, kernelEnd, v)
    ensures forall i | 0 <= i < ENTRIES :: Present(Pde(m, kpgd, i)) <==> i == KERNEL_SPACE / MB4 || i == REC
    ensures Base(Pde(m, kpgd, KERNEL_SPACE / MB4)) == kpgt && Base(Pde(m, kpgd, REC)) == kpgd
  {
    hide BootTable, BootDirectory, Walk, BootTranslation, Base, Big, Present;
    BootEntry(kpgd);
    BootEntry(kpgt);
    forall i | 0 <= i < ENTRIES ensures Pde(m, kpgd, i) == BootPde(kpgd, kpgt, i) { BootPdes(m, kpgd, kpgt, i); }
    NullEntry();
    forall v: word ensures Walk(m, kpgd, v) == BootTranslation(kpgd, kpgt, bootStart, kernelEnd, v) {
      BootWalk(m, kpgd, kpgt, bootStart, kernelEnd, v);
    }
  }

  lemma BootPdes(m: map<int, word>, kpgd: word, kpgt: word, i: int)
    requires kpgd % PAGE == 0 && kpgt % PAGE == 0 && BootDirectory(m, kpgd, kpgt) && 0 <= i < ENTRIES
    ensures Pde(m, kpgd, i) == BootPde(kpgd, kpgt, i)
  {
    BootEntry(kpgd);
    hide Base;
    assert Pde(m, kpgd, i) == Word(m, kpgd + 4 * i);
  }

  /** The entries let the kernel read and write. */
  lemma BootEntries(m: map<int, word>, kpgd: word, kpgt: word, bootStart: int, kernelEnd: int)
    requires kpgd % PAGE == 0 && kpgt % PAGE == 0 && kpgd != kpgt && kernelEnd >= 0
    requires BootDirectory(m, kpgd, kpgt) && BootTable(m, kpgt, bootStart, kernelEnd)
    ensures Pde(m, kpgd, 768) == kpgt + 3 && Pde(m, kpgd, 1023) == kpgd + 3
    ensures forall i | 0 <= i < 1024 :: Word(m, kpgt + 4 * i) == 0 || Word(m, kpgt + 4 * i) == i * 4096 + 3
  {
    hide Base, BootMapped, BootDirectory, Pde;
    BootPdes(m, kpgd, kpgt, 768);
    BootPdes(m, kpgd, kpgt, 1023);
    forall i | 0 <= i < 1024 ensures Word(m, kpgt + 4 * i) == 0 || Word(m, kpgt + 4 * i) == i * 4096 + 3 {
      assert Word(m, kpgt + 4 * i) == if BootMapped(bootStart, kernelEnd, i) then i * PAGE + RW_PRESENT else 0;
    }
  }

  lemma NullEntry()
    ensures !Present(0)
  {}

  lemma BootEntry(table: word)
    requires table % PAGE == 0
    ensures table + RW_PRESENT < 0x1_0000_0000 && Base(table) == table
    ensures Base(table + RW_PRESENT) == table && Present(table + RW_PRESENT) && !Big(table + RW_PRESENT)
  {
    FlagBits(table / PAGE);
  }

  lemma FlagBits(k: int)
    ensures (k * PAGE + RW_PRESENT) % PAGE == RW_PRESENT && (k * PAGE + RW_PRESENT) % 2 == 1
    ensures (k * PAGE + RW_PRESENT) / 128 == k * 32 && k * 32 % 2 == 0
  {
    LowPart(k);
    OddPart(k * 2048 + 1);
    FlagPart(k * 32);
    EvenPart(k * 16);
  }

  lemma LowPart(q: int)
    ensures (q * 4096 + 3) % 4096 == 3
  {}

  lemma OddPart(q: int)
    ensures (q * 2 + 1) % 2 == 1
  {}

  lemma FlagPart(q: int)
    ensures (q * 128 + 3) / 128 == q
  {}

  lemma EvenPart(q: int)
    ensures q * 2 % 2 == 0
  {}

  lemma PagesApart(a: word, b: word)
    requires a % PAGE == 0 && b % PAGE == 0 && a != b
    ensures a + PAGE <= b || b + PAGE <= a
  {
    var i, j := a / PAGE, b / PAGE;
    assert a == i * PAGE && b == j * PAGE;
  }

  /** An address of kernel space that boot maps is KERNEL_SPACE away from its frame. */
  lemma KernelAddress(v: word)
    requires PdeIndex(v) == KERNEL_SPACE / MB4
    ensures PteIndex(v) * PAGE + v % PAGE == v - KERNEL_SPACE
  {}

  lemma BootWalk(m: map<int, word>, kpgd: word, kpgt: word, bootStart: int, kernelEnd: int, v: word)
    requires kpgd % PAGE == 0 && kpgt % PAGE == 0 && kpgd != kpgt && kernelEnd >= 0
    requires BootDirectory(m, kpgd, kpgt) && BootTable(m, kpgt, bootStart, kernelEnd)
    ensures Walk(m, kpgd, v) == BootTranslation(kpgd, kpgt, bootStart, kernelEnd, v)
  {
    var i, j := PdeIndex(v), PteIndex(v);
    assert Word(m, kpgt + 4 * j) == if BootMapped(bootStart, kernelEnd, j) then j * PAGE + RW_PRESENT else 0;
    hide BootMapped, BootTable, Base, Big, Present, PdeIndex, PteIndex;
    BootPdes(m, kpgd, kpgt, i);
    BootPdes(m, kpgd, kpgt, j);
    BootEntry(kpgd);
    BootEntry(kpgt);
    BootEntry(j * PAGE);
    NullEntry();
    if i == KERNEL_SPACE / MB4 { KernelAddress(v); }
  }

  function PhysOrNull(r: Option<int>): int { if r.Some? then r.value else 0 }

  predicate Misplaced(pde: word) {
    Present(pde) && Big(pde) && pde / PAGE % ENTRIES != 0
  }

  /** The sum the code forms on a 4MB entry, with what the hardware does. */
  lemma MisplacedIff(pde: word, v: word)
    requires Present(pde) && Big(pde)
    ensures var sum, walk := Base(pde) + v % MB4, if ReservedSet(pde) then None else Some(pde / MB4 * MB4 + v % MB4);
            sum % 0x1_0000_0000 == PhysOrNull(walk) <==> !Misplaced(pde) || (ReservedSet(pde) && sum == 0x1_0000_0000)
  {
    var top, mid, off := pde / MB4 * MB4, pde / PAGE % ENTRIES, v % MB4;
    assert Base(pde) == top + mid * PAGE && top + MB4 <= 0x1_0000_0000 by { EntryParts(pde); }
    ReservedBits(pde);
    hide Base, Present, Big, ReservedSet;
    SumWraps(top, mid * PAGE, off);
  }

  lemma BaseFits(e: word, v: word)
    ensures Base(e) + v % PAGE < 0x1_0000_0000
  {}

  lemma WalkCases(m: map<int, word>, cr3: word, v: word)
    ensures var pde := Pde(m, cr3, v / MB4);
            && (!Present(pde) ==> Walk(m, cr3, v) == None && !Misplaced(pde))
            && (Present(pde) && !Big(pde) ==>
                  var pte := Pte(m, pde, v / PAGE % ENTRIES);
                  !Misplaced(pde) && Walk(m, cr3, v) == if Present(pte) then Some(Base(pte) + v % PAGE) else None)
            && (Present(pde) && Big(pde) ==>
                  Walk(m, cr3, v) == if ReservedSet(pde) then None else Some(pde / MB4 * MB4 + v % MB4))
  {
    hide Base, ReservedSet;
  }

  lemma EntryParts(pde: word)
    ensures Base(pde) == pde / MB4 * MB4 + pde / PAGE % ENTRIES * PAGE && pde / MB4 * MB4 + MB4 <= 0x1_0000_0000
  {}

  lemma ReservedBits(pde: word)
    ensures ReservedSet(pde) <==> pde / PAGE % ENTRIES >= 2
  {
    assert pde / 0x2000 == pde / PAGE / 2;
  }

  lemma SumWraps(top: int, mid: int, off: int)
    requires 0 <= top && 0 <= mid < MB4 && 0 <= off < MB4 && top + MB4 <= 0x1_0000_0000
    ensures (top + mid + off) % 0x1_0000_0000 == top + off <==> mid == 0
    ensures (top + mid + off) % 0x1_0000_0000 == 0 <==> top + mid + off == 0 || top + mid + off == 0x1_0000_0000
  {}
}
