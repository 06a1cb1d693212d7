/** The kernel's address space as mem_init, mem_init_mp and mmio_map_region lay it
    out (kern/pmap.c:131-276, 285-314, 649-687). */
module KernelLayout {
  import opened Paging
  import opened PagingInvariant
  import opened Pmap
  import opened Boot

  const UENVS: nat := 0xEEC00
  const UPAGES: nat := 0xEF000
  const MMIOBASE: nat := 0xEF800
  const MMIOLIM: nat := 0xEFC00
  const KSTACKTOP: nat := 0xF0000
  const KERNBASE: nat := 0xF0000
  const KSTKSIZE: nat := 8
  const KSTKGAP: nat := 8
  const NCPU: nat := 8
  const USER_READ := NO_PERM.(u := true)
  const KERNEL_WRITE := NO_PERM.(w := true)

  /** n virtual pages from va on, mapped to the n physical pages from pa on */
  datatype Region = Region(va: nat, n: nat, pa: nat, perm: Perm)

  predicate In(r: Region, w: nat) { r.va <= w < r.va + r.n }

  predicate Covered(rs: seq<Region>, w: nat) {
    exists i :: 0 <= i < |rs| && In(rs[i], w)
  }

  /** What virtual page w maps after the regions, the later ones on top; x is what was there. */
  function Image(rs: seq<Region>, w: nat, x: Pte): Pte {
    if rs == [] then x
    else
      var r := rs[|rs| - 1];
      if In(r, w) then Entry(r.pa + (w - r.va), r.perm) else Image(rs[..|rs| - 1], w, x)
  }

  /** m' is m with the regions mapped; only for want of memory may part of them be missing. */
  ghost predicate Laid(m: Mem, m': Mem, rs: seq<Region>) {
    && Booting(m') && KernelTables(m') && m'.kdir == m.kdir && m.kern <= m'.kern
    && (m.free == [] ==> m'.free == [])
    && (forall w: nat :: KernelPage(w) ==>
          || KEntry(m', w) == Image(rs, w, KEntry(m, w))
          || (m'.free == [] && Covered(rs, w)))
  }

  lemma LaidNext(m: Mem, m1: Mem, m2: Mem, rs: seq<Region>, r: Region, n: nat)
    requires Laid(m, m1, rs) && RegionMapped(m1, m2, r.va, n, r.pa, r.perm)
    requires n <= r.n && (n < r.n ==> m2.free == [])
    ensures Laid(m, m2, rs + [r])
  {
    var all := rs + [r];
    assert all[..|all| - 1] == rs;
    forall w: nat | KernelPage(w)
      ensures KEntry(m2, w) == Image(all, w, KEntry(m, w)) || (m2.free == [] && Covered(all, w))
    {
      if In(r, w) { assert In(all[|rs|], w); }
      else if Covered(rs, w) {
        var i :| 0 <= i < |rs| && In(rs[i], w);
        assert In(all[i], w);
      }
    }
  }

  lemma OutOfWindow(r: Region)
    requires r.n < 0x80000 && forall w: nat :: In(r, w) ==> KernelPage(w)
    ensures Rounds(r.n * PGSIZE) == r.n
    ensures forall n: nat :: n < r.n ==> !InWindow(Turn(r.va, n))
  {
    forall n: nat | n < r.n ensures !InWindow(Turn(r.va, n)) { assert In(r, r.va + n); }
  }

  /** boot_map_region for one region of a layout */
  method MapRegion(mem: Memory, r: Region, ghost m0: Mem, ghost rs: seq<Region>)
    requires mem.Valid() && Laid(m0, mem.View(), rs)
    requires r.va < NVPAGES && r.n < 0x80000 && forall w: nat :: In(r, w) ==> KernelPage(w)
    modifies mem.Footprint()
    ensures mem.Valid() && Laid(m0, mem.View(), rs + [r])
  {
    ghost var m := mem.View();
    BootingIsWalkable(m);
    OutOfWindow(r);
    ghost var n := BootMapRegion(mem, r.va, r.n * PGSIZE, r.pa, r.perm);
    LaidNext(m0, m, mem.View(), rs, r, n);
  }

  /** The stack of CPU i: KSTKSIZE pages under KSTACKTOP - i * (KSTKSIZE + KSTKGAP) */
  function Stack(i: nat, stack: nat): Region
    requires i < NCPU
  {
    Region(KSTACKTOP - i * (KSTKSIZE + KSTKGAP) - KSTKSIZE, KSTKSIZE, stack, KERNEL_WRITE)
  }

  function Stacks(percpu: seq<nat>): seq<Region>
    requires |percpu| <= NCPU
  {
    seq(|percpu|, i requires 0 <= i < |percpu| => Stack(i, percpu[i]))
  }

  lemma NextStack(percpu: seq<nat>, i: nat, rs: seq<Region>)
    requires |percpu| == NCPU && i < NCPU
    ensures rs + Stacks(percpu[..i + 1]) == (rs + Stacks(percpu[..i])) + [Stack(i, percpu[i])]
  {
    assert Stacks(percpu[..i + 1]) == Stacks(percpu[..i]) + [Stack(i, percpu[i])];
  }

  method MapStack(mem: Memory, i: nat, stack: nat, ghost m0: Mem, ghost rs: seq<Region>)
    requires mem.Valid() && Laid(m0, mem.View(), rs) && i < NCPU
    modifies mem.Footprint()
    ensures mem.Valid() && Laid(m0, mem.View(), rs + [Stack(i, stack)])
  {
    assert forall w: nat :: In(Stack(i, stack), w) ==> KernelPage(w);
    MapRegion(mem, Stack(i, stack), m0, rs);
  }

  method MemInitMp(mem: Memory, percpu: seq<nat>, ghost m0: Mem, ghost rs: seq<Region>)
    requires mem.Valid() && Laid(m0, mem.View(), rs) && |percpu| == NCPU
    modifies mem.Footprint()
    ensures mem.Valid() && Laid(m0, mem.View(), rs + Stacks(percpu))
  {
    assert rs + Stacks(percpu[..0]) == rs;
    for i := 0 to NCPU
      invariant mem.Valid() && Laid(m0, mem.View(), rs + Stacks(percpu[..i]))
    {
      NextStack(percpu, i, rs);
      MapStack(mem, i, percpu[i], m0, rs + Stacks(percpu[..i]));
    }
    assert percpu[..NCPU] == percpu;
  }

  /** What mem_init maps before the per-CPU stacks. `pages` and `envs` are the arrays' physical pages. */
  function KernelRegions(npages: nat, pages: nat, envs: nat, bootstack: nat): seq<Region> {
    [Region(UPAGES, (npages * 8 + PGSIZE - 1) / PGSIZE, pages, USER_READ),
     Region(UENVS, ENVS_PAGES, envs, USER_READ),
     Region(KSTACKTOP - KSTKSIZE, KSTKSIZE, bootstack, KERNEL_WRITE),
     Region(KERNBASE, NVPAGES - KERNBASE, 0, KERNEL_WRITE)]
  }

  /** sizeof(struct Env) * NENV, in pages */
  const ENVS_PAGES: nat := 31

  lemma FourRegions(rs: seq<Region>)
    requires |rs| == 4
    ensures rs == [] + [rs[0]] + [rs[1]] + [rs[2]] + [rs[3]]
  {
  }

  /** The four calls of boot_map_region in mem_init */
  method MapKernel(mem: Memory, pages: nat, envs: nat, bootstack: nat)
    requires mem.Valid() && Booting(mem.View()) && KernelTables(mem.View()) && mem.npages <= 0x80000
    modifies mem.Footprint()
    ensures mem.Valid() && Laid(old(mem.View()), mem.View(), KernelRegions(mem.npages, pages, envs, bootstack))
  {
    ghost var m := mem.View();
    ghost var rs := KernelRegions(mem.npages, pages, envs, bootstack);
    FourRegions(rs);
    var n := (mem.npages * 8 + PGSIZE - 1) / PGSIZE;
    assert n <= NPTENTRIES;
    MapRegion(mem, Region(UPAGES, n, pages, USER_READ), m, []);
    MapRegion(mem, Region(UENVS, ENVS_PAGES, envs, USER_READ), m, [] + [rs[0]]);
    MapRegion(mem, Region(KSTACKTOP - KSTKSIZE, KSTKSIZE, bootstack, KERNEL_WRITE), m, [] + [rs[0]] + [rs[1]]);
    MapRegion(mem, Region(KERNBASE, NVPAGES - KERNBASE, 0, KERNEL_WRITE), m, [] + [rs[0]] + [rs[1]] + [rs[2]]);
  }

  /** The start of mem_init: an empty directory that shows itself, and the free list */
  method StartMemory(mem: Memory, basemem: nat, next: nat)
    requires mem.Valid() && mem.free == [] && mem.env_pgdir == map[] && mem.lost == {}
    requires forall i: nat :: i < mem.npages ==> mem.pp_ref[i] == 0
    requires EXTPHYSMEM / PGSIZE <= mem.kern_pgdir < next && mem.kern_pgdir < mem.npages
    requires basemem <= EXTPHYSMEM / PGSIZE
    modifies mem.Footprint()
    ensures mem.Valid() && Booting(mem.View()) && KernelTables(mem.View())
    ensures forall w: nat :: KernelPage(w) ==> KEntry(mem.View(), w) == PTE0
    ensures mem.kern == set p: nat | p < mem.npages && !Usable(p, basemem, next)
  {
    mem.ram[mem.kern_pgdir] := ZeroFrame();
    mem.ram[mem.kern_pgdir] := mem.ram[mem.kern_pgdir][UVPTX := Pte(mem.kern_pgdir, SELF_PERM)];
    ghost var dir := mem.ram[mem.kern_pgdir];
    assert forall d: nat :: d < UTOPX ==> dir[d] == PTE0;
    PageInit(mem, basemem, next);
    EmptyKernel(mem.View());
  }

  lemma EmptyKernel(m: Mem)
    requires Booting(m) && m.frame[m.kdir] == ZeroFrame()[UVPTX := Pte(m.kdir, SELF_PERM)]
    ensures KernelTables(m) && forall w: nat :: KernelPage(w) ==> KEntry(m, w) == PTE0
  {
    forall d: nat | UTOPX <= d < NPTENTRIES && d != UVPTX ensures At(m, m.kdir, d) == PTE0 {}
  }

  /** The memory mem_init leaves: the invariant holds, and the kernel's address space is
      the layout, except that mappings may be missing if memory ran out. */
  method MemInit(mem: Memory, basemem: nat, next: nat, pages: nat, envs: nat, bootstack: nat, percpu: seq<nat>)
    requires mem.Valid() && mem.free == [] && mem.env_pgdir == map[] && mem.lost == {}
    requires forall i: nat :: i < mem.npages ==> mem.pp_ref[i] == 0
    requires EXTPHYSMEM / PGSIZE <= mem.kern_pgdir < next && mem.kern_pgdir < mem.npages
    requires basemem <= EXTPHYSMEM / PGSIZE
    requires mem.npages <= 0x80000 && |percpu| == NCPU
    modifies mem.Footprint()
    ensures mem.Valid() && Inv(mem.View()) && Booting(mem.View()) && KernelTables(mem.View())
    ensures forall p: nat :: p < mem.npages && !Usable(p, basemem, next) ==> p in mem.kern
    ensures forall w: nat :: KernelPage(w) ==>
              var rs := KernelRegions(mem.npages, pages, envs, bootstack) + Stacks(percpu);
              KEntry(mem.View(), w) == Image(rs, w, PTE0) || (mem.free == [] && Covered(rs, w))
  {
    StartMemory(mem, basemem, next);
    ghost var m := mem.View();
    ghost var rs := KernelRegions(mem.npages, pages, envs, bootstack);
    MapKernel(mem, pages, envs, bootstack);
    MemInitMp(mem, percpu, m, rs);
    FirstState(mem.View());
  }

  // ----- what the layout means -----

  lemma ImageOf(rs: seq<Region>, i: nat, w: nat, x: Pte)
    requires i < |rs| && In(rs[i], w) && forall j :: i < j < |rs| ==> !In(rs[j], w)
    ensures Image(rs, w, x) == Entry(rs[i].pa + (w - rs[i].va), rs[i].perm)
  {
    if i < |rs| - 1 {
      ImageOf(rs[..|rs| - 1], i, w, x);
    }
  }

  lemma ImageNone(rs: seq<Region>, w: nat, x: Pte)
    requires forall j :: 0 <= j < |rs| ==> !In(rs[j], w)
    ensures Image(rs, w, x) == x
  {
  }

  predicate KernelOnly(perm: Perm) { perm.w && !perm.u && perm.other == {} }

  /** Each CPU has its own KSTKSIZE stack pages, writable by the kernel only, above KSTKGAP unmapped pages. */
  lemma StacksAreGuarded(npages: nat, pages: nat, envs: nat, bootstack: nat, percpu: seq<nat>, i: nat, j: nat)
    requires npages <= 0x80000 && |percpu| == NCPU && i < NCPU && j < KSTKSIZE
    ensures var rs := KernelRegions(npages, pages, envs, bootstack) + Stacks(percpu);
            var top := KSTACKTOP - i * (KSTKSIZE + KSTKGAP);
            && Image(rs, top - KSTKSIZE + j, PTE0) == Entry(percpu[i] + j, KERNEL_WRITE)
            && Image(rs, top - KSTKSIZE - 1 - j, PTE0) == PTE0
            && top - KSTKSIZE == 0xF0000 - 16 * i - 8 && KernelOnly(KERNEL_WRITE)
  {
    var rs := KernelRegions(npages, pages, envs, bootstack) + Stacks(percpu);
    var top := KSTACKTOP - i * (KSTKSIZE + KSTKGAP);
    assert rs[4 + i] == Stack(i, percpu[i]);
    assert forall k :: 4 <= k < |rs| ==> rs[k] == Stack(k - 4, percpu[k - 4]);
    ImageOf(rs, 4 + i, top - KSTKSIZE + j, PTE0);
    ImageNone(rs, top - KSTKSIZE - 1 - j, PTE0);
  }

  /** Physical page p is mapped at KERNBASE + p, for the kernel only; user-accessible
      kernel pages are read-only; nothing is mapped in the device region. */
  lemma LayoutIsProtected(npages: nat, pages: nat, envs: nat, bootstack: nat, percpu: seq<nat>, w: nat)
    requires npages <= 0x80000 && |percpu| == NCPU
    ensures var x := Image(KernelRegions(npages, pages, envs, bootstack) + Stacks(percpu), w, PTE0);
            && (0xF0000 <= w < 0x100000 ==> x.perm.p && x.ppn == w - 0xF0000 && KernelOnly(x.perm) && x == Entry(w - KERNBASE, KERNEL_WRITE))
            && !(x.perm.u && x.perm.w)
            && (x.perm.u ==> UENVS <= w < MMIOBASE)
            && (0xEF800 <= w < 0xEFC00 ==> x == PTE0)
  {
    var rs := KernelRegions(npages, pages, envs, bootstack) + Stacks(percpu);
    assert forall k :: 4 <= k < |rs| ==> rs[k] == Stack(k - 4, percpu[k - 4]);
    if KERNBASE <= w < NVPAGES { ImageOf(rs, 3, w, PTE0); }
    if MMIOBASE <= w < MMIOLIM { ImageNone(rs, w, PTE0); }
    ImageKind(rs, w);
  }

  /** Pages of the array of page structures, 8 bytes each */
  function PagesArray(npages: nat): nat { (npages * 8 + 4095) / 4096 }

  /** Of the kernel's pages a user may read those of two arrays: the environments at 0xEEC00000 and the page structures at
      0xEF000000. They show the arrays' own physical pages. */
  predicate UserSees(x: Pte, npages: nat, pages: nat, envs: nat, w: nat) {
    && (x.perm.p && x.perm.u <==> 0xEEC00 <= w < 0xEEC00 + 31 || 0xEF000 <= w < 0xEF000 + PagesArray(npages))
    && (0xEEC00 <= w < 0xEEC00 + 31 ==> x.ppn == envs + (w - 0xEEC00))
    && (0xEF000 <= w < 0xEF000 + PagesArray(npages) ==> x.ppn == pages + (w - 0xEF000))
  }

  lemma ArraysAreVisible(npages: nat, pages: nat, envs: nat, bootstack: nat, percpu: seq<nat>, w: nat)
    requires npages <= 0x80000 && |percpu| == NCPU
    ensures UserSees(Image(KernelRegions(npages, pages, envs, bootstack) + Stacks(percpu), w, PTE0), npages, pages, envs, w)
  {
    var rs := KernelRegions(npages, pages, envs, bootstack) + Stacks(percpu);
    assert forall k :: 4 <= k < |rs| ==> rs[k] == Stack(k - 4, percpu[k - 4]);
    if 0xEEC00 <= w < 0xEEC00 + 31 { ImageOf(rs, 1, w, PTE0); }
    else if 0xEF000 <= w < 0xEF000 + PagesArray(npages) { ImageOf(rs, 0, w, PTE0); }
    else { ImageKind(rs, w); }
  }

  /** So the structure of every page and of every environment can be read where inc/memlayout.h says, all its bytes. */
  lemma EveryStructIsVisible(npages: nat, pages: nat, envs: nat, p: nat, e: nat, i: nat, x: Pte, y: Pte)
    requires p < npages && e < 1024 && i < 124
    requires UserSees(x, npages, pages, envs, (0xEF000000 + 8 * p + i % 8) / 4096) && UserSees(y, npages, pages, envs, (0xEEC00000 + 124 * e + i) / 4096)
    ensures x.perm.p && x.perm.u && x.ppn == pages + (8 * p + i % 8) / 4096
    ensures y.perm.p && y.perm.u && y.ppn == envs + (124 * e + i) / 4096
  {
    assert (0xEF000000 + 8 * p + i % 8) / 4096 == 0xEF000 + (8 * p + i % 8) / 4096;
    assert (0xEEC00000 + 124 * e + i) / 4096 == 0xEEC00 + (124 * e + i) / 4096;
  }

  /** An image is the old entry or that of a region that holds the page. */
  lemma ImageKind(rs: seq<Region>, w: nat)
    ensures var x := Image(rs, w, PTE0);
            x == PTE0 || exists i :: 0 <= i < |rs| && In(rs[i], w) && x == Entry(rs[i].pa + (w - rs[i].va), rs[i].perm)
  {
    if rs != [] {
      var k := |rs| - 1;
      if In(rs[k], w) {
      } else {
        ImageKind(rs[..k], w);
        var x := Image(rs[..k], w, PTE0);
        if x != PTE0 {
          var i :| 0 <= i < k && In(rs[..k][i], w) && x == Entry(rs[..k][i].pa + (w - rs[..k][i].va), rs[..k][i].perm);
          assert In(rs[i], w);
        }
      }
    }
  }

  // ----- device memory -----

  /** W, PCD and PWT */
  const DEVICE := NO_PERM.(w := true, other := {3, 4})

  /** ROUNDUP(size, PGSIZE) in 32 bits, in pages */
  function Pages(size: nat): nat {
    (size + PGSIZE - 1) / PGSIZE % NVPAGES
  }

  lemma RoundedUp(size: nat)
    requires size < 0x1_0000_0000
    ensures var n := Pages(size);
            && (size + PGSIZE <= 0x1_0000_0000 ==> n * PGSIZE >= size && size > n * PGSIZE - PGSIZE)
            && n < NVPAGES && n * PGSIZE < 0x1_0000_0000 && Rounds(n * PGSIZE) == if n < 0x80000 then n else 0
  {
    var k := (size + PGSIZE - 1) / PGSIZE;
    assert k <= NVPAGES && (k == NVPAGES ==> size + PGSIZE > 0x1_0000_0000);
    assert Pages(size) == if k == NVPAGES then 0 else k;
  }

  /** No region from the device window on reaches round to the UVPT window. */
  lemma ClearOfWindow(base: nat, rounds: nat)
    requires MMIOBASE <= base <= MMIOLIM && rounds < 0x80000
    ensures forall n: nat :: n < rounds ==> !InWindow(Turn(base, n))
    ensures base + rounds <= NVPAGES ==> forall w: nat :: base <= w < base + rounds ==> KernelPage(w)
  {
  }

  /** What was mapped for n pages from base on, if memory did not run out: all of them; nothing, for a size that is
      negative as a signed int; or, past the end of the address space, pages that no kernel may map. */
  ghost predicate Handed(m: Mem, m': Mem, base: nat, n: nat, pa: nat) {
    if n >= 0x80000 then m' == m
    else if base + n <= NVPAGES then m'.free != [] ==> RegionMapped(m, m', base, n, pa, NO_PERM.(w := true, other := {3, 4}))
    else m'.free != [] ==> !Booting(m')
  }

  lemma HandedOut(m: Mem, m': Mem, base: nat, n: nat, done: nat, pa: nat)
    requires MMIOBASE <= base <= MMIOLIM && n < NVPAGES && Booting(m) && KernelTables(m)
    requires MappedSoFar(m, m', base, n * PGSIZE, done, pa, DEVICE)
    requires Rounds(n * PGSIZE) == if n < 0x80000 then n else 0
    requires done < Rounds(n * PGSIZE) ==> m'.free == []
    ensures Handed(m, m', base, n, pa)
  {
    if n < 0x80000 { ClearOfWindow(base, n); }
    if n < 0x80000 && base + n > NVPAGES && m'.free != [] { assert At(m', m'.kdir, 0).perm.p; }
  }

  method MapDevice(mem: Memory, base: nat, n: nat, pa: nat)
    requires mem.Valid() && Booting(mem.View()) && KernelTables(mem.View()) && MMIOBASE <= base <= MMIOLIM
    requires n < NVPAGES && n * PGSIZE < 0x1_0000_0000 && Rounds(n * PGSIZE) == if n < 0x80000 then n else 0
    modifies mem.Footprint()
    ensures mem.Valid() && Handed(old(mem.View()), mem.View(), base, n, pa)
  {
    ghost var m := mem.View();
    BootingIsWalkable(m);
    ClearOfWindow(base, Rounds(n * PGSIZE));
    ghost var done := BootMapRegion(mem, base, n * PGSIZE, pa, DEVICE);
    HandedOut(m, mem.View(), base, n, done, pa);
  }

  /** The panic and the next base, with the sum in 32 bits */
  function NextBase(base: nat, size: nat): nat {
    (base + Pages(size)) % NVPAGES
  }

  /** The window survives, base' being at or above base, exactly when that sum does not wrap; for sizes with which it
      cannot, the panic is for a region that leaves the window, and base' is the end of the region in whole pages. */
  predicate WindowMoved(base: nat, size: nat, panics: bool, base': nat) {
    && (panics <==> NextBase(base, size) > MMIOLIM)
    && base' == (if panics then base else NextBase(base, size))
    && (!panics ==> (base <= base' <= MMIOLIM <==> base + Pages(size) < NVPAGES))
    && (base * PGSIZE + size + PGSIZE <= 0x1_0000_0000 ==>
          && (panics <==> base * PGSIZE + size > MMIOLIM * PGSIZE)
          && (!panics ==> base' * PGSIZE >= base * PGSIZE + size > (base' - 1) * PGSIZE))
  }

  lemma WindowMoves(base: nat, size: nat)
    requires MMIOBASE <= base <= MMIOLIM && size < 0x1_0000_0000
    ensures var panics := NextBase(base, size) > MMIOLIM; WindowMoved(base, size, panics, if panics then base else NextBase(base, size))
  {
    RoundedUp(size);
  }

  /** The static variable of mmio_map_region: the next free page of the device region */
  class DeviceWindow {
    var base: nat

    constructor ()
      ensures base == MMIOBASE
    {
      base := MMIOBASE;
    }

    /** mmio_map_region in whole pages; None is its panic, which tests the sum in 32 bits. Unless that sum wraps, successive
        calls hand out adjacent regions, so that no two overlap, and never leave the window. When it wraps the window moves
        down, and either nothing is mapped, or the region runs on into the user half of the kernel's directory. */
    method MapRegion(mem: Memory, pa: nat, size: nat) returns (r: Option<nat>)
      requires mem.Valid() && Booting(mem.View()) && KernelTables(mem.View())
      requires MMIOBASE <= base <= MMIOLIM && size < 0x1_0000_0000
      modifies this, mem.Footprint()
      ensures mem.Valid() && WindowMoved(old(base), size, r == Option.None, base)
      ensures r == Option.None ==> mem.View() == old(mem.View())
      ensures r != Option.None ==> r.value == old(base) && Handed(old(mem.View()), mem.View(), r.value, Pages(size), pa)
    {
      RoundedUp(size);
      WindowMoves(base, size);
      var next := NextBase(base, size);
      if next > MMIOLIM { return Option.None; }
      MapDevice(mem, base, Pages(size), pa);
      r := Option.Some(base);
      base := next;
    }
  }
}
