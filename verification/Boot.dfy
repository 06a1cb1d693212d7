/** Setting memory up at boot: page_init, boot_map_region, mem_init_mp and
    mmio_map_region (kern/pmap.c:285-386, 510-524, 649-687). */
module Boot {
  import opened Paging
  import opened PagingInvariant
  import opened Pmap

  const PGSIZE: nat := 4096
  const MPENTRY_PADDR: nat := 0x7000
  const IOPHYSMEM: nat := 0x0A0000
  const EXTPHYSMEM: nat := 0x100000

  /** The pages page_init puts on the free list; `next` is the first page boot_alloc has not used. */
  predicate Usable(i: nat, basemem: nat, next: nat) {
    && i != 0
    && if i < basemem then i != MPENTRY_PADDR / PGSIZE
       else !(IOPHYSMEM / PGSIZE <= i < EXTPHYSMEM / PGSIZE) && !(EXTPHYSMEM / PGSIZE <= i < next)
  }

  /** The pages it keeps back: page 0, the one the other CPUs start in, the I/O hole, the kernel and what boot_alloc gave out */
  lemma KeptBack(i: nat, basemem: nat, next: nat)
    requires basemem <= 0x100
    ensures !Usable(i, basemem, next) <==> i == 0 || (i == 7 && 7 < basemem) || (0xA0 <= i < 0x100 && basemem <= i) || 0x100 <= i < next
  {
  }

  ghost predicate Descending(q: seq<nat>) {
    forall i, j :: 0 <= i < j < |q| ==> q[i] > q[j]
  }

  /** page_init lists exactly the usable pages, highest first, and the memory it
      leaves satisfies the invariant with every other page counted as a boot page. */
  method PageInit(mem: Memory, basemem: nat, next: nat)
    requires mem.Valid() && mem.free == [] && mem.env_pgdir == map[] && mem.lost == {}
    requires forall i: nat :: i < mem.npages ==> mem.pp_ref[i] == 0
    requires EXTPHYSMEM / PGSIZE <= mem.kern_pgdir < next && mem.kern_pgdir < mem.npages
    requires basemem <= EXTPHYSMEM / PGSIZE
    requires forall d: nat :: d < UTOPX ==> mem.ram[mem.kern_pgdir][d] == PTE0
    modifies mem, mem.pp_ref, mem.pp_link
    ensures mem.Valid() && Descending(mem.free)
    ensures forall p: nat :: p in mem.free <==> p < mem.npages && Usable(p, basemem, next)
    ensures forall p: nat :: p < mem.npages ==> mem.pp_ref[p] == if Usable(p, basemem, next) then 0 else 1
    ensures mem.ram[..] == old(mem.ram[..]) && Booting(mem.View()) && Inv(mem.View())
    ensures mem.kern == set p: nat | p < mem.npages && !Usable(p, basemem, next)
    ensures mem.env_pgdir == map[] && mem.lost == {}
  {
    InitPages(mem, basemem, next);
    mem.kern := set p: nat | p < mem.npages && !Usable(p, basemem, next);
    Started(mem.View(), basemem, next);
  }

  /** What page_init leaves is a memory before the first environment. */
  lemma Started(m: Mem, basemem: nat, next: nat)
    requires Dims(m) && m.dirs == map[] && m.lost == {} && NoDup(m.free)
    requires EXTPHYSMEM / PGSIZE <= m.kdir < next && m.kdir < |m.frame| && basemem <= EXTPHYSMEM / PGSIZE
    requires forall d: nat :: d < UTOPX ==> m.frame[m.kdir][d] == PTE0
    requires forall p: nat :: p in m.free <==> p < |m.ref| && Usable(p, basemem, next)
    requires forall p: nat :: p < |m.ref| ==> m.ref[p] == if Usable(p, basemem, next) then 0 else 1
    requires m.kern == set p: nat | p < |m.ref| && !Usable(p, basemem, next)
    ensures Booting(m) && Inv(m)
  {
    FirstState(m);
  }

  method InitPages(mem: Memory, basemem: nat, next: nat)
    requires mem.Valid() && mem.free == []
    requires forall i: nat :: i < mem.npages ==> mem.pp_ref[i] == 0
    modifies mem`page_free_list, mem`free, mem.pp_ref, mem.pp_link
    ensures mem.Valid() && Descending(mem.free)
    ensures forall p: nat :: p in mem.free <==> p < mem.npages && Usable(p, basemem, next)
    ensures forall p: nat :: p < mem.npages ==> mem.pp_ref[p] == if Usable(p, basemem, next) then 0 else 1
  {
    for i := 0 to mem.npages
      invariant mem.Valid() && FreeUpTo(mem.free, i, basemem, next) && CountsUpTo(mem.pp_ref[..], i, basemem, next)
    {
      ghost var q, refs := mem.free, mem.pp_ref[..];
      InitPage(mem, i, basemem, next);
      OneMorePage(q, refs, i, basemem, next);
    }
  }

  /** The free list and the counts when the pages below i are done */
  ghost predicate FreeUpTo(q: seq<nat>, i: nat, basemem: nat, next: nat) {
    Descending(q) && forall p: nat :: p in q <==> p < i && Usable(p, basemem, next)
  }

  ghost predicate CountsUpTo(refs: seq<nat>, i: nat, basemem: nat, next: nat) {
    forall p: nat :: p < |refs| ==> refs[p] == if p < i && !Usable(p, basemem, next) then 1 else 0
  }

  lemma OneMorePage(q: seq<nat>, refs: seq<nat>, i: nat, basemem: nat, next: nat)
    requires FreeUpTo(q, i, basemem, next) && CountsUpTo(refs, i, basemem, next) && i < |refs|
    ensures FreeUpTo(if Usable(i, basemem, next) then [i] + q else q, i + 1, basemem, next)
    ensures CountsUpTo(refs[i := if Usable(i, basemem, next) then 0 else 1], i + 1, basemem, next)
  {
    forall k | 0 <= k < |q| ensures q[k] < i { assert q[k] in q; }
  }

  /** The body of page_init's loop */
  method InitPage(mem: Memory, i: nat, basemem: nat, next: nat)
    requires mem.Valid() && i < mem.npages && i !in mem.free && mem.pp_ref[i] == 0
    modifies mem`page_free_list, mem`free, mem.pp_ref, mem.pp_link
    ensures mem.Valid()
    ensures mem.free == (if Usable(i, basemem, next) then [i] + old(mem.free) else old(mem.free))
    ensures mem.pp_ref[..] == old(mem.pp_ref[..])[i := if Usable(i, basemem, next) then 0 else 1]
  {
    if i == 0 {
      Occupy(mem, i, true);
    } else if i < basemem {
      if i == MPENTRY_PADDR / PGSIZE {
        Occupy(mem, i, false);
        return;
      }
      LinkFree(mem, i);
    } else if IOPHYSMEM / PGSIZE <= i < EXTPHYSMEM / PGSIZE {
      Occupy(mem, i, true);
    } else if EXTPHYSMEM / PGSIZE <= i < next {
      Occupy(mem, i, true);
    } else {
      LinkFree(mem, i);
    }
  }

  /** Page i is counted once and, but for one case, off the list */
  method Occupy(mem: Memory, i: nat, unlink: bool)
    requires mem.Valid() && i < mem.npages && i !in mem.free
    modifies mem.pp_ref, mem.pp_link
    ensures mem.Valid() && mem.pp_ref[..] == old(mem.pp_ref[..])[i := 1]
  {
    assert forall k :: 0 <= k < |mem.free| ==> mem.free[k] in mem.free;
    mem.pp_ref[i] := 1;
    if unlink { mem.pp_link[i] := NULL; }
  }

  /** Before the first environment: one count per boot page, the rest free. */
  ghost predicate Booting(m: Mem) {
    && Dims(m) && m.dirs == map[] && m.lost == {} && NoDup(m.free)
    && m.kdir < |m.frame| && m.kdir in m.kern && 0 in m.kern
    && (forall d: nat :: d < UTOPX ==> At(m, m.kdir, d) == PTE0)
    && (forall p: nat :: p < |m.ref| ==> m.ref[p] == if p in m.kern then 1 else 0)
    && (forall p: nat :: p < |m.ref| ==> (p in m.free <==> p !in m.kern))
  }

  lemma FirstState(m: Mem)
    requires Booting(m)
    ensures Inv(m)
  {
    forall d | 0 <= d < UTOPX ensures m.frame[m.kdir][d] == PTE0 { assert At(m, m.kdir, d) == PTE0; }
    NoReferences(m);
  }

  /** Page i, with its count cleared, goes to the front of the free list. */
  method LinkFree(mem: Memory, i: nat)
    requires mem.Valid() && i < mem.npages && i !in mem.free
    modifies mem`page_free_list, mem`free, mem.pp_link, mem.pp_ref
    ensures mem.Valid() && mem.free == [i] + old(mem.free) && mem.pp_ref[..] == old(mem.pp_ref[..])[i := 0]
  {
    assert forall k :: 0 <= k < |mem.free| ==> mem.free[k] in mem.free;
    Push(mem.page_free_list, mem.pp_link[..], mem.free, i);
    mem.pp_ref[i] := 0;
    mem.pp_link[i] := mem.page_free_list;
    mem.page_free_list := i;
    mem.free := [i] + mem.free;
  }

  /** With no environment nothing below UTOP refers to any page. */
  lemma NoReferences(m: Mem)
    requires m.dirs == map[]
    ensures forall s :: Slot(m, s) == PTE0
    ensures forall p: nat :: Refs(m, p) == {}
  {
  }

  // ----- the kernel's own address space -----

  const NVPAGES: nat := 0x100000

  /** Page v lies in the UVPT window, where the directory shows itself. */
  predicate InWindow(v: nat) { v / NPTENTRIES == UVPTX }

  /** The kernel directory's entry for virtual page v */
  function KEntry(m: Mem, v: nat): Pte {
    var pde := At(m, m.kdir, v / NPTENTRIES);
    if pde.perm.p then At(m, pde.ppn, v % NPTENTRIES) else PTE0
  }

  /** The kernel's page tables are boot pages, each used once, and not the directory. */
  ghost predicate KernelTables(m: Mem) {
    && m.kdir < |m.frame|
    && (forall d: nat :: KTable(m, d) ==> Opens(At(m, m.kdir, d).perm) && At(m, m.kdir, d).ppn in m.kern && At(m, m.kdir, d).ppn < |m.frame|
                                          && At(m, m.kdir, d).ppn != m.kdir)
    && (forall d: nat, d': nat :: d != d' && KTable(m, d) && KTable(m, d') ==> At(m, m.kdir, d).ppn != At(m, m.kdir, d').ppn)
  }

  predicate KTable(m: Mem, d: nat) {
    UTOPX <= d < NPTENTRIES && d != UVPTX && At(m, m.kdir, d).perm.p
  }

  /** Virtual pages the kernel maps at boot: above UTOP, outside the window */
  predicate KernelPage(v: nat) {
    UTOPX * NPTENTRIES <= v < NVPAGES && !InWindow(v)
  }

  /** m' has x at virtual page v and is otherwise as m, outside the window. */
  ghost predicate KernelMapped(m: Mem, m': Mem, v: nat, x: Pte) {
    && Booting(m') && KernelTables(m') && m'.kdir == m.kdir && m.kern <= m'.kern
    && (m.free == [] ==> m'.free == [])
    && (forall w: nat :: KernelPage(w) ==> KEntry(m', w) == if w == v then x else KEntry(m, w))
  }

  /** pgdir_walk on the kernel directory; a new table joins the boot pages. */
  function KernelWalk(m: Mem, d: nat): (Option<nat>, Mem)
    requires Dims(m) && m.kdir < |m.frame| && d < NPTENTRIES
  {
    var (o, m1) := Walk(m, m.kdir, d, true);
    (o, if o.Some? then m1.(kern := m.kern + {o.value}) else m1)
  }

  lemma KernelWalkKeeps(m: Mem, d: nat)
    requires Booting(m) && KernelTables(m) && UTOPX <= d < NPTENTRIES && d != UVPTX
    ensures var (o, m1) := KernelWalk(m, d);
            && (o.None? ==> m.free == [] && m1 == m)
            && (o.Some? ==>
                  && Booting(m1) && KernelTables(m1) && m1.kdir == m.kdir && m.kern <= m1.kern && (m.free == [] ==> m1.free == [])
                  && KTable(m1, d) && At(m1, m1.kdir, d).ppn == o.value && o.value < |m1.frame|
                  && (forall w: nat :: KernelPage(w) ==> KEntry(m1, w) == KEntry(m, w)))
  {
    var (o, m1) := KernelWalk(m, d);
    if o.Some? && !At(m, m.kdir, d).perm.p {
      KernelTableAdded(m, d, m1, o.value);
    } else if o.Some? {
      assert KTable(m, d);
      assert m.kern + {o.value} == m.kern;
      assert m1 == m;
    }
  }

  /** A new kernel table, zeroed and taken from the free list, is a boot page from now on. */
  lemma KernelTableAdded(m: Mem, d: nat, m1: Mem, p: nat)
    requires Booting(m) && KernelTables(m) && UTOPX <= d < NPTENTRIES && d != UVPTX && !At(m, m.kdir, d).perm.p
    requires KernelWalk(m, d) == (Option.Some(p), m1)
    ensures Booting(m1) && KernelTables(m1) && m1.kdir == m.kdir && m.kern <= m1.kern && (m.free == [] ==> m1.free == [])
    ensures KTable(m1, d) && At(m1, m1.kdir, d).ppn == p && p < |m1.frame|
    ensures forall w: nat :: KernelPage(w) ==> KEntry(m1, w) == KEntry(m, w)
  {
    assert p == m.free[0] && p in m.free && p !in m.kern;
    assert m.free == [p] + m1.free;
    forall d': nat | d' < NPTENTRIES ensures At(m1, m.kdir, d') == if d' == d then Pte(p, DIR_PERM) else At(m, m.kdir, d') {}
    forall d': nat ensures KTable(m1, d') <==> d' == d || KTable(m, d') {
      if UTOPX <= d' < NPTENTRIES { assert At(m1, m1.kdir, d') == At(m1, m.kdir, d'); }
    }
    forall d': nat | d' < UTOPX ensures At(m1, m1.kdir, d') == PTE0 { assert At(m1, m.kdir, d') == At(m, m.kdir, d'); }
    forall d': nat | KTable(m1, d')
      ensures At(m1, m1.kdir, d').ppn in m1.kern && At(m1, m1.kdir, d').ppn < |m1.frame|
      ensures At(m1, m1.kdir, d').ppn != m1.kdir
      ensures d' != d ==> At(m1, m1.kdir, d') == At(m, m.kdir, d') && At(m1, m1.kdir, d').ppn != p
    {
      assert At(m1, m.kdir, d') == if d' == d then Pte(p, DIR_PERM) else At(m, m.kdir, d');
    }
    forall d': nat, t: nat | KTable(m, d') ensures At(m1, At(m, m.kdir, d').ppn, t) == At(m, At(m, m.kdir, d').ppn, t) {}
    forall w: nat | KernelPage(w) ensures KEntry(m1, w) == KEntry(m, w) {
      if w / NPTENTRIES == d { assert At(m1, p, w % NPTENTRIES) == PTE0; }
      else if At(m, m.kdir, w / NPTENTRIES).perm.p { assert KTable(m, w / NPTENTRIES); }
    }
  }

  lemma KernelStore(m: Mem, v: nat, x: Pte)
    requires Booting(m) && KernelTables(m) && KernelPage(v) && KTable(m, v / NPTENTRIES)
    ensures var pt := At(m, m.kdir, v / NPTENTRIES).ppn;
            pt < |m.frame| && KernelMapped(m, SetEntry(m, pt, v % NPTENTRIES, x), v, x)
  {
    var d := v / NPTENTRIES;
    var pt := At(m, m.kdir, d).ppn;
    var m' := SetEntry(m, pt, v % NPTENTRIES, x);
    forall i: nat ensures At(m', m.kdir, i) == At(m, m.kdir, i) {}
    forall w: nat | KernelPage(w) ensures KEntry(m', w) == if w == v then x else KEntry(m, w) {
      var d' := w / NPTENTRIES;
      if At(m, m.kdir, d').perm.p {
        assert KTable(m, d');
        if d' != d { assert At(m, m.kdir, d').ppn != pt; }
        else if w != v { assert w % NPTENTRIES != v % NPTENTRIES; }
      }
    }
  }

  // ----- boot_map_region and its callers -----

  /** Turns of boot_map_region's loop: the counter is a signed int. */
  function Rounds(size: nat): nat {
    if size < 0x80000000 then (size + PGSIZE - 1) / PGSIZE else 0
  }

  /** From m to m' the kernel's virtual pages [va, va+n) came to map [pa, pa+n), and no other page changed. */
  ghost predicate RegionMapped(m: Mem, m': Mem, va: nat, n: nat, pa: nat, perm: Perm) {
    && Booting(m') && KernelTables(m') && m'.kdir == m.kdir && m.kern <= m'.kern
    && (m.free == [] ==> m'.free == [])
    && (forall w: nat :: KernelPage(w) ==>
          KEntry(m', w) == if va <= w < va + n then Entry(pa + (w - va), perm) else KEntry(m, w))
  }

  /** The kernel directory can be walked: its tables are pages in use, none of them the directory itself, which only
      the UVPT window shows. */
  ghost predicate Walkable(m: Mem) {
    Dims(m) && m.kdir < |m.frame| && m.kdir !in m.free && NoDup(m.free) && forall d: nat :: TableFits(m, d)
  }

  predicate TableFits(m: Mem, d: nat) {
    var pde := At(m, m.kdir, d);
    pde.perm.p && d != UVPTX ==> pde.ppn < |m.frame| && pde.ppn !in m.free && pde.ppn != m.kdir
  }

  lemma BootingIsWalkable(m: Mem)
    requires Booting(m) && KernelTables(m)
    ensures Walkable(m)
  {
    forall d: nat ensures TableFits(m, d) { assert d >= UTOPX && At(m, m.kdir, d).perm.p && d != UVPTX ==> KTable(m, d); }
  }

  predicate KeepsTable(m: Mem, m': Mem, d: nat) {
    At(m, m.kdir, d).perm.p ==> At(m', m.kdir, d).perm.p
  }

  /** m' is walkable with at least the tables of m. */
  ghost predicate Grown(m: Mem, m': Mem) {
    Walkable(m') && m'.kdir == m.kdir && forall d: nat :: KeepsTable(m, m', d)
  }

  lemma WalkFits(m: Mem, d: nat)
    requires Walkable(m) && d < NPTENTRIES && d != UVPTX
    ensures var (o, m1) := KernelWalk(m, d);
            && Grown(m, m1)
            && (o.None? ==> m.free == [] && m1 == m)
            && (o.Some? ==> At(m1, m.kdir, d).perm.p && At(m1, m.kdir, d).ppn == o.value)
  {
    var (o, m1) := KernelWalk(m, d);
    assert TableFits(m, d);
    if o.Some? && !At(m, m.kdir, d).perm.p {
      var p := o.value;
      assert m.free == [p] + m1.free && p in m.free;
      forall d': nat ensures At(m1, m.kdir, d') == if d' == d then Pte(p, DIR_PERM) else At(m, m.kdir, d') {}
    }
    forall d': nat ensures TableFits(m1, d') && KeepsTable(m, m1, d') { assert TableFits(m, d'); }
  }

  lemma StoreFits(m: Mem, d: nat, i: nat, x: Pte)
    requires Walkable(m) && d != UVPTX && At(m, m.kdir, d).perm.p && i < NPTENTRIES
    ensures var pt := At(m, m.kdir, d).ppn;
            pt < |m.frame| && Grown(m, SetEntry(m, pt, i, x))
  {
    assert TableFits(m, d);
    var m' := SetEntry(m, At(m, m.kdir, d).ppn, i, x);
    forall d': nat ensures TableFits(m', d') && KeepsTable(m, m', d') { assert TableFits(m, d') && At(m', m.kdir, d') == At(m, m.kdir, d'); }
  }

  /** Virtual page v came to map x. */
  ghost predicate PageMapped(m: Mem, m': Mem, v: nat, x: Pte) {
    && Grown(m, m') && At(m', m.kdir, v / NPTENTRIES).perm.p
    && (Booting(m) && KernelTables(m) && KernelPage(v) ==> KernelMapped(m, m', v, x))
  }

  /** One turn of boot_map_region on values: None without memory for a page table */
  ghost function PageAt(m: Mem, v: nat, x: Pte): Option<Mem> {
    if !Walkable(m) || v >= NVPAGES || InWindow(v) then Option.None
    else
      WalkFits(m, v / NPTENTRIES);
      var (o, m1) := KernelWalk(m, v / NPTENTRIES);
      if o.None? then Option.None
      else
        StoreFits(m1, v / NPTENTRIES, v % NPTENTRIES, x);
        Option.Some(SetEntry(m1, o.value, v % NPTENTRIES, x))
  }

  /** n turns from virtual page va and physical page pa on */
  ghost function MapPages(m: Mem, va: nat, n: nat, pa: nat, perm: Perm): Option<Mem>
    decreases n
  {
    if n == 0 then Option.Some(m)
    else
      var o := MapPages(m, va, n - 1, pa, perm);
      if o.None? then Option.None else PageAt(o.value, Turn(va, n - 1), Entry(pa + n - 1, perm))
  }

  ghost predicate MapsPage(m: Mem, m': Mem, v: nat, x: Pte) {
    PageAt(m, v, x) == Option.Some(m')
  }

  ghost predicate MapsTo(m: Mem, m': Mem, va: nat, n: nat, pa: nat, perm: Perm) {
    MapPages(m, va, n, pa, perm) == Option.Some(m')
  }

  /** One turn of boot_map_region: point virtual page v at x. */
  method MapOne(mem: Memory, v: nat, x: Pte) returns (ok: bool)
    requires mem.Valid() && Walkable(mem.View()) && v < NVPAGES && !InWindow(v)
    modifies mem.Footprint()
    ensures mem.Valid() && Walkable(mem.View())
    ensures ok ==> MapsPage(old(mem.View()), mem.View(), v, x)
    ensures !ok ==> mem.free == [] && mem.View() == old(mem.View())
  {
    ghost var m := mem.View();
    var d := v / NPTENTRIES;
    WalkFits(m, d);
    var pt := mem.PgdirWalk(mem.kern_pgdir, d, true);
    if pt == NULL { return false; }
    mem.kern := mem.kern + {pt};
    ghost var m1 := mem.View();
    assert m1 == KernelWalk(m, d).1;
    StoreFits(m1, d, v % NPTENTRIES, x);
    mem.ram[pt] := mem.ram[pt][v % NPTENTRIES := x];
    ok := true;
  }

  lemma PageAtMaps(m: Mem, m': Mem, v: nat, x: Pte)
    requires MapsPage(m, m', v, x)
    ensures PageMapped(m, m', v, x)
  {
    WalkFits(m, v / NPTENTRIES);
    StoreFits(KernelWalk(m, v / NPTENTRIES).1, v / NPTENTRIES, v % NPTENTRIES, x);
    MappedOne(m, KernelWalk(m, v / NPTENTRIES).1, m', v, x);
  }

  lemma MappedOne(m: Mem, m1: Mem, m': Mem, v: nat, x: Pte)
    requires Walkable(m) && v < NVPAGES && !InWindow(v) && KernelWalk(m, v / NPTENTRIES).0.Some? && m1 == KernelWalk(m, v / NPTENTRIES).1
    requires Grown(m, m1) && At(m1, m.kdir, v / NPTENTRIES).perm.p && At(m1, m.kdir, v / NPTENTRIES).ppn < |m1.frame|
    requires m' == SetEntry(m1, At(m1, m.kdir, v / NPTENTRIES).ppn, v % NPTENTRIES, x)
    ensures PageMapped(m, m', v, x)
  {
    StoreFits(m1, v / NPTENTRIES, v % NPTENTRIES, x);
    forall d: nat ensures KeepsTable(m, m', d) { assert KeepsTable(m, m1, d) && KeepsTable(m1, m', d); }
    assert KeepsTable(m1, m', v / NPTENTRIES);
    if Booting(m) && KernelTables(m) && KernelPage(v) {
      KernelWalkKeeps(m, v / NPTENTRIES);
      KernelStore(m1, v, x);
    }
  }

  /** The region is one of the kernel's, above UTOP and below the end of the address space. */
  ghost predicate Regular(m: Mem, va: nat, size: nat) {
    Booting(m) && KernelTables(m) && forall w: nat :: va <= w < va + Rounds(size) ==> KernelPage(w)
  }

  /** After n turns: of a regular region the first n pages are mapped; past the end of the address space page 0's table is there. */
  ghost predicate MappedSoFar(m0: Mem, m: Mem, va: nat, size: nat, n: nat, pa: nat, perm: Perm) {
    && Walkable(m) && m.kdir == m0.kdir && n <= Rounds(size) && (n == 0 ==> m == m0)
    && (Regular(m0, va, size) ==> RegionMapped(m0, m, va, n, pa, perm))
    && (va + n > NVPAGES ==> At(m, m.kdir, 0).perm.p)
  }

  lemma Progresses(m0: Mem, m: Mem, m': Mem, va: nat, size: nat, n: nat, pa: nat, perm: Perm)
    requires MappedSoFar(m0, m, va, size, n, pa, perm) && n < Rounds(size) && va < NVPAGES
    requires PageMapped(m, m', Turn(va, n), Entry(pa + n, perm))
    ensures MappedSoFar(m0, m', va, size, n + 1, pa, perm)
  {
    assert KeepsTable(m, m', 0);
    if Regular(m0, va, size) {
      assert KernelPage(va + n);
      RegionGrows(m0, m, m', va, n, pa, perm);
    }
  }

  /** The virtual page of turn n, and the counter before it */
  function Turn(va: nat, n: nat): nat {
    if va + n < NVPAGES then va + n else va + n - NVPAGES
  }

  function Left(size: nat, n: nat): int {
    if size < 0x80000000 then size - n * PGSIZE else size - 0x1_0000_0000
  }

  lemma NextPage(va: nat, size: nat, n: nat, v: nat, i: int)
    requires v == Turn(va, n) && i == Left(size, n) && size < 0x80000000 && va < NVPAGES && n < 0x80000
    ensures Following(v) == Turn(va, n + 1) && i - PGSIZE == Left(size, n + 1)
  {
  }

  /** The next virtual page, in 32 bits */
  function Following(v: nat): nat {
    if v + 1 == NVPAGES then 0 else v + 1
  }

  /** The turns do what they should. */
  lemma {:induction false} PagesMapped(m0: Mem, m: Mem, va: nat, size: nat, n: nat, pa: nat, perm: Perm)
    requires Walkable(m0) && va < NVPAGES && n <= Rounds(size) && MapsTo(m0, m, va, n, pa, perm)
    ensures MappedSoFar(m0, m, va, size, n, pa, perm)
    decreases n
  {
    if n == 0 {
      NoTurns(m0, va, size, pa, perm);
    } else {
      var before := LastTurn(m0, m, va, n, pa, perm);
      PagesMapped(m0, before, va, size, n - 1, pa, perm);
      TurnMapped(m0, before, m, va, size, n - 1, pa, perm);
    }
  }

  lemma LastTurn(m0: Mem, m: Mem, va: nat, n: nat, pa: nat, perm: Perm) returns (before: Mem)
    requires n > 0 && MapsTo(m0, m, va, n, pa, perm)
    ensures MapsTo(m0, before, va, n - 1, pa, perm)
    ensures MapsPage(before, m, Turn(va, n - 1), Entry(pa + (n - 1), perm))
  {
    before := MapPages(m0, va, n - 1, pa, perm).value;
  }

  lemma TurnMapped(m0: Mem, m: Mem, m': Mem, va: nat, size: nat, n: nat, pa: nat, perm: Perm)
    requires MappedSoFar(m0, m, va, size, n, pa, perm) && va < NVPAGES && n < Rounds(size)
    requires MapsPage(m, m', Turn(va, n), Entry(pa + n, perm))
    ensures MappedSoFar(m0, m', va, size, n + 1, pa, perm)
  {
    PageAtMaps(m, m', Turn(va, n), Entry(pa + n, perm));
    Progresses(m0, m, m', va, size, n, pa, perm);
  }

  lemma NoTurns(m: Mem, va: nat, size: nat, pa: nat, perm: Perm)
    requires Walkable(m) && va < NVPAGES
    ensures MappedSoFar(m, m, va, size, 0, pa, perm)
  {
  }

  /** boot_map_region on the kernel directory, in whole pages: without memory for a page table it stops
      early and says nothing. n pages were mapped. A region that runs past the end of the address space goes
      on at address 0, in the half of the directory that must stay empty. */
  method BootMapRegion(mem: Memory, va: nat, size: nat, pa: nat, perm: Perm) returns (ghost n: nat)
    requires mem.Valid() && Walkable(mem.View()) && size < 0x1_0000_0000 && va < NVPAGES
    requires forall n: nat :: n < Rounds(size) ==> !InWindow(Turn(va, n))
    modifies mem.Footprint()
    ensures mem.Valid() && MappedSoFar(old(mem.View()), mem.View(), va, size, n, pa, perm)
    ensures n < Rounds(size) ==> mem.free == []
  {
    ghost var m0 := mem.View();
    n := 0;
    var v, p := va, pa;
    var i: int := if size < 0x80000000 then size else size - 0x1_0000_0000;
    while i > 0
      invariant mem.Valid() && Walkable(mem.View()) && n <= Rounds(size) && MapsTo(m0, mem.View(), va, n, pa, perm)
      invariant v == Turn(va, n) && p == pa + n && i == Left(size, n)
      decreases i
    {
      MoreRounds(size, n);
      var ok := MapNext(mem, v, p, m0, va, n, pa, perm);
      if !ok { break; }
      NextPage(va, size, n, v, i);
      v, p, i := Following(v), p + 1, i - PGSIZE;
      n := n + 1;
    }
    MoreRounds(size, n);
    PagesMapped(m0, mem.View(), va, size, n, pa, perm);
  }

  /** One turn of the loop */
  method MapNext(mem: Memory, v: nat, p: nat, ghost m0: Mem, ghost va: nat, ghost n: nat, ghost pa: nat, perm: Perm) returns (ok: bool)
    requires mem.Valid() && Walkable(mem.View()) && MapsTo(m0, mem.View(), va, n, pa, perm)
    requires v == Turn(va, n) && p == pa + n && v < NVPAGES && !InWindow(v)
    modifies mem.Footprint()
    ensures mem.Valid() && Walkable(mem.View())
    ensures ok ==> MapsTo(m0, mem.View(), va, n + 1, pa, perm)
    ensures !ok ==> mem.free == [] && mem.View() == old(mem.View())
  {
    ghost var m := mem.View();
    ok := MapOne(mem, v, Entry(p, perm));
    if ok { OneMoreTurn(m0, m, mem.View(), va, n, pa, perm); }
  }

  lemma OneMoreTurn(m0: Mem, m: Mem, m': Mem, va: nat, n: nat, pa: nat, perm: Perm)
    requires MapsTo(m0, m, va, n, pa, perm) && MapsPage(m, m', Turn(va, n), Entry(pa + n, perm))
    ensures MapsTo(m0, m', va, n + 1, pa, perm)
  {
  }

  lemma MoreRounds(size: nat, n: nat)
    requires size < 0x1_0000_0000
    ensures if Left(size, n) > 0 then size < 0x80000000 && n < Rounds(size) else Rounds(size) <= n
  {
  }

  lemma RegionGrows(m0: Mem, m: Mem, m': Mem, va: nat, n: nat, pa: nat, perm: Perm)
    requires RegionMapped(m0, m, va, n, pa, perm) && KernelMapped(m, m', va + n, Entry(pa + n, perm))
    ensures RegionMapped(m0, m', va, n + 1, pa, perm)
  {
  }
}
