/** Physical pages, two-level page tables and the references between them
    (kern/pmap.c, inc/mmu.h, inc/memlayout.h), as an immutable value.

    A page of memory is kept as the 1024 entries it holds when it is used as a
    page directory or page table; what a data page holds does not matter here.
    Everything the hardware can reach below UTOP is described by one function,
    `Slot`: the entry found at a *site*, which is an environment's directory
    pointer, one of its directory entries, or one of its page-table entries. */
module Paging {
  const NPTENTRIES: nat := 1024
  /** PDX(UTOP): directory entries from this index on belong to the kernel. */
  const UTOPX: nat := 955
  /** PDX(UVPT), the self-map entry. */
  const UVPTX: nat := 957
  /** pp_ref is a uint16_t. */
  const REF_MODULUS: nat := 0x10000

  /** The flag bits of an entry: P, W, U, the PTE_AVAIL bits 0x200, 0x400 and
      0x800 (PTE_COW), and the set of all other bit positions that are set. */
  datatype Perm = Perm(p: bool, w: bool, u: bool, a9: bool, a10: bool, cow: bool, other: set<nat>)

  datatype Pte = Pte(ppn: nat, perm: Perm)

  const NO_PERM := Perm(false, false, false, false, false, false, {})
  const PTE0 := Pte(0, NO_PERM)
  const DIR_PERM := Perm(true, true, true, false, false, false, {})

  const SELF_PERM := Perm(true, false, true, false, false, false, {})

  /** page2pa(pp) | perm | PTE_P */
  function Entry(pp: nat, perm: Perm): Pte {
    Pte(pp, perm.(p := true))
  }

  /** `lost` collects pages that left the free list and can never return to it. */
  datatype Mem = Mem(
    ref: seq<nat>,
    free: seq<nat>,
    frame: seq<seq<Pte>>,
    dirs: map<nat, nat>,
    kdir: nat,
    kern: set<nat>,
    lost: set<nat>)

  datatype Site = Dir(e: nat) | Table(e: nat, d: nat) | Page(e: nat, d: nat, t: nat)

  function At(m: Mem, p: nat, i: nat): Pte {
    if p < |m.frame| && i < |m.frame[p]| then m.frame[p][i] else PTE0
  }

  function Pde(m: Mem, e: nat, d: nat): Pte {
    if e in m.dirs && d < UTOPX then At(m, m.dirs[e], d) else PTE0
  }

  function PteOf(m: Mem, e: nat, d: nat, t: nat): Pte {
    if Pde(m, e, d).perm.p && t < NPTENTRIES then At(m, Pde(m, e, d).ppn, t) else PTE0
  }

  function Slot(m: Mem, s: Site): Pte {
    match s
    case Dir(e) => if e in m.dirs then Pte(m.dirs[e], DIR_PERM) else PTE0
    case Table(e, d) => Pde(m, e, d)
    case Page(e, d, t) => PteOf(m, e, d, t)
  }

  /** The page a site refers to, or -1. */
  function Target(m: Mem, s: Site): int {
    if Slot(m, s).perm.p then Slot(m, s).ppn else -1
  }

  /** All sites that could be in use given the set of live environments. */
  function SiteSpace(envs: set<nat>): set<Site> {
    (set e | e in envs :: Dir(e))
    + (set e, d | e in envs && 0 <= d < UTOPX :: Table(e, d))
    + (set e, d, t | e in envs && 0 <= d < UTOPX && 0 <= t < NPTENTRIES :: Page(e, d, t))
  }

  /** The references to page p: what pp_ref is meant to count. */
  function Refs(m: Mem, p: nat): set<Site> {
    set s | s in SiteSpace(m.dirs.Keys) && Target(m, s) == p
  }

  lemma InSpace(m: Mem, s: Site)
    requires Slot(m, s).perm.p
    ensures s in SiteSpace(m.dirs.Keys)
  {
  }

  lemma InRefs(m: Mem, p: nat, s: Site)
    ensures s in Refs(m, p) <==> Target(m, s) == p
  {
    if Target(m, s) == p { InSpace(m, s); }
  }

  // ----- the operations of kern/pmap.c -----

  datatype Option<T> = None | Some(value: T)

  function ZeroFrame(): seq<Pte> {
    seq(NPTENTRIES, i => PTE0)
  }

  /** Increment and decrement of a uint16_t. */
  function Inc16(n: nat): nat { (n + 1) % REF_MODULUS }
  function Dec16(n: nat): nat { (n + REF_MODULUS - 1) % REF_MODULUS }

  /** pp_ref counts from 0 to 65535 and round again. */
  lemma SixteenBits(n: nat)
    requires n <= 65535
    ensures Inc16(n) == (if n == 65535 then 0 else n + 1) && Dec16(n) == (if n == 0 then 65535 else n - 1)
  {
  }

  ghost predicate Dims(m: Mem) {
    && |m.ref| == |m.frame|
    && (forall p :: 0 <= p < |m.frame| ==> |m.frame[p]| == NPTENTRIES)
    && (forall i :: 0 <= i < |m.free| ==> m.free[i] < |m.ref|)
  }

  /** page_alloc(ALLOC_ZERO) */
  function PageAlloc(m: Mem): (r: (Option<nat>, Mem))
    requires Dims(m)
    ensures Dims(r.1)
  {
    if m.free == [] then (None, m)
    else
      var p := m.free[0];
      (Some(p), m.(free := m.free[1..], frame := m.frame[p := ZeroFrame()]))
  }

  function Incref(m: Mem, p: nat): (r: Mem)
    requires Dims(m) && p < |m.ref|
    ensures Dims(r)
  {
    m.(ref := m.ref[p := Inc16(m.ref[p])])
  }

  /** page_decref, with page_free for a count that reaches zero */
  function Decref(m: Mem, p: nat): (r: Mem)
    requires Dims(m) && p < |m.ref|
    ensures Dims(r)
  {
    var n := Dec16(m.ref[p]);
    m.(ref := m.ref[p := n], free := if n == 0 then [p] + m.free else m.free)
  }

  function SetEntry(m: Mem, p: nat, i: nat, x: Pte): (r: Mem)
    requires Dims(m) && p < |m.frame| && i < NPTENTRIES
    ensures Dims(r)
  {
    m.(frame := m.frame[p := m.frame[p][i := x]])
  }

  /** pgdir_walk: the page holding the entry for directory index d, if any. */
  function Walk(m: Mem, pgdir: nat, d: nat, create: bool): (r: (Option<nat>, Mem))
    requires Dims(m) && pgdir < |m.frame| && d < NPTENTRIES
    ensures Dims(r.1)
  {
    var pde := m.frame[pgdir][d];
    if pde.perm.p then (Some(pde.ppn), m)
    else if !create then (None, m)
    else
      var (np, m1) := PageAlloc(m);
      match np
      case None => (None, m1)
      case Some(p) => (Some(p), SetEntry(Incref(m1, p), pgdir, d, Pte(p, DIR_PERM)))
  }

  /** The page named by the entry of (d, t), present or not: page_lookup does not test PTE_P. */
  function PageLookup(m: Mem, pgdir: nat, d: nat, t: nat): Option<nat>
    requires Dims(m) && pgdir < |m.frame| && d < NPTENTRIES && t < NPTENTRIES
  {
    match Walk(m, pgdir, d, false).0
    case None => None
    case Some(pt) => Some(At(m, pt, t).ppn)
  }

  /** The table of (pgdir, d) and the page named by its entry t exist; otherwise KADDR or pa2page panics. */
  predicate InRange(m: Mem, pgdir: nat, d: nat, t: nat) {
    && pgdir < |m.frame| && d < NPTENTRIES && t < NPTENTRIES
    && (At(m, pgdir, d).perm.p ==>
        At(m, pgdir, d).ppn < |m.frame| && At(m, At(m, pgdir, d).ppn, t).ppn < |m.frame|)
  }

  function PageRemove(m: Mem, pgdir: nat, d: nat, t: nat): (r: Mem)
    requires Dims(m) && InRange(m, pgdir, d, t)
    ensures Dims(r)
  {
    match Walk(m, pgdir, d, false).0
    case None => m
    case Some(pt) => SetEntry(Decref(m, m.frame[pt][t].ppn), pt, t, PTE0)
  }

  /** page_insert; false is -E_NO_MEM */
  function PageInsert(m: Mem, pgdir: nat, pp: nat, d: nat, t: nat, perm: Perm): (r: (bool, Mem))
    requires Dims(m) && InRange(m, pgdir, d, t) && pp < |m.ref|
    ensures Dims(r.1)
  {
    var (o, m1) := Walk(m, pgdir, d, true);
    match o
    case None => (false, m1)
    case Some(pt) =>
      var prev := m1.frame[pt][t];
      if prev.perm.p && prev.ppn == pp then (true, SetEntry(m1, pt, t, Entry(pp, perm)))
      else
        var m2 := if prev.perm.p then PageRemove(m1, pgdir, d, t) else m1;
        (true, Incref(SetEntry(m2, pt, t, Entry(pp, perm)), pp))
  }
}
