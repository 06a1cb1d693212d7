/** The flat memory on which fork is verified is the kernel's: each system call that
    succeeds does to the two-level tables what CowFork says it does to the flat map. */
module KernelRefinesFlat {
  import opened Paging
  import opened PagingInvariant
  import opened PagingOps
  import opened Kernel
  import opened KernelRuns
  import CowFork

  predicate ShowsAt(m: Mem, s: CowFork.State, k: CowFork.Key) {
    var pte := PteOf(m, k.e, k.v / NPTENTRIES, k.v % NPTENTRIES);
    && (k in s.pt <==> pte.perm.p)
    && (k in s.pt ==> s.pt[k] == CowFork.Mapping(pte.ppn, pte.perm.w, pte.perm.cow))
  }

  /** s is the user half of every address space in m. */
  ghost predicate Shows(m: Mem, s: CowFork.State) {
    forall k: CowFork.Key :: ShowsAt(m, s, k)
  }

  lemma PageNumber(va: nat)
    requires VaOk(va)
    ensures PDX(va) == va / PGSIZE / NPTENTRIES && PTX(va) == va / PGSIZE % NPTENTRIES
  {
  }

  lemma OneChange(m: Mem, m': Mem, s: CowFork.State, s': CowFork.State, e: nat, v: nat, pte: Pte)
    requires Shows(m, s) && OnlyPage(m, m', e, v / NPTENTRIES, v % NPTENTRIES, pte)
    requires forall k :: k != CowFork.Key(e, v) ==> (k in s'.pt <==> k in s.pt) && (k in s.pt ==> s'.pt[k] == s.pt[k])
    requires CowFork.Key(e, v) in s'.pt <==> pte.perm.p
    requires pte.perm.p ==> s'.pt[CowFork.Key(e, v)] == CowFork.Mapping(pte.ppn, pte.perm.w, pte.perm.cow)
    ensures Shows(m', s')
  {
    forall k: CowFork.Key ensures ShowsAt(m', s', k) {
      assert ShowsAt(m, s, k);
      if k != CowFork.Key(e, v) { assert (k.e, k.v / NPTENTRIES, k.v % NPTENTRIES) != (e, v / NPTENTRIES, v % NPTENTRIES); }
    }
  }

  lemma ShownInUse(m: Mem, s: CowFork.State, key: CowFork.Key)
    requires Inv(m) && ShowsAt(m, s, key) && key in s.pt
    ensures s.pt[key].ppn < |m.ref|
  {
    var x := Page(key.e, key.v / NPTENTRIES, key.v % NPTENTRIES);
    assert Slot(m, x) == PteOf(m, key.e, key.v / NPTENTRIES, key.v % NPTENTRIES) && Target(m, x) == s.pt[key].ppn;
  }

  /** sys_page_map of a mapped page. With memory for a page table it is refused
      exactly when it asks for a writable mapping of a page that is not writable here. */
  lemma MapIsFlat(k: Kernel, cur: nat, srcid: int, srcva: nat, dstid: int, dstva: nat, perm: Perm, s: CowFork.State)
    requires Ok(k) && cur < NENV && k.envs[cur].status != FREE && Shows(k.mem, s)
    requires Envid2Env(k, cur, srcid, true).Some? && Envid2Env(k, cur, dstid, true).Some?
    requires VaOk(srcva) && VaOk(dstva) && PermOk(perm)
    requires CowFork.Key(Envid2Env(k, cur, srcid, true).value, srcva / PGSIZE) in s.pt
    ensures var src := CowFork.Key(Envid2Env(k, cur, srcid, true).value, srcva / PGSIZE);
            var dst := CowFork.Key(Envid2Env(k, cur, dstid, true).value, dstva / PGSIZE);
            var (r, k') := SysPageMap(k, cur, srcid, srcva, dstid, dstva, perm);
            && (k.mem.free != [] ==> (r == 0 <==> (perm.w ==> s.pt[src].w)))
            && (r == 0 ==> Shows(k'.mem, CowFork.PageMap(s, src, dst, perm.w, perm.cow)))
            && s.pt[src].ppn < |k.mem.ref|
            && (r == 0 ==> (Ok(k') <==> CountFits(k.mem, dst.e, PDX(dstva), PTX(dstva), s.pt[src].ppn)))
  {
    var e := Envid2Env(k, cur, srcid, true).value;
    var src := CowFork.Key(e, srcva / PGSIZE);
    PageNumber(srcva);
    PageNumber(dstva);
    assert ShowsAt(k.mem, s, src);
    ShownInUse(k.mem, s, src);
    PageMapOk(k, cur, srcid, srcva, dstid, dstva, perm);
    var (r, k') := SysPageMap(k, cur, srcid, srcva, dstid, dstva, perm);
    if r == 0 {
      var (pp, dst) := MapPlan(k, cur, srcid, srcva, dstid, dstva, perm).value;
      OneChange(k.mem, k'.mem, s, CowFork.PageMap(s, src, CowFork.Key(dst, dstva / PGSIZE), perm.w, perm.cow), dst, dstva / PGSIZE, Entry(pp, perm));
    }
  }

  /** sys_page_alloc maps a page that no environment maps. */
  lemma AllocIsFlat(k: Kernel, cur: nat, envid: int, va: nat, perm: Perm, s: CowFork.State)
    requires Ok(k) && cur < NENV && k.envs[cur].status != FREE && Shows(k.mem, s)
    requires Envid2Env(k, cur, envid, true).Some? && VaOk(va) && PermOk(perm) && !perm.cow
    ensures var (r, k') := SysPageAlloc(k, cur, envid, va, perm);
            var key := CowFork.Key(Envid2Env(k, cur, envid, true).value, va / PGSIZE);
            && (|k.mem.free| > 1 ==> r == 0)
            && (r == 0 ==> k.mem.free != [] && CowFork.Fresh(s, k.mem.free[0])
                           && Shows(k'.mem, CowFork.PageAlloc(s, key, perm.w, k.mem.free[0])))
  {
    PageNumber(va);
    UserIndex(va);
    if k.mem.free != [] {
      var e, v, p := Envid2Env(k, cur, envid, true).value, va / PGSIZE, k.mem.free[0];
      AllocAndMapOk(k.mem, e, PDX(va), PTX(va), perm);
      var (ok, m') := AllocAndMap(k.mem, e, PDX(va), PTX(va), perm);
      NobodyMaps(k.mem, s, p);
      if ok { OneChange(k.mem, m', s, CowFork.PageAlloc(s, CowFork.Key(e, v), perm.w, p), e, v, Entry(p, perm)); }
    }
  }

  lemma NobodyMaps(m: Mem, s: CowFork.State, p: nat)
    requires Inv(m) && Shows(m, s) && p in m.free
    ensures CowFork.Fresh(s, p)
  {
    forall k | k in s.pt ensures s.pt[k].ppn != p {
      assert ShowsAt(m, s, k);
      var d, t := k.v / NPTENTRIES, k.v % NPTENTRIES;
      assert Slot(m, Page(k.e, d, t)) == PteOf(m, k.e, d, t);
      Referenced(m, Page(k.e, d, t));
    }
  }

  /** sys_page_unmap of a mapped page, which is the case in which it is sound */
  lemma UnmapIsFlat(k: Kernel, cur: nat, envid: int, va: nat, s: CowFork.State)
    requires Ok(k) && cur < NENV && k.envs[cur].status != FREE && Shows(k.mem, s)
    requires Envid2Env(k, cur, envid, true).Some? && VaOk(va)
    requires CowFork.Key(Envid2Env(k, cur, envid, true).value, va / PGSIZE) in s.pt
    ensures var (r, k') := SysPageUnmap(k, cur, envid, va);
            && r == 0 && Ok(k')
            && Shows(k'.mem, CowFork.PageUnmap(s, CowFork.Key(Envid2Env(k, cur, envid, true).value, va / PGSIZE)))
  {
    var key := CowFork.Key(Envid2Env(k, cur, envid, true).value, va / PGSIZE);
    PageNumber(va);
    assert ShowsAt(k.mem, s, key);
    UnmapOk(k, cur, envid, va);
    var (r, k') := SysPageUnmap(k, cur, envid, va);
    OneChange(k.mem, k'.mem, s, CowFork.PageUnmap(s, key), key.e, key.v, PTE0);
  }
}
