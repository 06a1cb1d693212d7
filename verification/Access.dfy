/** What the processor lets user code do: an access needs the rights of both the directory entry and the page-table
    entry (kern/pmap.c:474-496, kern/env.c:196-206). Everywhere else in the model rights are those of one entry. */
module HardwareAccess {
  import opened Paging
  import opened PagingInvariant
  import opened PagingOps
  import opened KernelHalfOfSpaces
  import opened Kernel
  import opened KernelRuns
  import opened KernelTheorems
  import UserMemory

  /** Virtual pages */
  const VPAGES: nat := 0x100000

  /** User code may read, or write, virtual page v with page directory pgdir. */
  predicate UserAccess(m: Mem, pgdir: nat, v: nat, write: bool) {
    var pde := At(m, pgdir, v / NPTENTRIES);
    var pte := At(m, pde.ppn, v % NPTENTRIES);
    pde.perm.p && pde.perm.u && pte.perm.p && pte.perm.u && (write ==> pde.perm.w && pte.perm.w)
  }

  /** Virtual page v shows table v % NPTENTRIES of the directory itself. */
  predicate InWindow(v: nat) { v / NPTENTRIES == UVPTX }

  // ----- below UTOP -----

  /** Below UTOP the directory entries take nothing away: the page-table entry decides. */
  lemma LeafDecides(m: Mem, e: nat, v: nat, write: bool)
    requires Tidy(m) && e in m.dirs && v < UTOPX * NPTENTRIES
    ensures var pte := PteOf(m, e, v / NPTENTRIES, v % NPTENTRIES);
            UserAccess(m, m.dirs[e], v, write) <==> pte.perm.p && pte.perm.u && (write ==> pte.perm.w)
  {
    var x := Table(e, v / NPTENTRIES);
    assert Slot(m, x) == Pde(m, e, v / NPTENTRIES) == At(m, m.dirs[e], v / NPTENTRIES);
  }

  /** The bits a system call accepts in a permission word: P, U, and of the others only W and the three available ones */
  predicate UserBits(perm: Perm) { perm.p && perm.u && perm.other == {} }

  /** Whatever an environment has mapped, a user may use. */
  ghost predicate LeavesOk(m: Mem) {
    forall e: nat, d: nat, t: nat :: LeafOk(PteOf(m, e, d, t))
  }

  predicate LeafOk(pte: Pte) { pte.perm.p ==> UserBits(pte.perm) }

  lemma OneLeaf(m: Mem, m': Mem, e: nat, d: nat, t: nat, pte: Pte)
    requires LeavesOk(m) && OnlyPage(m, m', e, d, t, pte) && LeafOk(pte)
    ensures LeavesOk(m')
  {
    forall e': nat, d': nat, t': nat ensures LeafOk(PteOf(m', e', d', t')) { assert LeafOk(PteOf(m, e', d', t')); }
  }

  lemma FewerLeaves(m: Mem, m': Mem)
    requires LeavesOk(m) && forall s: Site :: s.Page? ==> Slot(m', s) == Slot(m, s) || Slot(m', s) == PTE0
    ensures LeavesOk(m')
  {
    forall e: nat, d: nat, t: nat ensures LeafOk(PteOf(m', e, d, t)) {
      assert LeafOk(PteOf(m, e, d, t));
      assert Slot(m', Page(e, d, t)) == PteOf(m', e, d, t) && Slot(m, Page(e, d, t)) == PteOf(m, e, d, t);
    }
  }

  lemma AllocateLeaves(k: Kernel, cur: nat, envid: int, va: nat, perm: Perm)
    requires Ok(k) && Live(k, cur) && LeavesOk(k.mem)
    ensures LeavesOk(SysPageAlloc(k, cur, envid, va, perm).1.mem)
  {
    var o := Envid2Env(k, cur, envid, true);
    if o.Some? && VaOk(va) && PermOk(perm) && k.mem.free != [] {
      UserIndex(va);
      AllocAndMapOk(k.mem, o.value, PDX(va), PTX(va), perm);
      var (ok, m') := AllocAndMap(k.mem, o.value, PDX(va), PTX(va), perm);
      if ok { OneLeaf(k.mem, m', o.value, PDX(va), PTX(va), Paging.Entry(k.mem.free[0], perm)); }
      else { FewerLeaves(k.mem, m'); }
    }
  }

  lemma SharingLeaves(k: Kernel, n: KernelTheorems.Entry)
    requires Ok(k) && Live(k, n.cur) && SharingCall(n.call) && Safe(k, n) && LeavesOk(k.mem)
    ensures LeavesOk(Apply(k, n).mem)
  {
    var m, m' := k.mem, Apply(k, n).mem;
    match n.call
    case Map(sid, sva, did, dva, perm) =>
      PageMapOk(k, n.cur, sid, sva, did, dva, perm);
      if SysPageMap(k, n.cur, sid, sva, did, dva, perm).0 == 0 {
        var (pp, dst) := MapPlan(k, n.cur, sid, sva, did, dva, perm).value;
        OneLeaf(m, m', dst, PDX(dva), PTX(dva), Paging.Entry(pp, perm));
      }
    case Unmap(id, va) =>
      UnmapOk(k, n.cur, id, va);
      if SysPageUnmap(k, n.cur, id, va).0 == 0 {
        OneLeaf(m, m', Envid2Env(k, n.cur, id, true).value, PDX(va), PTX(va), PTE0);
      }
    case TrySend(id, v, va, perm) =>
      SendOk(k, n.cur, id, v, va, perm);
      var plan := SendPlan(k, n.cur, id, va, perm);
      if plan.Some? && SysIpcTrySend(k, n.cur, id, v, va, perm).0 == 0 {
        var (pp, dst) := plan.value;
        var dva := k.envs[dst].dstva;
        OneLeaf(m, m', dst, PDX(dva), PTX(dva), Paging.Entry(pp, perm));
      }
  }

  lemma ReleaseLeaves(k: Kernel, e: nat)
    requires Ok(k) && Live(k, e) && LeavesOk(k.mem)
    ensures LeavesOk(ReleaseEnv(k, e).mem)
  {
    ReleaseOk(k, e);
    FewerLeaves(k.mem, ReleaseEnv(k, e).mem);
  }

  lemma ExoforkLeaves(k: Kernel, n: KernelTheorems.Entry)
    requires Ok(k) && Live(k, n.cur) && n.call.Exofork? && LeavesOk(k.mem)
    ensures LeavesOk(Apply(k, n).mem)
  {
    ExoforkOk(k, n.cur);
    FewerLeaves(k.mem, SysExofork(k, n.cur).1.mem);
  }

  lemma DestroyLeaves(k: Kernel, n: KernelTheorems.Entry)
    requires Ok(k) && Live(k, n.cur) && n.call.Destroy? && LeavesOk(k.mem)
    ensures LeavesOk(Apply(k, n).mem)
  {
    DestroyedOrMarked(k, n);
    if Apply(k, n).mem != k.mem { ReleaseLeaves(k, Envid2Env(k, n.cur, n.call.envid, true).value); }
  }

  lemma ReapLeaves(k: Kernel, n: KernelTheorems.Entry)
    requires Ok(k) && Live(k, n.cur) && n.call.Reap? && LeavesOk(k.mem)
    ensures LeavesOk(Apply(k, n).mem)
  {
    if k.envs[n.cur].status == DYING {
      DyingReaped(k, n);
      ReleaseLeaves(k, n.cur);
    }
  }

  lemma AllocateStepLeaves(k: Kernel, n: KernelTheorems.Entry)
    requires Ok(k) && Live(k, n.cur) && n.call.Allocate? && LeavesOk(k.mem)
    ensures LeavesOk(Apply(k, n).mem)
  {
    AllocateLeaves(k, n.cur, n.call.envid, n.call.va, n.call.perm);
  }

  /** No call maps a page with other rights than those it checks for. */
  lemma StepLeaves(k: Kernel, n: KernelTheorems.Entry)
    requires Ok(k) && Safe(k, n) && LeavesOk(k.mem)
    ensures LeavesOk(Apply(k, n).mem)
  {
    if Live(k, n.cur) {
      match n.call
      case Exofork => ExoforkLeaves(k, n);
      case Allocate(_, _, _) => AllocateStepLeaves(k, n);
      case Destroy(_) => DestroyLeaves(k, n);
      case Reap => ReapLeaves(k, n);
      case Map(_, _, _, _, _) => SharingLeaves(k, n);
      case Unmap(_, _) => SharingLeaves(k, n);
      case TrySend(_, _, _, _) => SharingLeaves(k, n);
      case _ => StatusCallsKeepMemory(k, n);
    }
  }

  // ----- above UTOP -----

  /** No environment can write anything there. */
  lemma NoUserWriteAboveUtop(m: Mem, e: nat, v: nat)
    requires SharedAboveUtop(m) && e in m.dirs && UTOPX * NPTENTRIES <= v < VPAGES
    ensures !UserAccess(m, m.dirs[e], v, true)
  {
    var d := v / NPTENTRIES;
    assert At(m, m.dirs[e], d) == UpperEntry(m, e, d);
    assert ClosedAt(m, d, v % NPTENTRIES);
  }

  /** Through the UVPT window it can read exactly the tables it has, the kernel's and the directory included. */
  lemma WindowShowsTables(m: Mem, e: nat, d: nat)
    requires Tidy(m) && SharedAboveUtop(m) && e in m.dirs && d < NPTENTRIES
    ensures UserAccess(m, m.dirs[e], UVPTX * NPTENTRIES + d, false) <==> At(m, m.dirs[e], d).perm.p
    ensures At(m, m.dirs[e], UVPTX).ppn == m.dirs[e]
  {
    var v := UVPTX * NPTENTRIES + d;
    assert v / NPTENTRIES == UVPTX && v % NPTENTRIES == d;
    assert At(m, m.dirs[e], UVPTX) == UpperEntry(m, e, UVPTX);
    if d != UVPTX && At(m, m.dirs[e], d).perm.p { TablesOpen(m, e, d); }
  }

  /** The physical page that virtual page v shows */
  function Frame(m: Mem, pgdir: nat, v: nat): nat {
    At(m, At(m, pgdir, v / NPTENTRIES).ppn, v % NPTENTRIES).ppn
  }

  /** So user code finds its own page tables there: uvpd is the directory, always readable, and uvpt[pn] is the entry of page
      pn, readable if the directory has its table. fork's test of both tells whether the page is mapped. */
  lemma UvptShowsEntries(m: Mem, e: nat, pn: nat)
    requires Tidy(m) && SharedAboveUtop(m) && e in m.dirs && pn < UTOPX * NPTENTRIES
    ensures var pgdir := m.dirs[e]; var uvpd := UVPTX * NPTENTRIES + UVPTX; var uvpt := UVPTX * NPTENTRIES + pn / NPTENTRIES;
            && UserAccess(m, pgdir, uvpd, false) && Frame(m, pgdir, uvpd) == pgdir
            && var pde := At(m, Frame(m, pgdir, uvpd), pn / NPTENTRIES);
            && (UserAccess(m, pgdir, uvpt, false) <==> pde.perm.p)
            && (pde.perm.p ==> At(m, Frame(m, pgdir, uvpt), pn % NPTENTRIES) == PteOf(m, e, pn / NPTENTRIES, pn % NPTENTRIES))
            && (pde.perm.p && At(m, Frame(m, pgdir, uvpt), pn % NPTENTRIES).perm.p <==> PteOf(m, e, pn / NPTENTRIES, pn % NPTENTRIES).perm.p)
  {
    WindowShowsTables(m, e, UVPTX);
    WindowShowsTables(m, e, pn / NPTENTRIES);
    assert At(m, m.dirs[e], UVPTX) == UpperEntry(m, e, UVPTX);
    InTheWindow(UVPTX);
    InTheWindow(pn / NPTENTRIES);
  }

  lemma InTheWindow(d: nat)
    requires d < NPTENTRIES
    ensures (UVPTX * NPTENTRIES + d) / NPTENTRIES == UVPTX && (UVPTX * NPTENTRIES + d) % NPTENTRIES == d
  {
  }

  lemma TablesOpen(m: Mem, e: nat, d: nat)
    requires Tidy(m) && SharedAboveUtop(m) && e in m.dirs && d < NPTENTRIES && d != UVPTX && At(m, m.dirs[e], d).perm.p
    ensures Opens(At(m, m.dirs[e], d).perm)
  {
    if d < UTOPX {
      assert Slot(m, Table(e, d)) == Pde(m, e, d) == At(m, m.dirs[e], d);
    } else {
      assert At(m, m.dirs[e], d) == UpperEntry(m, e, d);
      assert ClosedAt(m, d, 0);
    }
  }

  // ----- runs -----

  /** After every safe run: below UTOP an environment reads exactly the pages it has mapped and writes exactly those
      mapped with W; above UTOP it writes nothing. */
  lemma {:induction false} AccessOverRuns(k: Kernel, run: seq<KernelTheorems.Entry>, e: nat, v: nat, write: bool)
    requires Ok(k) && LeavesOk(k.mem) && SafeRun(k, run) && v < VPAGES
    ensures var m := After(k, run).mem;
            && LeavesOk(m)
            && (e in m.dirs ==>
                  if v < UTOPX * NPTENTRIES then
                    var pte := PteOf(m, e, v / NPTENTRIES, v % NPTENTRIES);
                    UserAccess(m, m.dirs[e], v, write) <==> pte.perm.p && (write ==> pte.perm.w)
                  else !UserAccess(m, m.dirs[e], v, true))
    decreases |run|
  {
    if run == [] {
      if e in k.mem.dirs { AccessNow(k, e, v, write); }
    } else {
      StepOk(k, run[0]);
      StepLeaves(k, run[0]);
      AccessOverRuns(Apply(k, run[0]), run[1..], e, v, write);
    }
  }

  lemma AccessNow(k: Kernel, e: nat, v: nat, write: bool)
    requires Ok(k) && LeavesOk(k.mem) && v < VPAGES && e in k.mem.dirs
    ensures var m := k.mem;
            if v < UTOPX * NPTENTRIES then
              var pte := PteOf(m, e, v / NPTENTRIES, v % NPTENTRIES);
              UserAccess(m, m.dirs[e], v, write) <==> pte.perm.p && (write ==> pte.perm.w)
            else !UserAccess(m, m.dirs[e], v, true)
  {
    if v < UTOPX * NPTENTRIES {
      LeafDecides(k.mem, e, v, write);
      assert LeafOk(PteOf(k.mem, e, v / NPTENTRIES, v % NPTENTRIES));
    } else {
      NoUserWriteAboveUtop(k.mem, e, v);
    }
  }

  // ----- user_mem_check -----

  /** The kernel's check of an address looks at the page-table entry only. It is the processor's, below ULIM, but that in
      the UVPT window, which nobody can write, it lets a write through to every table except the directory. */
  lemma MayIsAccess(k: Kernel, e: nat, a: nat, write: bool)
    requires Ok(k) && e in k.mem.dirs && a < UserMemory.WORD
    ensures var m := k.mem; var v := a / UserMemory.PGSIZE; var pgdir := m.dirs[e];
            var may := UserMemory.May(m, pgdir, a, NO_PERM.(u := true, w := write));
            if write && InWindow(v) then
              !UserAccess(m, pgdir, v, true) && (may <==> v % NPTENTRIES != UVPTX && At(m, pgdir, v % NPTENTRIES).perm.p)
            else may <==> a < 0xef800000 && UserAccess(m, pgdir, v, write)
  {
    var m, v, pgdir := k.mem, a / UserMemory.PGSIZE, k.mem.dirs[e];
    var d := v / NPTENTRIES;
    assert d < NPTENTRIES;
    if InWindow(v) {
      assert At(m, pgdir, UVPTX) == UpperEntry(m, e, UVPTX);
      if At(m, pgdir, v % NPTENTRIES).perm.p && v % NPTENTRIES != UVPTX { TablesOpen(m, e, v % NPTENTRIES); }
    } else if At(m, pgdir, d).perm.p {
      TablesOpen(m, e, d);
    }
  }
}
