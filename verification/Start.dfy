/** From power-on to the first system call: mem_init and env_init leave a kernel in order (kern/init.c:36-40). */
module KernelStart {
  import opened Paging
  import opened PagingInvariant
  import opened KernelHalfOfSpaces
  import opened Pmap
  import opened Boot
  import opened KernelLayout
  import opened Kernel
  import opened EnvironmentIds
  import KernelRuns
  import KernelTheorems
  import HardwareAccess
  import AddressSpaceTeardown
  import opened Syscall

  /** The environment array is mapped at UENVS, read-only, on boot pages. */
  ghost predicate EnvsMapped(m: Mem, envs: nat) {
    KEntry(m, UENVS) == Entry(envs, USER_READ) && envs in m.kern && 0 < envs < |m.frame|
  }

  predicate NotUserWritable(pte: Pte) { !(pte.perm.u && pte.perm.w) }

  /** No user can write a page of the kernel's. */
  ghost predicate UserReadOnly(m: Mem) {
    forall w: nat :: KernelPage(w) ==> NotUserWritable(KEntry(m, w))
  }

  lemma ReadOnlyIsClosed(m: Mem)
    requires Booting(m) && KernelTables(m) && UserReadOnly(m)
    ensures KernelClosed(m)
  {
    forall d: nat, t: nat ensures ClosedAt(m, d, t) {
      if KTable(m, d) && t < NPTENTRIES {
        var w := d * NPTENTRIES + t;
        assert w / NPTENTRIES == d && w % NPTENTRIES == t;
        assert KernelPage(w) && KEntry(m, w) == At(m, At(m, m.kdir, d).ppn, t);
      }
    }
  }

  lemma FirstKernelOk(k: Kernel, envs: nat)
    requires Booting(k.mem) && Inv(k.mem) && KernelTables(k.mem) && UserReadOnly(k.mem) && EnvsMapped(k.mem, envs)
    requires k.envs == seq(NENV, i => BLANK) && k.efree == seq(NENV, i => i)
    ensures Ok(k) && IdsOk(k)
  {
    assert UENVS / NPTENTRIES == UTOPX && UENVS % NPTENTRIES == 0;
    assert KTable(k.mem, UTOPX);
    ReadOnlyIsClosed(k.mem);
    forall e: nat ensures e in k.efree <==> e < NENV && k.envs[e].status == FREE {
      if e < NENV { assert k.efree[e] == e; }
    }
  }

  lemma UenvsInLayout(npages: nat, pages: nat, envs: nat, bootstack: nat, percpu: seq<nat>)
    requires npages <= 0x80000 && |percpu| == NCPU
    ensures Image(KernelRegions(npages, pages, envs, bootstack) + Stacks(percpu), UENVS, PTE0) == Entry(envs, USER_READ)
  {
    var rs := KernelRegions(npages, pages, envs, bootstack) + Stacks(percpu);
    assert forall k :: 4 <= k < |rs| ==> rs[k] == Stack(k - 4, percpu[k - 4]);
    ImageOf(rs, 1, UENVS, PTE0);
  }

  /** Pages that are not for allocation */
  predicate KeptPage(p: nat, basemem: nat, next: nat) {
    p == 0 || (p == 7 && 7 < basemem) || (0xA0 <= p < 0x100 && basemem <= p) || 0x100 <= p < next
  }

  /** The first two calls of i386_init leave a kernel in order, if there was memory for its page tables. */
  method StartKernel(mem: Memory, basemem: nat, next: nat, pages: nat, envs: nat, bootstack: nat, percpu: seq<nat>) returns (sys: System)
    requires mem.Valid() && mem.free == [] && mem.env_pgdir == map[] && mem.lost == {}
    requires forall i: nat :: i < mem.npages ==> mem.pp_ref[i] == 0
    requires Boot.EXTPHYSMEM / Boot.PGSIZE <= mem.kern_pgdir < next && mem.kern_pgdir < mem.npages
    requires basemem <= Boot.EXTPHYSMEM / Boot.PGSIZE
    requires Boot.EXTPHYSMEM / Boot.PGSIZE <= envs < next && envs < mem.npages
    requires mem.npages <= 0x80000 && |percpu| == NCPU
    modifies mem.Footprint()
    ensures sys.Valid() && sys.mem == mem
    ensures mem.free != [] ==> Ok(sys.View()) && IdsOk(sys.View()) && HardwareAccess.LeavesOk(mem.View()) && PhysicalMapped(mem.View())
    ensures mem.free != [] ==> forall w: nat :: KernelPage(w) ==> UserSees(KEntry(mem.View(), w), mem.npages, pages, envs, w)
    ensures forall p: nat :: p < mem.npages && KeptPage(p, basemem, next) ==> p in mem.kern
  {
    MemInit(mem, basemem, next, pages, envs, bootstack, percpu);
    UenvsInLayout(mem.npages, pages, envs, bootstack, percpu);
    assert KernelPage(UENVS);
    ghost var m := mem.View();
    forall p: nat | p < mem.npages && KeptPage(p, basemem, next) ensures p in mem.kern { KeptBack(p, basemem, next); }
    sys := new System(mem);
    assert sys.View().mem == m;
    if mem.free != [] {
      forall w: nat | KernelPage(w) ensures NotUserWritable(KEntry(m, w)) {
        LayoutIsProtected(mem.npages, pages, envs, bootstack, percpu, w);
      }
      forall w: nat | KernelPage(w) ensures UserSees(KEntry(m, w), mem.npages, pages, envs, w) {
        ArraysAreVisible(mem.npages, pages, envs, bootstack, percpu, w);
      }
      FirstKernelOk(sys.View(), envs);
      forall w: nat | KERNBASE <= w < NVPAGES ensures KEntry(m, w) == Entry(w - KERNBASE, KERNEL_WRITE) {
        LayoutIsProtected(mem.npages, pages, envs, bootstack, percpu, w);
        assert KernelPage(w);
      }
    }
  }

  /** What an environment can read of the kernel's half, outside the UVPT window, is what the kernel's entries show to users. */
  lemma KernelHalfAccess(m: Mem, e: nat, w: nat)
    requires SharedAboveUtop(m) && e in m.dirs && KernelPage(w)
    ensures HardwareAccess.UserAccess(m, m.dirs[e], w, false) <==> KEntry(m, w).perm.p && KEntry(m, w).perm.u
  {
    var d := w / NPTENTRIES;
    assert At(m, m.dirs[e], d) == UpperEntry(m, e, d);
    assert ClosedAt(m, d, w % NPTENTRIES);
  }

  // ----- boot pages over runs -----

  lemma InsertKern(m: Mem, pgdir: nat, pp: nat, d: nat, t: nat, perm: Perm)
    requires Dims(m) && Paging.InRange(m, pgdir, d, t) && pp < |m.ref|
    ensures Paging.PageInsert(m, pgdir, pp, d, t, perm).1.kern == m.kern
  {
  }

  lemma MapKern(k: Kernel, n: KernelTheorems.Entry)
    requires Ok(k) && KernelTheorems.Live(k, n.cur) && n.call.Map?
    ensures KernelTheorems.Apply(k, n).mem.kern == k.mem.kern
  {
    var c := n.call;
    KernelRuns.MapFollowsPlan(k, n.cur, c.srcid, c.srcva, c.dstid, c.dstva, c.perm);
    var plan := KernelRuns.MapPlan(k, n.cur, c.srcid, c.srcva, c.dstid, c.dstva, c.perm);
    if plan.Some? { InsertKern(k.mem, k.mem.dirs[plan.value.1], plan.value.0, PDX(c.dstva), PTX(c.dstva), c.perm); }
  }

  lemma UnmapKern(k: Kernel, n: KernelTheorems.Entry)
    requires Ok(k) && KernelTheorems.Live(k, n.cur) && n.call.Unmap?
    ensures KernelTheorems.Apply(k, n).mem.kern == k.mem.kern
  {
  }

  lemma AllocateKern(k: Kernel, n: KernelTheorems.Entry)
    requires Ok(k) && KernelTheorems.Live(k, n.cur) && n.call.Allocate?
    ensures KernelTheorems.Apply(k, n).mem.kern == k.mem.kern
  {
    var c := n.call;
    var o := Envid2Env(k, n.cur, c.envid, true);
    if o.Some? && VaOk(c.va) && PermOk(c.perm) && k.mem.free != [] {
      UserIndex(c.va);
      AllocKern(k.mem, o.value, PDX(c.va), PTX(c.va), c.perm);
    }
  }

  lemma AllocKern(m: Mem, e: nat, d: nat, t: nat, perm: Perm)
    requires Inv(m) && e in m.dirs && d < UTOPX && t < NPTENTRIES && m.free != []
    ensures AllocAndMap(m, e, d, t, perm).1.kern == m.kern
  {
    KernelRuns.AllocAndMapViaTransit(m, e, d, t, perm);
    var mt := Transit(Paging.PageAlloc(m).1, m.free[0]);
    InsertKern(mt, mt.dirs[e], m.free[0], d, t, perm);
  }

  lemma SendKern(k: Kernel, n: KernelTheorems.Entry)
    requires Ok(k) && KernelTheorems.Live(k, n.cur) && n.call.TrySend?
    ensures KernelTheorems.Apply(k, n).mem.kern == k.mem.kern
  {
    var c := n.call;
    KernelRuns.SendFollowsPlan(k, n.cur, c.envid, c.value, c.srcva, c.perm);
    var plan := KernelRuns.SendPlan(k, n.cur, c.envid, c.srcva, c.perm);
    if plan.Some? {
      var (pp, dst) := plan.value;
      InsertKern(k.mem, k.mem.dirs[dst], pp, PDX(k.envs[dst].dstva), PTX(k.envs[dst].dstva), c.perm);
    }
  }

  lemma GoneKern(k: Kernel, n: KernelTheorems.Entry)
    requires Ok(k) && KernelTheorems.Live(k, n.cur) && (n.call.Destroy? || n.call.Reap?)
    ensures KernelTheorems.Apply(k, n).mem.kern == k.mem.kern
  {
    if n.call.Reap? {
      if k.envs[n.cur].status == DYING {
        KernelTheorems.DyingReaped(k, n);
        KernelRuns.ReleaseOk(k, n.cur);
      }
    } else {
      KernelTheorems.DestroyedOrMarked(k, n);
      if KernelTheorems.Apply(k, n).mem != k.mem { KernelRuns.ReleaseOk(k, Envid2Env(k, n.cur, n.call.envid, true).value); }
    }
  }

  lemma ExoforkKern(k: Kernel, n: KernelTheorems.Entry)
    requires Ok(k) && KernelTheorems.Live(k, n.cur) && n.call.Exofork?
    ensures KernelTheorems.Apply(k, n).mem.kern == k.mem.kern
  {
  }

  lemma StepKern(k: Kernel, n: KernelTheorems.Entry)
    requires Ok(k)
    ensures KernelTheorems.Apply(k, n).mem.kern == k.mem.kern
  {
    if KernelTheorems.Live(k, n.cur) {
      match n.call
      case TrySend(_, _, _, _) => SendKern(k, n);
      case Exofork => ExoforkKern(k, n);
      case Destroy(_) => GoneKern(k, n);
      case Reap => GoneKern(k, n);
      case SetStatus(_, _) => KernelTheorems.StatusCallsKeepMemory(k, n);
      case Recv(_) => KernelTheorems.StatusCallsKeepMemory(k, n);
      case Switch(_) => KernelTheorems.StatusCallsKeepMemory(k, n);
      case Map(_, _, _, _, _) => MapKern(k, n);
      case Unmap(_, _) => UnmapKern(k, n);
      case Allocate(_, _, _) => AllocateKern(k, n);
    }
  }

  /** A page kept back at boot is never handed out: after any safe run it is not free, no table or directory, and, unless it is page
      0, no environment has it mapped. */
  lemma {:induction false} KeptPagesStayOut(k: Kernel, run: seq<KernelTheorems.Entry>, p: nat, e: nat, d: nat, t: nat)
    requires Ok(k) && KernelTheorems.SafeRun(k, run) && p in k.mem.kern
    ensures var m := KernelTheorems.After(k, run).mem;
            && Ok(KernelTheorems.After(k, run)) && p in m.kern && p !in m.free
            && !(Pde(m, e, d).perm.p && Pde(m, e, d).ppn == p) && !(e in m.dirs && m.dirs[e] == p)
            && (p != 0 ==> !(PteOf(m, e, d, t).perm.p && PteOf(m, e, d, t).ppn == p))
    decreases |run|
  {
    if run == [] {
      KeptNow(k.mem, p, e, d, t);
    } else {
      KernelTheorems.StepOk(k, run[0]);
      StepKern(k, run[0]);
      KeptPagesStayOut(KernelTheorems.Apply(k, run[0]), run[1..], p, e, d, t);
    }
  }

  lemma KeptNow(m: Mem, p: nat, e: nat, d: nat, t: nat)
    requires Inv(m) && p in m.kern
    ensures p !in m.free
    ensures !(Pde(m, e, d).perm.p && Pde(m, e, d).ppn == p) && !(e in m.dirs && m.dirs[e] == p)
    ensures p != 0 ==> !(PteOf(m, e, d, t).perm.p && PteOf(m, e, d, t).ppn == p)
  {
    assert Slot(m, Table(e, d)) == Pde(m, e, d) && Slot(m, Page(e, d, t)) == PteOf(m, e, d, t);
    assert Target(m, Table(e, d)) == p || Target(m, Table(e, d)) != p;
    assert Target(m, Page(e, d, t)) == p || Target(m, Page(e, d, t)) != p;
    assert Target(m, Dir(e)) == p || Target(m, Dir(e)) != p;
    assert p < |m.ref| ==> m.ref[p] == |Refs(m, p)| + Base(m, p);
  }

  /** All 256 MB from KERNBASE on are mapped, however few pages the machine has. */
  ghost predicate PhysicalMapped(m: Mem) {
    forall w: nat :: KERNBASE <= w < NVPAGES ==> KEntry(m, w) == Entry(w - KERNBASE, KERNEL_WRITE)
  }

  /** So on a machine with fewer pages than that, a send panics whose srcva is KERNBASE plus the memory's size,
      if its target is waiting. */
  lemma SendAboveMemoryPanics(k: Kernel, cur: nat, envid: int, value: nat, perm: Perm)
    requires Ok(k) && cur < NENV && k.envs[cur].status != FREE && KernelRuns.ToWaiting(k, cur, envid)
    requires PhysicalMapped(k.mem) && |k.mem.frame| < NVPAGES - KERNBASE
    ensures SysIpcTrySend(k, cur, envid, value, (KERNBASE + |k.mem.frame|) * Boot.PGSIZE, perm) == (PANIC, k)
  {
    var va := (KERNBASE + |k.mem.frame|) * Boot.PGSIZE;
    AboveMemory(k.mem, cur);
    KernelRuns.SendPanicsIff(k, cur, envid, value, va, perm);
  }

  lemma AboveMemory(m: Mem, e: nat)
    requires SharedAboveUtop(m) && e in m.dirs && PhysicalMapped(m) && |m.frame| < NVPAGES - KERNBASE
    ensures var va := (KERNBASE + |m.frame|) * Boot.PGSIZE; !InRange(m, m.dirs[e], PDX(va), PTX(va))
  {
    var w := KERNBASE + |m.frame|;
    var va := w * Boot.PGSIZE;
    assert KEntry(m, w) == Entry(|m.frame|, KERNEL_WRITE);
    assert PDX(va) == w / NPTENTRIES && PTX(va) == w % NPTENTRIES && UTOPX < PDX(va) < NPTENTRIES && PDX(va) != UVPTX;
    assert At(m, m.dirs[e], PDX(va)) == UpperEntry(m, e, PDX(va));
  }
}
