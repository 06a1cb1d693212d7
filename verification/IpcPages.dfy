/** Where a page sent by IPC arrives: at the address its receiver gave, over runs of the kernel
    (kern/syscall.c:361-378, 405-421, lib/ipc.c:22-87). */
module IpcPages {
  import opened Paging
  import opened PagingInvariant
  import opened PagingOps
  import opened Kernel
  import opened KernelRuns
  import opened IpcDelivery
  import KernelTheorems
  import opened HardwareAccess

  /** A waiting receiver to which nothing is sent goes on waiting, for a page at the same address. */
  lemma StaysWaiting(k: Kernel, n: Entry, r: nat)
    requires Ok(k) && KernelTheorems.Live(k, r) && Fair(k, n, r) && Waits(k.envs[r]) && k.envs[r].recving && Sent(k, n, r) == Option.None
    ensures var k' := KernelTheorems.Apply(k, n);
            |k'.envs| == NENV && k'.envs[r].recving && k'.envs[r].dstva == k.envs[r].dstva
  {
    if n.call.TrySend? { SendCall(k, n, r); }
    else if n.call.Exofork? { ExoforkOk(k, n.cur); }
    else if n.call.Map? || n.call.Unmap? || n.call.Allocate? { KernelTheorems.PageCall(k, n); }
    else if n.call.SetStatus? || n.call.Switch? { StatusKeepsAddress(k, n, r); }
    else if n.call.Recv? { ElsewhereKeepsAddress(k, n, r); }
    else { GoneKeepsAddress(k, n, r); }
  }

  lemma StatusKeepsAddress(k: Kernel, n: Entry, r: nat)
    requires Ok(k) && KernelTheorems.Live(k, r) && Fair(k, n, r) && Waits(k.envs[r]) && k.envs[r].recving && (n.call.SetStatus? || n.call.Switch?)
    ensures var k' := KernelTheorems.Apply(k, n);
            |k'.envs| == NENV && k'.envs[r].recving && k'.envs[r].dstva == k.envs[r].dstva
  {
  }

  lemma ElsewhereKeepsAddress(k: Kernel, n: Entry, r: nat)
    requires Ok(k) && KernelTheorems.Live(k, r) && Fair(k, n, r) && Waits(k.envs[r]) && k.envs[r].recving && n.call.Recv?
    ensures var k' := KernelTheorems.Apply(k, n);
            |k'.envs| == NENV && k'.envs[r].recving && k'.envs[r].dstva == k.envs[r].dstva
  {
  }

  lemma GoneKeepsAddress(k: Kernel, n: Entry, r: nat)
    requires Ok(k) && KernelTheorems.Live(k, r) && Fair(k, n, r) && Waits(k.envs[r]) && k.envs[r].recving && (n.call.Destroy? || n.call.Reap?)
    ensures var k' := KernelTheorems.Apply(k, n);
            |k'.envs| == NENV && k'.envs[r].recving && k'.envs[r].dstva == k.envs[r].dstva
  {
  }

  lemma {:induction false} WaitsAtItsAddress(k: Kernel, run: seq<Entry>, r: nat)
    requires Ok(k) && FairRun(k, run, r) && Waits(k.envs[r]) && k.envs[r].recving && Log(k, run, r).1 == []
    ensures var k' := Log(k, run, r).0; |k'.envs| == NENV && k'.envs[r].recving && k'.envs[r].dstva == k.envs[r].dstva
    decreases |run|
  {
    if run != [] {
      LogUnfolds(k, run, r);
      StaysWaiting(k, run[0], r);
      IpcStep(k, run[0], r);
      WaitsAtItsAddress(KernelTheorems.Apply(k, run[0]), run[1..], r);
    }
  }

  /** r receives at va, and the run that follows, in which nothing is sent to it, ends in k1. */
  ghost predicate WaitingSince(k: Kernel, run: seq<Entry>, r: nat, va: nat, k1: Kernel) {
    && Ok(k) && KernelTheorems.Live(k, r) && FairRun(k, run, r) && !k.envs[r].recving
    && run != [] && run[0] == KernelTheorems.Entry(r, KernelTheorems.Recv(va)) && !Unaligned(va)
    && var (end, sent, _) := Log(k, run, r); k1 == end && sent == []
  }

  /** Until it is answered, a receiver waits for a page at the address it gave, or at UTOP, which stands for none. */
  lemma ReceiverKeepsItsAddress(k: Kernel, run: seq<Entry>, r: nat, va: nat, k1: Kernel)
    requires WaitingSince(k, run, r, va, k1)
    ensures |k1.envs| == NENV && k1.envs[r].recving && k1.envs[r].dstva == if va < 0xeec00000 then va else 0xeec00000
  {
    LogUnfolds(k, run, r);
    IpcStep(k, run[0], r);
    WaitsAtItsAddress(KernelTheorems.Apply(k, run[0]), run[1..], r);
  }

  lemma {:induction false} RunsStayOk(k: Kernel, run: seq<Entry>, r: nat)
    requires Ok(k) && FairRun(k, run, r)
    ensures Ok(Log(k, run, r).0) && KernelTheorems.Live(Log(k, run, r).0, r)
    decreases |run|
  {
    if run != [] {
      LogUnfolds(k, run, r);
      RunsStayOk(KernelTheorems.Apply(k, run[0]), run[1..], r);
    }
  }

  /** What the answering send does to memory: if a page was asked for and one is sent, it appears at the receiver's address,
      with the permission sent, and nowhere else; otherwise no memory changes. */
  ghost predicate Arrives(k: Kernel, k': Kernel, r: nat, va: nat, cur: nat, srcva: nat, perm: Perm) {
    if va < UTOP && srcva < UTOP then
      var page := PteOf(k.mem, cur, PDX(srcva), PTX(srcva)).ppn;
      && OnlyPage(k.mem, k'.mem, r, PDX(va), PTX(va), Pte(page, perm.(p := true)))
      && r < |k'.envs| && k'.envs[r].perm == perm
      && r in k'.mem.dirs && UserAccess(k'.mem, k'.mem.dirs[r], va / PGSIZE, false)
      && (UserAccess(k'.mem, k'.mem.dirs[r], va / PGSIZE, true) <==> perm.w)
    else k'.mem == k.mem
  }

  lemma SendArrives(k: Kernel, n: Entry, r: nat)
    requires Ok(k) && KernelTheorems.Live(k, r) && KernelTheorems.Live(k, n.cur) && KernelTheorems.Safe(k, n)
    requires n.call.TrySend? && Sent(k, n, r) != Option.None
    ensures Arrives(k, KernelTheorems.Apply(k, n), r, k.envs[r].dstva, n.cur, n.call.srcva, n.call.perm)
  {
    var c := n.call;
    SendOk(k, n.cur, c.envid, c.value, c.srcva, c.perm);
    SendFollowsPlan(k, n.cur, c.envid, c.value, c.srcva, c.perm);
    if c.srcva < UTOP { PageLands(k, n, r); }
  }

  lemma PageLands(k: Kernel, n: Entry, r: nat)
    requires Ok(k) && KernelTheorems.Live(k, r) && KernelTheorems.Live(k, n.cur) && KernelTheorems.Safe(k, n)
    requires n.call.TrySend? && Sent(k, n, r) != Option.None && n.call.srcva < UTOP
    ensures k.envs[r].dstva < UTOP && Arrives(k, KernelTheorems.Apply(k, n), r, k.envs[r].dstva, n.cur, n.call.srcva, n.call.perm)
  {
    var c, va, k' := n.call, k.envs[r].dstva, KernelTheorems.Apply(k, n);
    SendOk(k, n.cur, c.envid, c.value, c.srcva, c.perm);
    SendFollowsPlan(k, n.cur, c.envid, c.value, c.srcva, c.perm);
    assert SendPlan(k, n.cur, c.envid, c.srcva, c.perm) == Option.Some((PteOf(k.mem, n.cur, PDX(c.srcva), PTX(c.srcva)).ppn, r));
    UserIndex(va);
    PageOf(va);
    KernelTheorems.StepOk(k, n);
    LeafDecides(k'.mem, r, va / PGSIZE, false);
    LeafDecides(k'.mem, r, va / PGSIZE, true);
  }

  lemma PageOf(va: nat)
    requires va < UTOP
    ensures PDX(va) == va / PGSIZE / NPTENTRIES && PTX(va) == va / PGSIZE % NPTENTRIES && va / PGSIZE < UTOPX * NPTENTRIES
  {
    ByPages(va);
  }

  /** ipc_recv and ipc_send together: r calls ipc_recv(pg); when, after any fair run in which nothing was sent to it, a call
      of ipc_send(value, spg, perm) succeeds on it, the sender's page is mapped at pg exactly if both name an address below UTOP; otherwise
      no memory changes. */
  lemma IpcMovesThePage(k: Kernel, run: seq<Entry>, r: nat, pg: Option<nat>, k1: Kernel, n: Entry, spg: Option<nat>)
    requires WaitingSince(k, run, r, PageArgument(pg), k1)
    requires Ok(k1) && KernelTheorems.Live(k1, n.cur) && KernelTheorems.Safe(k1, n)
    requires n.call.TrySend? && n.call.srcva == PageArgument(spg) && Sent(k1, n, r) != Option.None
    ensures var k2 := KernelTheorems.Apply(k1, n);
            if pg.Some? && pg.value < UTOP && spg.Some? && spg.value < UTOP then Arrives(k1, k2, r, pg.value, n.cur, spg.value, n.call.perm)
            else k2.mem == k1.mem
  {
    RunsStayOk(k, run, r);
    ReceiverKeepsItsAddress(k, run, r, PageArgument(pg), k1);
    SendArrives(k1, n, r);
  }
}
