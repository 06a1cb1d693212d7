/** Who can change an address space: its environment, that environment's parent, and the sender
    of a message it is waiting for (kern/syscall.c, kern/env.c:98-105). */
module KernelIsolation {
  import opened Paging
  import opened PagingInvariant
  import opened KernelHalfOfSpaces
  import opened Kernel
  import opened KernelRuns
  import KernelTheorems

  type Entry = KernelTheorems.Entry

  /** The user half of x's address space is the same in both. */
  ghost predicate SameSpace(m: Mem, m': Mem, x: nat) {
    forall d: nat, t: nat :: PteOf(m', x, d, t) == PteOf(m, x, d, t)
  }

  /** The caller may act on slot x: it is x or x's parent. */
  predicate MayManage(k: Kernel, cur: nat, x: nat)
    requires cur < |k.envs| && x < |k.envs|
  {
    x == cur || k.envs[x].parent == k.envs[cur].id
  }

  /** The entry is a send to x, which is waiting. */
  predicate SendsTo(k: Kernel, n: Entry, x: nat)
    requires Ok(k) && KernelTheorems.Live(k, n.cur) && x < NENV
  {
    n.call.TrySend? && k.envs[x].recving && Envid2Env(k, n.cur, n.call.envid, false) == Option.Some(x)
  }

  /** With the permission check, an id gives only the caller or its child. */
  lemma CheckedIdIsManaged(k: Kernel, cur: nat, envid: int)
    requires Ok(k) && KernelTheorems.Live(k, cur)
    ensures var o := Envid2Env(k, cur, envid, true); o.Some? ==> KernelTheorems.Live(k, o.value) && MayManage(k, cur, o.value)
  {
  }

  lemma SlotsSame(m: Mem, m': Mem, x: nat)
    requires forall d: nat, t: nat :: Slot(m', Page(x, d, t)) == Slot(m, Page(x, d, t))
    ensures SameSpace(m, m', x)
  {
    forall d: nat, t: nat ensures PteOf(m', x, d, t) == PteOf(m, x, d, t) {
      assert Slot(m', Page(x, d, t)) == Slot(m, Page(x, d, t));
    }
  }

  lemma AllocateIsolated(k: Kernel, cur: nat, envid: int, va: nat, perm: Perm, x: nat)
    requires Ok(k) && KernelTheorems.Live(k, cur) && KernelTheorems.Live(k, x) && !MayManage(k, cur, x)
    ensures SameSpace(k.mem, SysPageAlloc(k, cur, envid, va, perm).1.mem, x)
  {
    CheckedIdIsManaged(k, cur, envid);
    var o := Envid2Env(k, cur, envid, true);
    if o.Some? && VaOk(va) && PermOk(perm) && k.mem.free != [] {
      UserIndex(va);
      AllocAndMapOk(k.mem, o.value, PDX(va), PTX(va), perm);
      var (ok, m') := AllocAndMap(k.mem, o.value, PDX(va), PTX(va), perm);
      if !ok { SlotsSame(k.mem, m', x); }
    }
  }

  lemma MapIsolated(k: Kernel, cur: nat, sid: int, sva: nat, did: int, dva: nat, perm: Perm, x: nat)
    requires Ok(k) && KernelTheorems.Live(k, cur) && KernelTheorems.Live(k, x) && !MayManage(k, cur, x)
    ensures SameSpace(k.mem, SysPageMap(k, cur, sid, sva, did, dva, perm).1.mem, x)
  {
    CheckedIdIsManaged(k, cur, did);
    PageMapOk(k, cur, sid, sva, did, dva, perm);
    var plan := MapPlan(k, cur, sid, sva, did, dva, perm);
    assert plan.Some? ==> Envid2Env(k, cur, did, true) == Option.Some(plan.value.1);
  }

  lemma ReleaseIsolated(k: Kernel, e: nat, x: nat)
    requires Ok(k) && KernelTheorems.Live(k, e) && x != e
    ensures SameSpace(k.mem, ReleaseEnv(k, e).mem, x)
  {
    ReleaseOk(k, e);
    OthersSame(k.mem, ReleaseEnv(k, e).mem, e, x);
  }

  lemma OthersSame(m: Mem, m': Mem, e: nat, x: nat)
    requires x != e && forall s: Site :: Slot(m', s) == if s.e == e then PTE0 else Slot(m, s)
    ensures SameSpace(m, m', x)
  {
    forall d: nat, t: nat ensures PteOf(m', x, d, t) == PteOf(m, x, d, t) {
      assert Slot(m', Page(x, d, t)) == Slot(m, Page(x, d, t));
    }
  }

  lemma DestroyIsolated(k: Kernel, cur: nat, envid: int, x: nat)
    requires Ok(k) && KernelTheorems.Live(k, cur) && Envid2Env(k, cur, envid, true) != Option.Some(x)
    ensures SameSpace(k.mem, SysEnvDestroy(k, cur, envid).1.mem, x)
  {
    var o := Envid2Env(k, cur, envid, true);
    if o.Some? && !(k.envs[o.value].status == RUNNING && o.value != cur) { ReleaseIsolated(k, o.value, x); }
  }

  lemma ExoforkIsolated(k: Kernel, cur: nat, x: nat)
    requires Ok(k) && KernelTheorems.Live(k, cur)
    ensures SameSpace(k.mem, SysExofork(k, cur).1.mem, x)
  {
    ExoforkOk(k, cur);
    SlotsSame(k.mem, SysExofork(k, cur).1.mem, x);
  }

  lemma UnmapIsolated(k: Kernel, cur: nat, envid: int, va: nat, x: nat)
    requires Ok(k) && KernelTheorems.Live(k, cur) && Envid2Env(k, cur, envid, true) != Option.Some(x)
    ensures SameSpace(k.mem, SysPageUnmap(k, cur, envid, va).1.mem, x)
  {
    UnmapOk(k, cur, envid, va);
  }

  lemma SendIsolated(k: Kernel, cur: nat, envid: int, v: nat, va: nat, perm: Perm, x: nat)
    requires Ok(k) && KernelTheorems.Live(k, cur) && KernelTheorems.Live(k, x)
    requires Envid2Env(k, cur, envid, false) == Option.Some(x) ==> !k.envs[x].recving
    ensures SameSpace(k.mem, SysIpcTrySend(k, cur, envid, v, va, perm).1.mem, x)
  {
    SendFollowsPlan(k, cur, envid, v, va, perm);
    var plan := SendPlan(k, cur, envid, va, perm);
    if plan.Some? {
      var (pp, dst) := plan.value;
      assert Envid2Env(k, cur, envid, false) == Option.Some(dst);
      ReceiverIsolated(k, dst, pp, perm, x);
    }
  }

  /** The insert at the receiver's address */
  lemma ReceiverIsolated(k: Kernel, dst: nat, pp: nat, perm: Perm, x: nat)
    requires Ok(k) && dst < NENV && k.envs[dst].status != FREE && Mappable(k.mem, pp) && pp !in k.mem.lost && x != dst
    ensures var va := k.envs[dst].dstva;
            && InRange(k.mem, k.mem.dirs[dst], PDX(va), PTX(va))
            && SameSpace(k.mem, PageInsert(k.mem, k.mem.dirs[dst], pp, PDX(va), PTX(va), perm).1, x)
  {
    if k.envs[dst].dstva < UTOP {
      InsertForReceiver(k, dst, pp, perm);
    } else {
      assert PDX(UTOP) == UTOPX && PTX(UTOP) == 0;
      UtopIsolated(k.mem, dst, pp, perm, x);
    }
  }

  /** A page sent to a receiver that asked for none goes into the kernel's table, which is in no user half. */
  lemma UtopIsolated(m: Mem, dst: nat, pp: nat, perm: Perm, x: nat)
    requires Inv(m) && SharedAboveUtop(m) && dst in m.dirs && Mappable(m, pp)
    ensures InRange(m, m.dirs[dst], UTOPX, 0) && SameSpace(m, PageInsert(m, m.dirs[dst], pp, UTOPX, 0, perm).1, x)
  {
    InsertAtUtopShape(m, dst, pp, perm);
    BootTableStored(m, PageInsert(m, m.dirs[dst], pp, UTOPX, 0, perm).1, At(m, m.kdir, UTOPX).ppn, Paging.Entry(pp, perm), x);
  }

  lemma BootTableStored(m: Mem, m': Mem, tab: nat, pte: Pte, x: nat)
    requires Inv(m) && tab in m.kern && tab < |m.frame| && m'.dirs == m.dirs && m'.frame == m.frame[tab := m.frame[tab][0 := pte]]
    ensures SameSpace(m, m', x)
  {
    var f := m.frame[tab][0 := pte];
    StoreFrame(m, tab, f);
    SlotsOfFrames(m.(frame := m.frame[tab := f]), m');
    SlotsSame(m, m', x);
  }

  lemma PageCallIsolated(k: Kernel, n: Entry, x: nat)
    requires Ok(k) && KernelTheorems.Live(k, n.cur) && KernelTheorems.Live(k, x) && !MayManage(k, n.cur, x)
    requires n.call.Map? || n.call.Unmap? || n.call.Allocate?
    ensures SameSpace(k.mem, KernelTheorems.Apply(k, n).mem, x)
  {
    match n.call
    case Allocate(id, va, perm) => AllocateIsolated(k, n.cur, id, va, perm, x);
    case Map(sid, sva, did, dva, perm) => MapIsolated(k, n.cur, sid, sva, did, dva, perm, x);
    case Unmap(id, va) =>
      CheckedIdIsManaged(k, n.cur, id);
      UnmapIsolated(k, n.cur, id, va, x);
  }

  lemma ExoforkCallIsolated(k: Kernel, n: Entry, x: nat)
    requires Ok(k) && KernelTheorems.Live(k, n.cur) && n.call.Exofork?
    ensures SameSpace(k.mem, KernelTheorems.Apply(k, n).mem, x)
  {
    ExoforkIsolated(k, n.cur, x);
  }

  lemma DestroyCallIsolated(k: Kernel, n: Entry, x: nat)
    requires Ok(k) && KernelTheorems.Live(k, n.cur) && KernelTheorems.Live(k, x) && !MayManage(k, n.cur, x) && n.call.Destroy?
    ensures SameSpace(k.mem, KernelTheorems.Apply(k, n).mem, x)
  {
    CheckedIdIsManaged(k, n.cur, n.call.envid);
    DestroyIsolated(k, n.cur, n.call.envid, x);
  }

  lemma ReapIsolated(k: Kernel, n: Entry, x: nat)
    requires Ok(k) && KernelTheorems.Live(k, n.cur) && x != n.cur && n.call.Reap?
    ensures SameSpace(k.mem, KernelTheorems.Apply(k, n).mem, x)
  {
    if k.envs[n.cur].status == DYING {
      ReleaseIsolated(k, n.cur, x);
      KernelTheorems.DyingReaped(k, n);
    }
  }

  lemma SendCallIsolated(k: Kernel, n: Entry, x: nat)
    requires Ok(k) && KernelTheorems.Live(k, n.cur) && KernelTheorems.Live(k, x) && n.call.TrySend? && !SendsTo(k, n, x)
    ensures SameSpace(k.mem, KernelTheorems.Apply(k, n).mem, x)
  {
    SendIsolated(k, n.cur, n.call.envid, n.call.value, n.call.srcva, n.call.perm, x);
  }

  /** A call by an environment that does not manage x leaves x's address space alone, unless it is a send to x; also
      a call that breaks the kernel's invariant. */
  lemma CallIsIsolated(k: Kernel, n: Entry, x: nat)
    requires Ok(k) && KernelTheorems.Live(k, n.cur) && KernelTheorems.Live(k, x)
    requires !MayManage(k, n.cur, x) && !SendsTo(k, n, x)
    ensures SameSpace(k.mem, KernelTheorems.Apply(k, n).mem, x)
  {
    match n.call
    case Allocate(_, _, _) => PageCallIsolated(k, n, x);
    case Map(_, _, _, _, _) => PageCallIsolated(k, n, x);
    case Unmap(_, _) => PageCallIsolated(k, n, x);
    case TrySend(_, _, _, _) => SendCallIsolated(k, n, x);
    case SetStatus(_, _) => KernelTheorems.StatusCallsKeepMemory(k, n);
    case Recv(_) => KernelTheorems.StatusCallsKeepMemory(k, n);
    case Switch(_) => KernelTheorems.StatusCallsKeepMemory(k, n);
    case Exofork => ExoforkCallIsolated(k, n, x);
    case Destroy(_) => DestroyCallIsolated(k, n, x);
    case Reap => ReapIsolated(k, n, x);
  }
}
