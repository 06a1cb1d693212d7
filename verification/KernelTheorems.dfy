/** Runs of the kernel: the theorems over every sequence of calls. */
module KernelTheorems {
  import opened Paging
  import opened PagingInvariant
  import opened PagingOps
  import opened Kernel
  import opened KernelRuns

  /** One entry to the kernel by the environment in slot `cur`. `Reap` is what trap
      does with a dying environment, `Switch` the status change of env_run. */
  datatype Call =
    | Exofork
    | SetStatus(envid: int, status: Status)
    | Allocate(envid: int, va: nat, perm: Perm)
    | Map(srcid: int, srcva: nat, dstid: int, dstva: nat, perm: Perm)
    | Unmap(envid: int, va: nat)
    | Destroy(envid: int)
    | TrySend(envid: int, value: nat, srcva: nat, perm: Perm)
    | Recv(dstva: nat)
    | Reap
    | Switch(to: nat)

  datatype Entry = Entry(cur: nat, call: Call)

  predicate Live(k: Kernel, e: nat) {
    e < |k.envs| && k.envs[e].status != FREE
  }

  /** The environment in slot cur, if it is running, becomes runnable. */
  function Preempt(k: Kernel, cur: nat): Kernel
    requires Live(k, cur)
  {
    if k.envs[cur].status == RUNNING then k.(envs := k.envs[cur := k.envs[cur].(status := RUNNABLE)]) else k
  }

  function RunEnv(k: Kernel, to: nat): Kernel
    requires Live(k, to)
  {
    k.(envs := k.envs[to := k.envs[to].(status := RUNNING, runs := (k.envs[to].runs + 1) % 0x1_0000_0000)])
  }

  /** env_run: the current environment is preempted, and the other one runs, perhaps the same again. */
  function SysSwitch(k: Kernel, cur: nat, to: nat): Kernel
    requires Ok(k) && Live(k, cur)
  {
    if !Live(k, to) || !(k.envs[to].status == RUNNABLE || (to == cur && k.envs[to].status == RUNNING)) then k
    else RunEnv(Preempt(k, cur), to)
  }

  ghost function Apply(k: Kernel, n: Entry): Kernel
    requires Ok(k)
  {
    if !Live(k, n.cur) then k
    else match n.call
      case Exofork => SysExofork(k, n.cur).1
      case SetStatus(id, s) => SysEnvSetStatus(k, n.cur, id, s).1
      case Allocate(id, va, perm) => SysPageAlloc(k, n.cur, id, va, perm).1
      case Map(sid, sva, did, dva, perm) => SysPageMap(k, n.cur, sid, sva, did, dva, perm).1
      case Unmap(id, va) => SysPageUnmap(k, n.cur, id, va).1
      case Destroy(id) => SysEnvDestroy(k, n.cur, id).1
      case TrySend(id, v, va, perm) => SysIpcTrySend(k, n.cur, id, v, va, perm).1
      case Recv(va) => SysIpcRecv(k, n.cur, va).1
      case Reap => if k.envs[n.cur].status == DYING then ReleaseEnv(k, n.cur) else k
      case Switch(to) => SysSwitch(k, n.cur, to)
  }

  /** The exact condition under which a call keeps the invariant: an unmap is not
      aimed at an empty entry of an existing table, a mapped page's 16-bit count does
      not overflow, and a page is sent only to a receiver that asked for one. */
  ghost predicate Safe(k: Kernel, n: Entry)
    requires Ok(k)
  {
    Live(k, n.cur) ==>
      match n.call
      case Unmap(id, va) => UnmapIsSound(k, n.cur, id, va)
      case Map(sid, sva, did, dva, perm) =>
        var plan := MapPlan(k, n.cur, sid, sva, did, dva, perm);
        plan.Some? ==> var (pp, dst) := plan.value;
          || (!Pde(k.mem, dst, PDX(dva)).perm.p && k.mem.free == [])
          || (pp < |k.mem.ref| && CountFits(k.mem, dst, PDX(dva), PTX(dva), pp))
      case TrySend(id, v, va, perm) =>
        var plan := SendPlan(k, n.cur, id, va, perm);
        plan.Some? ==> var (pp, dst) := plan.value; var dva := k.envs[dst].dstva;
          || NoTableFor(k, dst)
          || (dva < UTOP && pp < |k.mem.ref| && CountFits(k.mem, dst, PDX(dva), PTX(dva), pp))
      case _ => true
  }

  /** The page calls leave the environment table alone. */
  lemma PageCall(k: Kernel, n: Entry)
    requires Ok(k) && Live(k, n.cur) && (n.call.Map? || n.call.Unmap? || n.call.Allocate?)
    ensures Apply(k, n).envs == k.envs
  {
    match n.call
    case Map(sid, sva, did, dva, perm) => assert SysPageMap(k, n.cur, sid, sva, did, dva, perm).1.envs == k.envs;
    case Unmap(id, va) => assert SysPageUnmap(k, n.cur, id, va).1.envs == k.envs;
    case Allocate(id, va, perm) => assert SysPageAlloc(k, n.cur, id, va, perm).1.envs == k.envs;
  }

  lemma StatusOk(k: Kernel, e: nat, env: Env)
    requires Ok(k) && Live(k, e)
    requires env.status != FREE && env.id == k.envs[e].id && env.dstva <= UTOP
    ensures Ok(k.(envs := k.envs[e := env]))
  {
    DeliverOk(k, e, env);
  }

  lemma AllocateOk(k: Kernel, cur: nat, envid: int, va: nat, perm: Perm)
    requires Ok(k) && Live(k, cur)
    ensures Ok(SysPageAlloc(k, cur, envid, va, perm).1)
  {
    var o := Envid2Env(k, cur, envid, true);
    if o.Some? && VaOk(va) && PermOk(perm) && k.mem.free != [] {
      UserIndex(va);
      AllocAndMapOk(k.mem, o.value, PDX(va), PTX(va), perm);
      TableStep(k, AllocAndMap(k.mem, o.value, PDX(va), PTX(va), perm).1);
    }
  }

  lemma SetStatusOk(k: Kernel, cur: nat, envid: int, s: Status)
    requires Ok(k) && Live(k, cur)
    ensures Ok(SysEnvSetStatus(k, cur, envid, s).1)
  {
    var o := Envid2Env(k, cur, envid, true);
    if o.Some? && (s == RUNNABLE || s == NOT_RUNNABLE) { StatusOk(k, o.value, k.envs[o.value].(status := s)); }
  }

  lemma DestroyOk(k: Kernel, cur: nat, envid: int)
    requires Ok(k) && Live(k, cur)
    ensures Ok(SysEnvDestroy(k, cur, envid).1)
  {
    var o := Envid2Env(k, cur, envid, true);
    if o.Some? {
      var e := o.value;
      if k.envs[e].status == RUNNING && e != cur { StatusOk(k, e, k.envs[e].(status := DYING)); }
      else { ReleaseOk(k, e); }
    }
  }

  predicate SharingCall(c: Call) {
    c.Map? || c.Unmap? || c.TrySend?
  }

  lemma SharingStepOk(k: Kernel, n: Entry)
    requires Ok(k) && Live(k, n.cur) && SharingCall(n.call)
    ensures Ok(Apply(k, n)) <==> Safe(k, n)
  {
    match n.call
    case Map(sid, sva, did, dva, perm) => PageMapOk(k, n.cur, sid, sva, did, dva, perm);
    case Unmap(id, va) => UnmapOk(k, n.cur, id, va);
    case TrySend(id, v, va, perm) => SendOk(k, n.cur, id, v, va, perm);
  }

  lemma ExoforkStepOk(k: Kernel, n: Entry)
    requires Ok(k) && Live(k, n.cur) && n.call.Exofork?
    ensures Safe(k, n) && Ok(Apply(k, n))
  {
    ExoforkOk(k, n.cur);
  }

  lemma AllocateStepOk(k: Kernel, n: Entry)
    requires Ok(k) && Live(k, n.cur) && n.call.Allocate?
    ensures Safe(k, n) && Ok(Apply(k, n))
  {
    AllocateOk(k, n.cur, n.call.envid, n.call.va, n.call.perm);
  }

  lemma DestroyStepOk(k: Kernel, n: Entry)
    requires Ok(k) && Live(k, n.cur) && n.call.Destroy?
    ensures Safe(k, n) && Ok(Apply(k, n))
  {
    DestroyOk(k, n.cur, n.call.envid);
  }

  lemma DyingReaped(k: Kernel, n: Entry)
    requires Ok(k) && Live(k, n.cur) && n.call.Reap? && k.envs[n.cur].status == DYING
    ensures Apply(k, n) == ReleaseEnv(k, n.cur)
  {
  }

  /** Destroying marks its target, or frees it. */
  lemma DestroyedOrMarked(k: Kernel, n: Entry)
    requires Ok(k) && Live(k, n.cur) && n.call.Destroy?
    ensures var o := Envid2Env(k, n.cur, n.call.envid, true);
            Apply(k, n).mem == k.mem || (o.Some? && Live(k, o.value) && Apply(k, n) == ReleaseEnv(k, o.value))
  {
  }

  lemma ReapStepOk(k: Kernel, n: Entry)
    requires Ok(k) && Live(k, n.cur) && n.call.Reap?
    ensures Safe(k, n) && Ok(Apply(k, n))
  {
    if k.envs[n.cur].status == DYING { ReleaseOk(k, n.cur); }
  }

  lemma SetStatusStepOk(k: Kernel, n: Entry)
    requires Ok(k) && Live(k, n.cur) && n.call.SetStatus?
    ensures Safe(k, n) && Ok(Apply(k, n))
  {
    SetStatusOk(k, n.cur, n.call.envid, n.call.status);
  }

  lemma RecvStepOk(k: Kernel, n: Entry)
    requires Ok(k) && Live(k, n.cur) && n.call.Recv?
    ensures Safe(k, n) && Ok(Apply(k, n))
  {
    StatusOk(k, n.cur, SysIpcRecv(k, n.cur, n.call.dstva).1.envs[n.cur]);
  }

  lemma SwitchStepOk(k: Kernel, n: Entry)
    requires Ok(k) && Live(k, n.cur) && n.call.Switch?
    ensures Safe(k, n) && Ok(Apply(k, n))
  {
    SwitchOk(k, n.cur, n.call.to);
  }

  /** A call keeps the invariant if and only if it is safe. */
  lemma StepOk(k: Kernel, n: Entry)
    requires Ok(k)
    ensures Ok(Apply(k, n)) <==> Safe(k, n)
  {
    if Live(k, n.cur) {
      match n.call
      case Exofork => ExoforkStepOk(k, n);
      case SetStatus(_, _) => SetStatusStepOk(k, n);
      case Allocate(_, _, _) => AllocateStepOk(k, n);
      case Destroy(_) => DestroyStepOk(k, n);
      case Recv(_) => RecvStepOk(k, n);
      case Reap => ReapStepOk(k, n);
      case Switch(_) => SwitchStepOk(k, n);
      case _ => SharingStepOk(k, n);
    }
  }

  lemma PreemptOk(k: Kernel, cur: nat)
    requires Ok(k) && Live(k, cur)
    ensures Ok(Preempt(k, cur)) && Preempt(k, cur).mem == k.mem
  {
    if k.envs[cur].status == RUNNING { StatusOk(k, cur, k.envs[cur].(status := RUNNABLE)); }
  }

  lemma SwitchOk(k: Kernel, cur: nat, to: nat)
    requires Ok(k) && Live(k, cur)
    ensures Ok(SysSwitch(k, cur, to)) && SysSwitch(k, cur, to).mem == k.mem
  {
    if SysSwitch(k, cur, to) != k {
      PreemptOk(k, cur);
      RunEnvOk(Preempt(k, cur), to);
    }
  }

  lemma RunEnvOk(k: Kernel, to: nat)
    requires Ok(k) && Live(k, to)
    ensures Ok(RunEnv(k, to)) && RunEnv(k, to).mem == k.mem
  {
    StatusOk(k, to, RunEnv(k, to).envs[to]);
  }

  // ----- runs -----

  ghost predicate SafeRun(k: Kernel, run: seq<Entry>)
    requires Ok(k)
    decreases |run|
  {
    run == [] || (Safe(k, run[0]) && (StepOk(k, run[0]); SafeRun(Apply(k, run[0]), run[1..])))
  }

  ghost function After(k: Kernel, run: seq<Entry>): Kernel
    requires Ok(k) && SafeRun(k, run)
    decreases |run|
  {
    if run == [] then k else StepOk(k, run[0]); After(Apply(k, run[0]), run[1..])
  }

  /** No page used as a page table or directory is mapped, or used twice. */
  ghost predicate KindsApart(m: Mem) {
    && (forall e: nat, d: nat, t: nat, e': nat, d': nat ::
          PteOf(m, e, d, t).perm.p && Pde(m, e', d').perm.p ==> PteOf(m, e, d, t).ppn != Pde(m, e', d').ppn)
    && (forall e: nat, d: nat, t: nat, e': nat ::
          PteOf(m, e, d, t).perm.p && e' in m.dirs ==> PteOf(m, e, d, t).ppn != m.dirs[e'])
    && (forall e: nat, d: nat, e': nat, d': nat ::
          (e, d) != (e', d') && Pde(m, e, d).perm.p && Pde(m, e', d').perm.p ==> Pde(m, e, d).ppn != Pde(m, e', d').ppn)
  }

  lemma SeparateKinds(m: Mem)
    requires Separate(m)
    ensures KindsApart(m)
  {
    forall e: nat, d: nat, t: nat, e': nat, d': nat | PteOf(m, e, d, t).perm.p && Pde(m, e', d').perm.p
      ensures PteOf(m, e, d, t).ppn != Pde(m, e', d').ppn
    {
      assert Target(m, Page(e, d, t)) == PteOf(m, e, d, t).ppn && Target(m, Table(e', d')) == Pde(m, e', d').ppn;
    }
    forall e: nat, d: nat, t: nat, e': nat | PteOf(m, e, d, t).perm.p && e' in m.dirs
      ensures PteOf(m, e, d, t).ppn != m.dirs[e']
    {
      assert Target(m, Page(e, d, t)) == PteOf(m, e, d, t).ppn && Target(m, Dir(e')) == m.dirs[e'];
    }
    forall e: nat, d: nat, e': nat, d': nat | (e, d) != (e', d') && Pde(m, e, d).perm.p && Pde(m, e', d').perm.p
      ensures Pde(m, e, d).ppn != Pde(m, e', d').ppn
    {
      assert Target(m, Table(e, d)) == Pde(m, e, d).ppn && Target(m, Table(e', d')) == Pde(m, e', d').ppn;
    }
  }

  /** After every safe run the counts are exact, a page is free iff nothing refers to
      it and it was not lost, the free list has no duplicates, and page kinds are apart. */
  lemma {:induction false} RunsKeepCountsExact(k: Kernel, run: seq<Entry>)
    requires Ok(k) && SafeRun(k, run)
    ensures var k' := After(k, run); var m := k'.mem;
            && Ok(k')
            && (forall p: nat :: p < |m.ref| ==> m.ref[p] == |Refs(m, p)| + Base(m, p))
            && (forall p: nat :: p < |m.ref| ==> (p in m.free <==> m.ref[p] == 0 && p !in m.lost))
            && NoDup(m.free) && KindsApart(m)
    decreases |run|
  {
    if run == [] {
      SeparateKinds(k.mem);
    } else {
      StepOk(k, run[0]);
      RunsKeepCountsExact(Apply(k, run[0]), run[1..]);
    }
  }

  // ----- write permission -----

  ghost predicate Writable(m: Mem, p: nat) {
    exists e: nat, d: nat, t: nat :: GivesWrite(PteOf(m, e, d, t), p)
  }

  predicate GivesWrite(pte: Pte, p: nat) {
    pte.perm.p && pte.perm.w && pte.ppn == p
  }

  lemma OnePageWriters(m: Mem, m': Mem, e: nat, d: nat, t: nat, pte: Pte, p: nat)
    requires OnlyPage(m, m', e, d, t, pte) && !GivesWrite(pte, p) && !Writable(m, p)
    ensures !Writable(m', p)
  {
    forall e': nat, d': nat, t': nat ensures !GivesWrite(PteOf(m', e', d', t'), p) {
      assert !GivesWrite(PteOf(m, e', d', t'), p);
    }
  }

  lemma SubsetWriters(m: Mem, m': Mem, p: nat)
    requires forall s :: Slot(m', s) == Slot(m, s) || Slot(m', s) == PTE0 || !s.Page?
    requires !Writable(m, p)
    ensures !Writable(m', p)
  {
    forall e: nat, d: nat, t: nat ensures !GivesWrite(PteOf(m', e, d, t), p) {
      assert !GivesWrite(PteOf(m, e, d, t), p);
      assert Slot(m', Page(e, d, t)) == PteOf(m', e, d, t) && Slot(m, Page(e, d, t)) == PteOf(m, e, d, t);
    }
  }

  lemma AllocateWriters(k: Kernel, cur: nat, envid: int, va: nat, perm: Perm, p: nat)
    requires Ok(k) && Live(k, cur) && p < |k.mem.ref| && k.mem.ref[p] > 0 && !Writable(k.mem, p)
    ensures !Writable(SysPageAlloc(k, cur, envid, va, perm).1.mem, p)
  {
    var o := Envid2Env(k, cur, envid, true);
    if o.Some? && VaOk(va) && PermOk(perm) && k.mem.free != [] {
      UserIndex(va);
      var e, d, t := o.value, PDX(va), PTX(va);
      AllocAndMapOk(k.mem, e, d, t, perm);
      var (ok, m') := AllocAndMap(k.mem, e, d, t, perm);
      assert k.mem.free[0] in k.mem.free;
      if ok { OnePageWriters(k.mem, m', e, d, t, Paging.Entry(k.mem.free[0], perm), p); }
      else { SubsetWriters(k.mem, m', p); }
    }
  }

  lemma SharingWriters(k: Kernel, n: Entry, p: nat)
    requires Ok(k) && Live(k, n.cur) && SharingCall(n.call) && Safe(k, n)
    requires !Writable(k.mem, p)
    ensures !Writable(Apply(k, n).mem, p)
  {
    var m, m' := k.mem, Apply(k, n).mem;
    match n.call
    case Map(sid, sva, did, dva, perm) =>
      PageMapOk(k, n.cur, sid, sva, did, dva, perm);
      if SysPageMap(k, n.cur, sid, sva, did, dva, perm).0 == 0 {
        var (pp, dst) := MapPlan(k, n.cur, sid, sva, did, dva, perm).value;
        var src := Envid2Env(k, n.cur, sid, true).value;
        SourceGives(m, src, PDX(sva), PTX(sva), perm, p);
        OnePageWriters(m, m', dst, PDX(dva), PTX(dva), Paging.Entry(pp, perm), p);
      }
    case Unmap(id, va) =>
      UnmapOk(k, n.cur, id, va);
      if SysPageUnmap(k, n.cur, id, va).0 == 0 {
        OnePageWriters(m, m', Envid2Env(k, n.cur, id, true).value, PDX(va), PTX(va), PTE0, p);
      }
    case TrySend(id, v, va, perm) =>
      SendOk(k, n.cur, id, v, va, perm);
      var plan := SendPlan(k, n.cur, id, va, perm);
      if plan.Some? && SysIpcTrySend(k, n.cur, id, v, va, perm).0 == 0 {
        var (pp, dst) := plan.value;
        var dva := k.envs[dst].dstva;
        SourceGives(m, n.cur, PDX(va), PTX(va), perm, p);
        OnePageWriters(m, m', dst, PDX(dva), PTX(dva), Paging.Entry(pp, perm), p);
      }
  }

  /** A mapping made from a source entry is writable only if the source entry is. */
  lemma SourceGives(m: Mem, e: nat, d: nat, t: nat, perm: Perm, p: nat)
    requires Inv(m) && (perm.w ==> PteOf(m, e, d, t).perm.w) && !Writable(m, p)
    ensures !GivesWrite(Paging.Entry(PteOf(m, e, d, t).ppn, perm), p)
  {
    assert Slot(m, Page(e, d, t)) == PteOf(m, e, d, t);
    assert !GivesWrite(PteOf(m, e, d, t), p);
  }

  lemma ReleaseWriters(k: Kernel, e: nat, p: nat)
    requires Ok(k) && Live(k, e) && !Writable(k.mem, p)
    ensures !Writable(ReleaseEnv(k, e).mem, p)
  {
    ReleaseOk(k, e);
    SubsetWriters(k.mem, ReleaseEnv(k, e).mem, p);
  }

  lemma DestroyWriters(k: Kernel, n: Entry, p: nat)
    requires Ok(k) && Live(k, n.cur) && n.call.Destroy? && !Writable(k.mem, p)
    ensures !Writable(Apply(k, n).mem, p)
  {
    var o := Envid2Env(k, n.cur, n.call.envid, true);
    if o.Some? { ReleaseWriters(k, o.value, p); }
  }

  lemma ReapWriters(k: Kernel, n: Entry, p: nat)
    requires Ok(k) && Live(k, n.cur) && n.call.Reap? && !Writable(k.mem, p)
    ensures !Writable(Apply(k, n).mem, p)
  {
    if k.envs[n.cur].status == DYING { ReleaseWriters(k, n.cur, p); }
  }

  lemma ExoforkWriters(k: Kernel, n: Entry, p: nat)
    requires Ok(k) && Live(k, n.cur) && n.call.Exofork? && !Writable(k.mem, p)
    ensures !Writable(Apply(k, n).mem, p)
  {
    ExoforkOk(k, n.cur);
    SubsetWriters(k.mem, SysExofork(k, n.cur).1.mem, p);
  }

  lemma AllocateStepWriters(k: Kernel, n: Entry, p: nat)
    requires Ok(k) && Live(k, n.cur) && n.call.Allocate? && p < |k.mem.ref| && k.mem.ref[p] > 0 && !Writable(k.mem, p)
    ensures !Writable(Apply(k, n).mem, p)
  {
    AllocateWriters(k, n.cur, n.call.envid, n.call.va, n.call.perm, p);
  }

  lemma StatusCallsKeepMemory(k: Kernel, n: Entry)
    requires Ok(k) && Live(k, n.cur) && (n.call.SetStatus? || n.call.Recv? || n.call.Switch?)
    ensures Apply(k, n).mem == k.mem
  {
  }

  /** No call gives write access to a page in use that nobody could write. */
  lemma StepGivesNoWrite(k: Kernel, n: Entry, p: nat)
    requires Ok(k) && Safe(k, n) && p < |k.mem.ref| && k.mem.ref[p] > 0 && !Writable(k.mem, p)
    ensures !Writable(Apply(k, n).mem, p)
  {
    if Live(k, n.cur) {
      match n.call
      case Exofork => ExoforkWriters(k, n, p);
      case Allocate(_, _, _) => AllocateStepWriters(k, n, p);
      case Destroy(_) => DestroyWriters(k, n, p);
      case Reap => ReapWriters(k, n, p);
      case Map(_, _, _, _, _) => SharingWriters(k, n, p);
      case Unmap(_, _) => SharingWriters(k, n, p);
      case TrySend(_, _, _, _) => SharingWriters(k, n, p);
      case _ => StatusCallsKeepMemory(k, n);
    }
  }

  /** Page p stays referenced in every state of the run. */
  ghost predicate InUseThroughout(k: Kernel, run: seq<Entry>, p: nat)
    requires Ok(k) && SafeRun(k, run)
    decreases |run|
  {
    && p < |k.mem.ref| && k.mem.ref[p] > 0
    && (run != [] ==> (StepOk(k, run[0]); InUseThroughout(Apply(k, run[0]), run[1..], p)))
  }

  /** Write permission is never amplified: a page nobody can write stays so until its
      count has reached zero. */
  lemma {:induction false} WritePermissionNeverAmplified(k: Kernel, run: seq<Entry>, p: nat)
    requires Ok(k) && SafeRun(k, run) && InUseThroughout(k, run, p) && !Writable(k.mem, p)
    ensures !Writable(After(k, run).mem, p)
    decreases |run|
  {
    if run != [] {
      StepOk(k, run[0]);
      StepGivesNoWrite(k, run[0], p);
      WritePermissionNeverAmplified(Apply(k, run[0]), run[1..], p);
    }
  }
}
