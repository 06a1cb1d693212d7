/** The status changes of the multi-CPU machine are those of the kernel's system calls. */
module SmpRefinesKernel {
  import opened Paging
  import opened Kernel
  import opened KernelRuns
  import KernelTheorems
  import Smp
  import SmpInvariant

  /** The environment table as the CPUs see it */
  function Slots(k: Kernel): seq<Smp.Slot> {
    seq(|k.envs|, i requires 0 <= i < |k.envs| => Smp.Slot(k.envs[i].status, k.envs[i].recving))
  }

  /** What a system call asks of the scheduler: calls that fail, and page calls, ask nothing. */
  function OpOf(k: Kernel, n: KernelTheorems.Entry): Smp.Op
    requires Ok(k) && KernelTheorems.Live(k, n.cur)
  {
    match n.call
    case SetStatus(id, s) =>
      var o := Envid2Env(k, n.cur, id, true);
      if o.Some? && (s == RUNNABLE || s == NOT_RUNNABLE) then Smp.SetStatus(o.value, s) else Smp.Nothing
    case Exofork => if k.efree != [] && k.mem.free != [] then Smp.Exofork(k.efree[0]) else Smp.Nothing
    case Destroy(id) =>
      var o := Envid2Env(k, n.cur, id, true);
      if o.Some? then Smp.Destroy(o.value) else Smp.Nothing
    case Recv(va) => if va < UTOP && PGOFF(va) != 0 then Smp.Nothing else Smp.Recv
    case TrySend(id, v, va, perm) =>
      if SysIpcTrySend(k, n.cur, id, v, va, perm).0 == 0 then Smp.Send(Envid2Env(k, n.cur, id, false).value) else Smp.Nothing
    case _ => Smp.Nothing
  }

  /** CPU c, dispatching a system call of its current environment, moves the slots as the kernel's call does. */
  lemma DispatchIsTheCall(k: Kernel, n: KernelTheorems.Entry, s: Smp.State, c: nat)
    requires Ok(k) && KernelTheorems.Live(k, n.cur) && Smp.Shape(s) && c < |s.cpus|
    requires s.envs == Slots(k) && s.cpus[c].env == n.cur && !n.call.Reap? && !n.call.Switch?
    ensures Smp.Allowed(s, true, OpOf(k, n))
    ensures Smp.DispatchStep(s, c, OpOf(k, n)).envs == Slots(KernelTheorems.Apply(k, n))
  {
    if n.call.Map? || n.call.Unmap? || n.call.Allocate? { KernelTheorems.PageCall(k, n); }
    else if n.call.TrySend? { SendCall(k, n, s, c); }
    else if n.call.Exofork? { ExoforkCall(k, n, s, c); }
    else if n.call.SetStatus? { SetStatusCall(k, n, s, c); }
    else if n.call.Destroy? { DestroyCall(k, n, s, c); }
    else { RecvCall(k, n, s, c); }
  }

  /** env_run on a CPU is the kernel's switch, to a runnable environment or back to its own. */
  lemma RunIsTheSwitch(k: Kernel, s: Smp.State, c: nat, to: nat)
    requires Ok(k) && Smp.Shape(s) && c < |s.cpus| && s.envs == Slots(k) && s.cpus[c].env >= 0 && KernelTheorems.Live(k, s.cpus[c].env)
    requires to < NENV && (k.envs[to].status == RUNNABLE || (to == s.cpus[c].env && k.envs[to].status == RUNNING))
    ensures var cur := s.cpus[c].env; var k' := KernelTheorems.SysSwitch(k, cur, to); var s' := Smp.WorkStep(s, c, Smp.Run(to), Smp.Nothing, -1);
            && s'.envs == Slots(k') && s'.cpus == s.cpus[c := s.cpus[c].(env := to, pc := Smp.Release(Smp.User))]
            && k'.envs[to] == k.envs[to].(status := RUNNING, runs := (k.envs[to].runs + 1) % 0x1_0000_0000)
            && (forall e: nat :: e < NENV && e != to ==>
                  k'.envs[e] == if e == cur && k.envs[e].status == RUNNING then k.envs[e].(status := RUNNABLE) else k.envs[e])
  {
  }

  /** What trap does with a dying environment is the kernel's release of its slot and its memory. */
  lemma EnterIsTheReap(k: Kernel, s: Smp.State, c: nat)
    requires Ok(k) && Smp.Shape(s) && c < |s.cpus| && s.envs == Slots(k) && 0 <= s.cpus[c].env && KernelTheorems.Live(k, s.cpus[c].env)
    requires k.envs[s.cpus[c].env].status == DYING
    ensures var cur := s.cpus[c].env; var s' := Smp.WorkStep(s, c, Smp.Enter, Smp.Nothing, -1);
            && s'.envs == Slots(KernelTheorems.Apply(k, KernelTheorems.Entry(cur, KernelTheorems.Reap)))
            && s'.cpus == s.cpus[c := s.cpus[c].(env := Smp.NONE, pc := Smp.Work(Smp.Yield))]
  {
    var cur := s.cpus[c].env;
    var n := KernelTheorems.Entry(cur, KernelTheorems.Reap);
    KernelTheorems.DyingReaped(k, n);
    SlotsFollow(k, ReleaseEnv(k, cur), cur);
  }

  /** What i386_init creates is what env_alloc gives: a runnable environment in the first free slot. */
  lemma CreateIsTheAlloc(k: Kernel, s: Smp.State, c: nat, parent: int)
    requires Ok(k) && Smp.Shape(s) && c < |s.cpus| && s.envs == Slots(k) && k.efree != [] && k.mem.free != []
    ensures k.efree[0] < NENV
    ensures forall i :: 0 <= i < |k.efree| ==> k.efree[i] in k.efree
    ensures var e := k.efree[0]; var (r, k') := EnvAlloc(k, parent);
            && r == e && |k'.envs| == NENV && k'.envs[e].status == RUNNABLE
            && Smp.WorkStep(s, c, Smp.Create, Smp.Exofork(e), -1).envs == Slots(k')
  {
    assert forall i :: 0 <= i < |k.efree| ==> k.efree[i] in k.efree;
    var e := k.efree[0];
    var k' := EnvAlloc(k, parent).1;
    SlotsFollow(k, k', e);
  }

  lemma SlotsFollow(k: Kernel, k': Kernel, e: nat)
    requires |k.envs| == |k'.envs| && e < |k.envs| && forall i :: 0 <= i < |k.envs| && i != e ==> k'.envs[i] == k.envs[i]
    ensures Slots(k') == Slots(k)[e := Smp.Slot(k'.envs[e].status, k'.envs[e].recving)]
  {
  }

  lemma SendEnvs(k: Kernel, cur: nat, envid: int, value: nat, srcva: nat, perm: Perm)
    requires Ok(k) && KernelTheorems.Live(k, cur)
    ensures var (r, k') := SysIpcTrySend(k, cur, envid, value, srcva, perm); var o := Envid2Env(k, cur, envid, false);
            && |k'.envs| == NENV
            && (r != 0 ==> k'.envs == k.envs)
            && (r == 0 ==> o.Some? && k.envs[o.value].recving && k.envs[o.value].status != FREE
                           && !k'.envs[o.value].recving && k'.envs[o.value].status == RUNNABLE)
            && (r == 0 ==> forall i :: 0 <= i < NENV && i != o.value ==> k'.envs[i] == k.envs[i])
  {
  }

  lemma SendSlots(k: Kernel, n: KernelTheorems.Entry)
    requires Ok(k) && KernelTheorems.Live(k, n.cur) && n.call.TrySend?
    ensures var op := OpOf(k, n); var slots := Slots(KernelTheorems.Apply(k, n));
            if op == Smp.Nothing then slots == Slots(k)
            else (op.Send? && op.e < NENV && Slots(k)[op.e].status != FREE && Slots(k)[op.e].recving && slots == Slots(k)[op.e := Smp.Slot(RUNNABLE, false)])
  {
    var k' := KernelTheorems.Apply(k, n);
    SendEnvs(k, n.cur, n.call.envid, n.call.value, n.call.srcva, n.call.perm);
    if SysIpcTrySend(k, n.cur, n.call.envid, n.call.value, n.call.srcva, n.call.perm).0 == 0 {
      var dst := Envid2Env(k, n.cur, n.call.envid, false).value;
      SlotsFollow(k, k', dst);
    }
  }

  lemma SendCall(k: Kernel, n: KernelTheorems.Entry, s: Smp.State, c: nat)
    requires Ok(k) && KernelTheorems.Live(k, n.cur) && Smp.Shape(s) && c < |s.cpus| && s.envs == Slots(k)
    requires s.cpus[c].env == n.cur && n.call.TrySend?
    ensures Smp.Allowed(s, true, OpOf(k, n))
    ensures Smp.DispatchStep(s, c, OpOf(k, n)).envs == Slots(KernelTheorems.Apply(k, n))
  {
    SendSlots(k, n);
  }

  lemma ExoforkSlots(k: Kernel, n: KernelTheorems.Entry)
    requires Ok(k) && KernelTheorems.Live(k, n.cur) && n.call.Exofork?
    ensures var op := OpOf(k, n); var slots := Slots(KernelTheorems.Apply(k, n));
            if op == Smp.Nothing then slots == Slots(k)
            else (op.Exofork? && op.e < NENV && Slots(k)[op.e].status == FREE && slots == Slots(k)[op.e := Slots(k)[op.e].(status := NOT_RUNNABLE)])
  {
    ExoforkOk(k, n.cur);
    var k' := KernelTheorems.Apply(k, n);
    if k.efree != [] && k.mem.free != [] {
      var e := k.efree[0];
      assert e in k.efree;
      SlotsFollow(k, k', e);
    }
  }

  lemma ExoforkCall(k: Kernel, n: KernelTheorems.Entry, s: Smp.State, c: nat)
    requires Ok(k) && KernelTheorems.Live(k, n.cur) && Smp.Shape(s) && c < |s.cpus| && s.envs == Slots(k)
    requires s.cpus[c].env == n.cur && n.call.Exofork?
    ensures Smp.Allowed(s, true, OpOf(k, n))
    ensures Smp.DispatchStep(s, c, OpOf(k, n)).envs == Slots(KernelTheorems.Apply(k, n))
  {
    ExoforkSlots(k, n);
  }

  lemma SetStatusCall(k: Kernel, n: KernelTheorems.Entry, s: Smp.State, c: nat)
    requires Ok(k) && KernelTheorems.Live(k, n.cur) && Smp.Shape(s) && c < |s.cpus| && s.envs == Slots(k)
    requires s.cpus[c].env == n.cur
    requires n.call.SetStatus?
    ensures Smp.Allowed(s, true, OpOf(k, n))
    ensures Smp.DispatchStep(s, c, OpOf(k, n)).envs == Slots(KernelTheorems.Apply(k, n))
  {
    var k' := KernelTheorems.Apply(k, n);
    var o := Envid2Env(k, n.cur, n.call.envid, true);
    if o.Some? && (n.call.status == RUNNABLE || n.call.status == NOT_RUNNABLE) {
      assert Slots(k') == Slots(k)[o.value := Slots(k)[o.value].(status := n.call.status)];
    }
  }

  lemma DestroySlots(k: Kernel, n: KernelTheorems.Entry)
    requires Ok(k) && KernelTheorems.Live(k, n.cur) && n.call.Destroy?
    ensures var op := OpOf(k, n); var slots := Slots(KernelTheorems.Apply(k, n));
            || (op == Smp.Nothing && slots == Slots(k))
            || (op.Destroy? && op.e < NENV && Slots(k)[op.e].status != FREE
                && slots == Slots(k)[op.e := Slots(k)[op.e].(status := if Slots(k)[op.e].status == RUNNING && op.e != n.cur then DYING else FREE)])
  {
    var k' := KernelTheorems.Apply(k, n);
    var o := Envid2Env(k, n.cur, n.call.envid, true);
    if o.Some? {
      var e := o.value;
      var st := if k.envs[e].status == RUNNING && e != n.cur then DYING else FREE;
      assert k'.envs == k.envs[e := k.envs[e].(status := st)];
      SlotsFollow(k, k', e);
    }
  }

  lemma DestroyCall(k: Kernel, n: KernelTheorems.Entry, s: Smp.State, c: nat)
    requires Ok(k) && KernelTheorems.Live(k, n.cur) && Smp.Shape(s) && c < |s.cpus| && s.envs == Slots(k)
    requires s.cpus[c].env == n.cur && n.call.Destroy?
    ensures Smp.Allowed(s, true, OpOf(k, n))
    ensures Smp.DispatchStep(s, c, OpOf(k, n)).envs == Slots(KernelTheorems.Apply(k, n))
  {
    DestroySlots(k, n);
  }

  lemma RecvCall(k: Kernel, n: KernelTheorems.Entry, s: Smp.State, c: nat)
    requires Ok(k) && KernelTheorems.Live(k, n.cur) && Smp.Shape(s) && c < |s.cpus| && s.envs == Slots(k)
    requires s.cpus[c].env == n.cur
    requires n.call.Recv?
    ensures Smp.Allowed(s, true, OpOf(k, n))
    ensures Smp.DispatchStep(s, c, OpOf(k, n)).envs == Slots(KernelTheorems.Apply(k, n))
  {
    var k' := KernelTheorems.Apply(k, n);
    if !(n.call.dstva < UTOP && PGOFF(n.call.dstva) != 0) {
      assert Slots(k') == Slots(k)[n.cur := Smp.Slot(NOT_RUNNABLE, true)];
    }
  }

  /** When a status change is harmless: its target is not running or dying, or is the caller itself. */
  lemma GuardByStatus(s: Smp.State, c: nat, e: nat, st: Status)
    requires SmpInvariant.Inv(s) && c < |s.cpus| && s.cpus[c].pc.Work? && s.cpus[c].pc.task.Dispatch? && e < NENV
    ensures SmpInvariant.Guarded(s, c, Smp.SetStatus(e, st)) <==> !SmpInvariant.Occupied(s.envs[e].status) || s.cpus[c].env == e
    ensures SmpInvariant.Guarded(s, c, Smp.Send(e)) <==> !SmpInvariant.Occupied(s.envs[e].status) || s.cpus[c].env == e
  {
    SmpInvariant.Facts(s, c);
    assert SmpInvariant.SlotOk(s, e);
    forall d: nat | d < |s.cpus| && d != c && s.cpus[d].env == e ensures SmpInvariant.Occupied(s.envs[e].status) && s.cpus[c].env != e {
      assert SmpInvariant.CpuOk(s, d) && SmpInvariant.PairOk(s, c, d);
    }
  }
}
