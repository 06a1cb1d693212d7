/** Environments and the memory and IPC system calls (kern/env.c, kern/syscall.c). */
module Kernel {
  import opened Paging
  import opened PagingInvariant
  import opened PagingOps
  import opened AddressSpaceTeardown
  import opened KernelHalfOfSpaces

  const NENV: nat := 1024
  const UTOP: nat := 0xeec00000
  const PGSIZE: nat := 4096

  const E_BAD_ENV: int := 2
  const E_INVAL: int := 3
  const E_NO_MEM: int := 4
  const E_NO_FREE_ENV: int := 5
  const E_IPC_NOT_RECV: int := 7
  /** Not an error code: the kernel panicked in pa2page or KADDR. */
  const PANIC: int := -1000

  datatype Status = FREE | DYING | RUNNABLE | RUNNING | NOT_RUNNABLE

  /** The trap frame: eax, the other general registers, and what env_alloc sets. The segment
      registers are the user's in every frame. */
  datatype Trapframe = Trapframe(eax: int, regs: seq<int>, eip: int, eflags: int, esp: int)

  const FL_IF: int := 0x200
  const USTACKTOP: int := UTOP - 2 * PGSIZE
  /** A cleared frame with interrupts on and the user stack empty */
  const USER_FRAME := Trapframe(0, [0, 0, 0, 0, 0, 0], 0, FL_IF, USTACKTOP)

  datatype Env = Env(
    id: int,
    parent: int,
    status: Status,
    recving: bool,
    dstva: nat,
    value: nat,
    from: int,
    perm: Perm,
    tf: Trapframe,
    upcall: nat,
    runs: nat)

  datatype Kernel = Kernel(mem: Mem, envs: seq<Env>, efree: seq<nat>)

  // ----- addresses -----

  function PDX(va: nat): nat { va / 0x400000 % 0x400 }
  function PTX(va: nat): nat { va / 0x1000 % 0x400 }
  function PGOFF(va: nat): nat { va % PGSIZE }

  // ----- environment table -----

  function ENVX(envid: int): nat { envid % NENV }

  /** envid2env; `cur` is the slot of curenv */
  function Envid2Env(k: Kernel, cur: nat, envid: int, checkperm: bool): (r: Option<nat>)
    requires |k.envs| == NENV && cur < NENV
    ensures r.Some? ==> r.value < NENV
  {
    if envid == 0 then Some(cur)
    else
      var e := ENVX(envid);
      if k.envs[e].status == FREE || k.envs[e].id != envid then None
      else if checkperm && e != cur && k.envs[e].parent != k.envs[cur].id then None
      else Some(e)
  }

  /** The next id for a slot, with int32_t wrap-around in the addition. */
  function NextId(id: int, slot: nat): int {
    var sum := id + 0x1000;
    var wrapped := if sum >= 0x80000000 then sum - 0x1_0000_0000 else sum;
    var generation := wrapped - wrapped % NENV;
    (if generation <= 0 then 0x1000 else generation) + slot
  }

  /** The slot's fields after env_alloc. The receive flag, dstva and the last message stay. */
  function NewEnv(env: Env, e: nat, parent: int): Env {
    env.(id := NextId(env.id, e), parent := parent, status := RUNNABLE, runs := 0, tf := USER_FRAME, upcall := 0)
  }

  /** env_alloc: a slot, or an error code */
  function EnvAlloc(k: Kernel, parent: int): (r: (int, Kernel))
    requires Dims(k.mem) && k.mem.kdir < |k.mem.frame| && |k.envs| == NENV
    requires forall i :: 0 <= i < |k.efree| ==> k.efree[i] < NENV
    ensures |r.1.envs| == NENV && (r.0 >= 0 ==> r.0 < NENV)
  {
    if k.efree == [] then (-E_NO_FREE_ENV, k)
    else
      var e := k.efree[0];
      var (ok, m) := EnvSetupVm(k.mem, e);
      if !ok then (-E_NO_MEM, k.(mem := m))
      else
        (e, Kernel(m, k.envs[e := NewEnv(k.envs[e], e, parent)], k.efree[1..]))
  }

  /** What holds whenever no system call is in progress. */
  ghost predicate Ok(k: Kernel) {
    && Inv(k.mem) && SharedAboveUtop(k.mem)
    && |k.envs| == NENV
    && (forall e: nat :: e in k.mem.dirs <==> e < NENV && k.envs[e].status != FREE)
    && NoDup(k.efree)
    && (forall e: nat :: e in k.efree <==> e < NENV && k.envs[e].status == FREE)
    && (forall e: nat :: e < NENV ==> 0 <= k.envs[e].id < 0x80000000 && k.envs[e].dstva <= UTOP)
    && (forall e: nat :: e < NENV && k.envs[e].status != FREE ==> k.envs[e].id > 0 && k.envs[e].id % NENV == e)
  }

  // ----- system calls -----

  function SysExofork(k: Kernel, cur: nat): (r: (int, Kernel))
    requires Ok(k) && cur < NENV
  {
    assert forall i :: 0 <= i < |k.efree| ==> k.efree[i] in k.efree;
    var (e, k1) := EnvAlloc(k, k.envs[cur].id);
    if e < 0 then (e, k1)
    else (k1.envs[e].id, k1.(envs := k1.envs[e := k1.envs[e].(status := NOT_RUNNABLE, tf := k1.envs[cur].tf.(eax := 0))]))
  }

  function SysEnvSetStatus(k: Kernel, cur: nat, envid: int, status: Status): (r: (int, Kernel))
    requires Ok(k) && cur < NENV
  {
    if status != NOT_RUNNABLE && status != RUNNABLE then (-E_INVAL, k)
    else match Envid2Env(k, cur, envid, true)
      case None => (-E_BAD_ENV, k)
      case Some(e) => (0, k.(envs := k.envs[e := k.envs[e].(status := status)]))
  }

  /** The permission word has P and U, and nothing outside PTE_SYSCALL. */
  predicate PermOk(perm: Perm) {
    perm.p && perm.u && perm.other == {}
  }

  predicate VaOk(va: nat) {
    va < UTOP && PGOFF(va) == 0
  }

  lemma UserIndex(va: nat)
    requires va < UTOP
    ensures PDX(va) < UTOPX && PTX(va) < NPTENTRIES
  {
  }

  /** The two memory steps of sys_page_alloc. When page_insert fails the page is
      not given back: it is lost. */
  function AllocAndMap(m: Mem, e: nat, d: nat, t: nat, perm: Perm): (r: (bool, Mem))
    requires Inv(m) && e in m.dirs && d < UTOPX && t < NPTENTRIES && m.free != []
  {
    var (o, m1) := PageAlloc(m);
    var pp := o.value;
    AllocKeeps(m);
    RangeOk(Transit(m1, pp), e, d, t);
    var (ok, m2) := PageInsert(m1, m1.dirs[e], pp, d, t, perm);
    (ok, if ok then m2 else Transit(m2, pp))
  }

  /** sys_page_alloc */
  function SysPageAlloc(k: Kernel, cur: nat, envid: int, va: nat, perm: Perm): (r: (int, Kernel))
    requires Ok(k) && cur < NENV && k.envs[cur].status != FREE
  {
    match Envid2Env(k, cur, envid, true)
    case None => (-E_BAD_ENV, k)
    case Some(e) =>
      if !VaOk(va) then (-E_INVAL, k)
      else if !PermOk(perm) then (-E_INVAL, k)
      else if k.mem.free == [] then (-E_NO_MEM, k)
      else
        UserIndex(va);
        var (ok, m) := AllocAndMap(k.mem, e, PDX(va), PTX(va), perm);
        (if ok then 0 else -E_NO_MEM, k.(mem := m))
  }

  function SysPageMap(k: Kernel, cur: nat, srcid: int, srcva: nat, dstid: int, dstva: nat, perm: Perm): (r: (int, Kernel))
    requires Ok(k) && cur < NENV && k.envs[cur].status != FREE
  {
    match (Envid2Env(k, cur, srcid, true), Envid2Env(k, cur, dstid, true))
    case (Some(src), Some(dst)) =>
      if !VaOk(srcva) || !VaOk(dstva) then (-E_INVAL, k)
      else
        UserIndex(srcva);
        UserIndex(dstva);
        RangeOk(k.mem, src, PDX(srcva), PTX(srcva));
        RangeOk(k.mem, dst, PDX(dstva), PTX(dstva));
        var pp := PageLookup(k.mem, k.mem.dirs[src], PDX(srcva), PTX(srcva));
        if pp == Option.None then (-E_INVAL, k)
        else if perm.w && !PteOf(k.mem, src, PDX(srcva), PTX(srcva)).perm.w then (-E_INVAL, k)
        else if !PermOk(perm) then (-E_INVAL, k)
        else
          assert pp.value < |k.mem.ref|;
          var (ok, m) := PageInsert(k.mem, k.mem.dirs[dst], pp.value, PDX(dstva), PTX(dstva), perm);
          (if ok then 0 else -E_NO_MEM, k.(mem := m))
    case _ => (-E_BAD_ENV, k)
  }

  function SysPageUnmap(k: Kernel, cur: nat, envid: int, va: nat): (r: (int, Kernel))
    requires Ok(k) && cur < NENV && k.envs[cur].status != FREE
  {
    match Envid2Env(k, cur, envid, true)
    case None => (-E_BAD_ENV, k)
    case Some(e) =>
      if !VaOk(va) then (-E_INVAL, k)
      else
        UserIndex(va);
        RangeOk(k.mem, e, PDX(va), PTX(va));
        (0, k.(mem := PageRemove(k.mem, k.mem.dirs[e], PDX(va), PTX(va))))
  }

  /** The environment part of env_free: the slot returns to the head of env_free_list. */
  function ReleaseEnv(k: Kernel, e: nat): (r: Kernel)
    requires Ok(k) && e < NENV && k.envs[e].status != FREE
  {
    DirInRange(k.mem, e);
    Kernel(EnvFree(k.mem, e), k.envs[e := k.envs[e].(status := FREE)], [e] + k.efree)
  }

  /** sys_env_destroy: a victim running on another CPU is only marked. */
  function SysEnvDestroy(k: Kernel, cur: nat, envid: int): (r: (int, Kernel))
    requires Ok(k) && cur < NENV && k.envs[cur].status != FREE
  {
    match Envid2Env(k, cur, envid, true)
    case None => (-E_BAD_ENV, k)
    case Some(e) =>
      if k.envs[e].status == RUNNING && e != cur
      then (0, k.(envs := k.envs[e := k.envs[e].(status := DYING)]))
      else (0, ReleaseEnv(k, e))
  }

  /** sys_ipc_recv */
  function SysIpcRecv(k: Kernel, cur: nat, dstva: nat): (r: (int, Kernel))
    requires Ok(k) && cur < NENV
  {
    if dstva < UTOP && PGOFF(dstva) != 0 then (-E_INVAL, k)
    else
      var va := if dstva >= UTOP then UTOP else dstva;
      (0, k.(envs := k.envs[cur := k.envs[cur].(dstva := va, recving := true, status := NOT_RUNNABLE)]))
  }

  /** The receiver's fields after a successful send */
  function Deliver(env: Env, srcid: int, value: nat): Env {
    env.(recving := false, from := srcid, value := value, tf := env.tf.(eax := 0), status := RUNNABLE)
  }

  lemma DstIndex(k: Kernel, dst: nat)
    requires Ok(k) && dst < NENV && k.envs[dst].status != FREE
    ensures var va := k.envs[dst].dstva; InRange(k.mem, k.mem.dirs[dst], PDX(va), PTX(va))
  {
    var va := k.envs[dst].dstva;
    DirIsPlain(k.mem, dst);
    if va < UTOP {
      UserIndex(va);
      RangeOk(k.mem, dst, PDX(va), PTX(va));
    } else {
      assert PDX(va) == UTOPX && PTX(va) == 0;
      assert At(k.mem, k.mem.dirs[dst], UTOPX) == UpperEntry(k.mem, dst, UTOPX);
    }
  }

  /** sys_ipc_try_send. There is no alignment check on srcva, and a page is inserted at env_ipc_dstva whatever
      that is. The lookup is made at any srcva: above UTOP its result is dropped, but it can panic. */
  function SysIpcTrySend(k: Kernel, cur: nat, envid: int, value: nat, srcva: nat, perm: Perm): (r: (int, Kernel))
    requires Ok(k) && cur < NENV && k.envs[cur].status != FREE
  {
    match Envid2Env(k, cur, envid, false)
    case None => (-E_BAD_ENV, k)
    case Some(dst) =>
      if !k.envs[dst].recving then (-E_IPC_NOT_RECV, k)
      else if srcva >= UTOP then
        if !InRange(k.mem, k.mem.dirs[cur], PDX(srcva), PTX(srcva)) then (PANIC, k)
        else (0, k.(envs := k.envs[dst := Deliver(k.envs[dst], k.envs[cur].id, value)]))
      else if !PermOk(perm) then (-E_INVAL, k)
      else
        UserIndex(srcva);
        RangeOk(k.mem, cur, PDX(srcva), PTX(srcva));
        DstIndex(k, dst);
        var pp := PageLookup(k.mem, k.mem.dirs[cur], PDX(srcva), PTX(srcva));
        if pp == Option.None then (-E_INVAL, k)
        else if perm.w && !PteOf(k.mem, cur, PDX(srcva), PTX(srcva)).perm.w then (-E_INVAL, k)
        else
          var va := k.envs[dst].dstva;
          var (ok, m) := PageInsert(k.mem, k.mem.dirs[dst], pp.value, PDX(va), PTX(va), perm);
          if !ok then (-E_NO_MEM, k.(mem := m))
          else (0, Kernel(m, k.envs[dst := Deliver(k.envs[dst], k.envs[cur].id, value).(perm := perm)], k.efree))
  }
}
