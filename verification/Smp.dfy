/** Several CPUs under the big kernel lock: trap entry and return, the scheduler, halting,
    environment status changes and start-up, as atomic steps with one program counter per CPU
    (kern/trap.c:295-352, kern/sched.c, kern/spinlock.c, kern/env.c:500-587, kern/init.c:22-143). */
module Smp {
  import opened Kernel
  import opened Scheduling

  /** An environment slot; what the CPUs share of it */
  datatype Slot = Slot(status: Status, recving: bool)

  datatype CpuStatus = UNUSED | STARTED | HALTED

  /** What a CPU does once it has the lock, or returns to when it has released it */
  datatype Task =
    | Resume(user: bool)      // trap, just after the lock taken for a halted CPU
    | Enter                   // trap from user mode: a dying environment is freed
    | Dispatch(user: bool)    // trap_dispatch
    | Return                  // the end of trap
    | Yield                   // sched_yield
    | Run(e: nat)             // env_run
    | Halt                    // sched_halt
    | BootAps(i: nat)         // boot_aps looks at CPU i
    | WaitAp(i: nat)          // boot_aps waits for CPU i
    | Create                  // i386_init creates environments

  datatype Pc =
    | Off
    | ApStart                 // reads mpentry_kstack
    | ApSetup                 // mp_main, before it reports that it is up
    | User
    | Idle                    // the hlt loop
    | Trapped(user: bool)     // trap, before its first exchange
    | Want(task: Task)        // spin_lock, at the holding check
    | Spin(task: Task)        // spin_lock, at the exchange
    | Got(task: Task)         // the lock is taken, lk->cpu not yet set
    | Work(task: Task)        // in the kernel
    | Release(to: Pc)         // spin_unlock, at the holding check
    | Cleared(to: Pc)         // lk->cpu cleared, the exchange to come
    | Monitor                 // nothing left to run: the kernel monitor, lock held
    | Panicked

  datatype Cpu = Cpu(pc: Pc, status: CpuStatus, env: int, stack: int)

  datatype State = State(
    cpus: seq<Cpu>, boot: nat, mpentry: int,
    locked: bool, owner: int,
    envs: seq<Slot>)

  const NONE: int := -1

  /** What a trap asks for. The targets are what envid2env found. */
  datatype Op =
    | Nothing
    | Reschedule
    | SetStatus(e: nat, status: Status)
    | Exofork(e: nat)
    | Destroy(e: nat)
    | Recv
    | Send(e: nat)

  function Statuses(s: State): seq<Status> {
    seq(|s.envs|, i requires 0 <= i < |s.envs| => s.envs[i].status)
  }

  ghost predicate Shape(s: State) {
    |s.envs| == NENV && s.boot < |s.cpus| && forall c :: 0 <= c < |s.cpus| ==> -1 <= s.cpus[c].env < NENV
  }

  function With(s: State, c: nat, cpu: Cpu): State
    requires c < |s.cpus|
  {
    s.(cpus := s.cpus[c := cpu])
  }

  function At(s: State, c: nat, pc: Pc): State
    requires c < |s.cpus|
  {
    With(s, c, s.cpus[c].(pc := pc))
  }

  function SetSlot(s: State, e: nat, status: Status): State
    requires e < |s.envs|
  {
    s.(envs := s.envs[e := s.envs[e].(status := status)])
  }

  // ----- trap_dispatch -----

  /** The target exists, as envid2env and env_alloc check; kernel-mode traps are interrupts. */
  predicate Allowed(s: State, user: bool, op: Op)
    requires |s.envs| == NENV
  {
    match op
    case Nothing => true
    case Reschedule => true
    case SetStatus(e, st) => user && e < NENV && s.envs[e].status != FREE && (st == RUNNABLE || st == NOT_RUNNABLE)
    case Exofork(e) => user && e < NENV && s.envs[e].status == FREE
    case Destroy(e) => user && e < NENV && s.envs[e].status != FREE
    case Recv => user
    case Send(e) => user && e < NENV && s.envs[e].status != FREE && s.envs[e].recving
  }

  function DispatchStep(s: State, c: nat, op: Op): State
    requires Shape(s) && c < |s.cpus| && (op == Recv ==> s.cpus[c].env >= 0)
    requires Allowed(s, true, op)
  {
    match op
    case Nothing => At(s, c, Work(Return))
    case Reschedule => At(s, c, Work(Yield))
    case SetStatus(e, st) => At(SetSlot(s, e, st), c, Work(Return))
    case Exofork(e) => At(SetSlot(s, e, NOT_RUNNABLE), c, Work(Return))
    case Destroy(e) =>
      if s.envs[e].status == RUNNING && s.cpus[c].env != e then At(SetSlot(s, e, DYING), c, Work(Return))
      else if s.cpus[c].env == e then With(SetSlot(s, e, FREE), c, s.cpus[c].(env := NONE, pc := Work(Yield)))
      else At(SetSlot(s, e, FREE), c, Work(Return))
    case Recv => At(s.(envs := s.envs[s.cpus[c].env := Slot(NOT_RUNNABLE, true)]), c, Work(Yield))
    case Send(e) => At(s.(envs := s.envs[e := Slot(RUNNABLE, false)]), c, Work(Return))
  }

  // ----- the kernel between lock and unlock -----

  /** `op` is what a dispatch is asked; `r` the slot the scheduler's scan finds, or -1. */
  function WorkStep(s: State, c: nat, task: Task, op: Op, r: int): State
    requires Shape(s) && c < |s.cpus|
    requires task.Dispatch? ==> Allowed(s, task.user, op) && (op == Recv ==> s.cpus[c].env >= 0)
    requires task.Yield? ==> FirstRunnable(Statuses(s), s.cpus[c].env, r)
    requires task.Run? ==> task.e < NENV
    requires task == Create && op.Exofork? ==> op.e < NENV
  {
    var cpu := s.cpus[c];
    match task
    case Resume(user) => At(s, c, if user then Want(Enter) else Work(Dispatch(false)))
    case Enter =>
      if cpu.env < 0 then At(s, c, Panicked)
      else if s.envs[cpu.env].status == DYING then
        With(SetSlot(s, cpu.env, FREE), c, cpu.(env := NONE, pc := Work(Yield)))
      else At(s, c, Work(Dispatch(true)))
    case Dispatch(_) => DispatchStep(s, c, op)
    case Return => At(s, c, Work(if cpu.env >= 0 && s.envs[cpu.env].status == RUNNING then Run(cpu.env) else Yield))
    case Yield =>
      if r >= 0 then At(s, c, Work(Run(r)))
      else if cpu.env >= 0 && s.envs[cpu.env].status == RUNNING then At(s, c, Work(Run(cpu.env)))
      else At(s, c, Work(Halt))
    case Run(e) =>
      var s1 := if cpu.env >= 0 && s.envs[cpu.env].status == RUNNING then SetSlot(s, cpu.env, RUNNABLE) else s;
      With(SetSlot(s1, e, RUNNING), c, cpu.(env := e, pc := Release(User)))
    case Halt =>
      if forall e :: 0 <= e < NENV ==> s.envs[e].status == FREE || s.envs[e].status == NOT_RUNNABLE then At(s, c, Monitor)
      else With(s, c, cpu.(env := NONE, status := HALTED, pc := Release(Idle)))
    case BootAps(i) =>
      if i >= |s.cpus| then At(s, c, Work(Create))
      else if i == c then At(s, c, Work(BootAps(i + 1)))
      else At(s.(mpentry := i), i, ApStart).(cpus := At(s, i, ApStart).cpus[c := cpu.(pc := Work(WaitAp(i)))])
    case WaitAp(i) => if i < |s.cpus| && s.cpus[i].status == STARTED then At(s, c, Work(BootAps(i + 1))) else s
    case Create =>
      if op.Exofork? && s.envs[op.e].status == FREE then SetSlot(s, op.e, RUNNABLE) else At(s, c, Work(Yield))
  }

  // ----- one step of CPU c -----

  predicate Enabled(s: State, c: nat, op: Op, r: int)
    requires Shape(s)
  {
    && c < |s.cpus|
    && var pc := s.cpus[c].pc;
       (pc.Work? ==>
          && (pc.task.Dispatch? ==> Allowed(s, pc.task.user, op) && (op == Recv ==> s.cpus[c].env >= 0))
          && (pc.task.Yield? ==> r == -1 || (0 <= r < NENV))
          && (pc.task.Run? ==> pc.task.e < NENV)
          && (pc.task == Create && op.Exofork? ==> op.e < NENV))
  }

  function Next(s: State, c: nat, op: Op, r: int): State
    requires Shape(s) && Enabled(s, c, op, r)
    requires s.cpus[c].pc == Work(Yield) ==> FirstRunnable(Statuses(s), s.cpus[c].env, r)
  {
    var cpu := s.cpus[c];
    match cpu.pc
    case ApStart => With(s, c, cpu.(stack := s.mpentry, pc := ApSetup))
    case ApSetup => With(s, c, cpu.(status := STARTED, pc := Want(Yield)))
    case User => At(s, c, Trapped(true))
    case Idle => At(s, c, Trapped(false))
    case Trapped(user) =>
      With(s, c, cpu.(status := STARTED,
                      pc := if cpu.status == HALTED then Want(Resume(user))
                            else if user then Want(Enter) else Work(Dispatch(false))))
    case Want(task) => At(s, c, if s.locked && s.owner == c then Panicked else Spin(task))
    case Spin(task) => if s.locked then s else At(s.(locked := true), c, Got(task))
    case Got(task) => At(s.(owner := c), c, Work(task))
    case Work(task) => WorkStep(s, c, task, op, r)
    case Release(to) => if s.locked && s.owner == c then At(s.(owner := NONE), c, Cleared(to)) else At(s, c, Panicked)
    case Cleared(to) => At(s.(locked := false), c, to)
    case _ => s
  }
}
