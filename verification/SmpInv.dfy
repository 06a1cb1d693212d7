/** What every step of the multi-CPU machine keeps, and what follows for every run. */
module SmpInvariant {
  import opened Kernel
  import opened Scheduling
  import opened Smp

  /** The CPU has taken the lock's word and not yet given it back. */
  predicate Inside(pc: Pc) {
    pc.Got? || pc.Work? || pc.Release? || pc.Cleared? || pc.Monitor?
  }

  /** lk->cpu names the CPU. */
  predicate Named(pc: Pc) {
    pc.Work? || pc.Release? || pc.Monitor?
  }

  /** The CPU may have changed its own environment's status and not yet switched. */
  predicate Loose(pc: Pc) {
    pc.Monitor? || (pc.Work? && (pc.task.Return? || pc.task.Yield? || pc.task.Run? || pc.task.Halt?))
  }

  predicate Occupied(status: Status) { status == RUNNING || status == DYING }

  predicate EnvOk(s: State, cpu: Cpu)
    requires |s.envs| == NENV
  {
    cpu.env == NONE || (0 <= cpu.env < NENV && var st := s.envs[cpu.env].status;
      if Loose(cpu.pc) then st != FREE && st != DYING else Occupied(st))
  }

  /** CPUs other than c from i on have not been started. */
  ghost predicate NotStarted(s: State, c: nat, i: nat) {
    forall d: nat :: i <= d < |s.cpus| && d != c ==> s.cpus[d].pc == Off
  }

  ghost predicate TaskOk(s: State, c: nat, cpu: Cpu, task: Task)
    requires |s.envs| == NENV
  {
    match task
    case Resume(user) => !user && cpu.env == NONE
    case Enter => cpu.env >= 0
    case Dispatch(user) => if user then 0 <= cpu.env < NENV && s.envs[cpu.env].status == RUNNING else cpu.env == NONE
    case Return => true
    case Yield => true
    case Run(e) => e < NENV && (s.envs[e].status == RUNNABLE || (cpu.env == e && s.envs[e].status == RUNNING))
    case Halt => 0 <= cpu.env < NENV ==> s.envs[cpu.env].status != RUNNING
    case BootAps(i) => c == s.boot && cpu.env == NONE && NotStarted(s, c, i)
    case WaitAp(i) => c == s.boot && cpu.env == NONE && i != c && NotStarted(s, c, i + 1) && s.mpentry == i
    case Create => c == s.boot && cpu.env == NONE
  }

  ghost predicate PcOk(s: State, c: nat, cpu: Cpu)
    requires |s.envs| == NENV && s.boot < |s.cpus|
  {
    match cpu.pc
    case Off => cpu.env == NONE && cpu.status == UNUSED && c != s.boot
    case ApStart => cpu.env == NONE && cpu.status == UNUSED && s.cpus[s.boot].pc == Work(WaitAp(c)) && s.mpentry == c
    case ApSetup => cpu.env == NONE && cpu.status == UNUSED && s.cpus[s.boot].pc == Work(WaitAp(c))
    case User => cpu.env >= 0 && cpu.status == STARTED
    case Idle => cpu.env == NONE && cpu.status == HALTED
    case Trapped(user) => if user then cpu.env >= 0 && cpu.status == STARTED else cpu.env == NONE && cpu.status == HALTED
    case Want(task) => cpu.status == STARTED && BeforeLock(cpu, task) && TaskOk(s, c, cpu, task)
    case Spin(task) => cpu.status == STARTED && BeforeLock(cpu, task) && TaskOk(s, c, cpu, task)
    case Got(task) => cpu.status == STARTED && BeforeLock(cpu, task) && TaskOk(s, c, cpu, task)
    case Work(task) => cpu.status == STARTED && TaskOk(s, c, cpu, task)
    case Release(to) => AfterLock(cpu, to)
    case Cleared(to) => AfterLock(cpu, to)
    case Monitor => cpu.status == STARTED
    case Panicked => false
  }

  /** The tasks a CPU takes the lock for */
  predicate BeforeLock(cpu: Cpu, task: Task) {
    task.Resume? || task.Enter? || task.BootAps? || (task.Yield? && cpu.env == NONE)
  }

  predicate AfterLock(cpu: Cpu, to: Pc) {
    (to == User && cpu.env >= 0 && cpu.status == STARTED) || (to == Idle && cpu.env == NONE && cpu.status == HALTED)
  }

  ghost predicate CpuOk(s: State, c: nat) {
    c < |s.cpus| && |s.envs| == NENV && s.boot < |s.cpus| ==>
      var cpu := s.cpus[c];
      && (Inside(cpu.pc) ==> s.locked)
      && (s.owner == c <==> Named(cpu.pc))
      && EnvOk(s, cpu) && PcOk(s, c, cpu)
      && (cpu.pc != Off && cpu.pc != ApStart ==> cpu.stack == c)
  }

  predicate PairOk(s: State, c: nat, d: nat) {
    c < |s.cpus| && d < |s.cpus| && c != d ==>
      && !(Inside(s.cpus[c].pc) && Inside(s.cpus[d].pc))
      && (s.cpus[c].env >= 0 ==> s.cpus[d].env != s.cpus[c].env)
  }

  /** Some CPU's current environment is e. */
  ghost predicate Owned(s: State, e: nat) {
    exists c: nat :: c < |s.cpus| && s.cpus[c].env == e
  }

  ghost predicate SlotOk(s: State, e: nat) {
    e < |s.envs| && Occupied(s.envs[e].status) ==> Owned(s, e)
  }

  ghost predicate Inv(s: State) {
    && Shape(s) && -1 <= s.owner < |s.cpus|
    && (forall c: nat :: CpuOk(s, c))
    && (forall c: nat, d: nat :: PairOk(s, c, d))
    && (forall e: nat :: SlotOk(s, e))
  }

  /** No status is changed under another CPU: a forced status or a delivered message is not
      aimed at its environment, and a dying one is not destroyed again. */
  ghost predicate Guarded(s: State, c: nat, op: Op) {
    c < |s.cpus| && s.cpus[c].pc.Work? && s.cpus[c].pc.task.Dispatch? ==>
      match op
      case SetStatus(e, _) => OnlyHere(s, c, e)
      case Send(e) => OnlyHere(s, c, e)
      case Destroy(e) => e < |s.envs| && s.envs[e].status == DYING ==> OnlyHere(s, c, e)
      case _ => true
  }

  ghost predicate OnlyHere(s: State, c: nat, e: nat) {
    forall d: nat :: d < |s.cpus| && d != c ==> s.cpus[d].env != e
  }

  ghost predicate Can(s: State, c: nat, op: Op, r: int) {
    && Shape(s) && Enabled(s, c, op, r)
    && (s.cpus[c].pc == Work(Yield) ==> FirstRunnable(Statuses(s), s.cpus[c].env, r))
  }

  // ----- steps -----

  /** What a step of CPU c must respect so that the other CPUs stay in order */
  ghost predicate Respects(s: State, s': State, c: nat, cpu: Cpu) {
    && c < |s.cpus| && s'.cpus == s.cpus[c := cpu] && s'.boot == s.boot && s'.mpentry == s.mpentry
    && |s.envs| == NENV && |s'.envs| == NENV && s.boot < |s.cpus|
    && (s.locked ==> s'.locked || Inside(s.cpus[c].pc)) && (s.owner == c || s'.owner == s.owner || (s'.owner == c && s.owner == NONE))
    && (s.owner == c ==> s'.owner == c || s'.owner == NONE)
    && (Inside(s.cpus[c].pc) ==> forall d: nat :: d < |s.cpus| && d != c ==> !Inside(s.cpus[d].pc))
    && (s.cpus[c].pc.Work? && s.cpus[c].pc.task.WaitAp? ==>
          forall d: nat :: d < |s.cpus| && d != c ==> s.cpus[d].pc != ApStart && s.cpus[d].pc != ApSetup)
    && s.cpus[c].pc != Off
  }

  /** The CPU's environment is as it was, or at least still occupied. */
  predicate EnvKept(s: State, s': State, cpu: Cpu)
    requires |s.envs| == NENV && |s'.envs| == NENV
  {
    s'.envs == s.envs || (!Inside(cpu.pc) && (0 <= cpu.env < NENV ==> Occupied(s'.envs[cpu.env].status)))
  }

  lemma OtherCpu(s: State, s': State, c: nat, cpu: Cpu, d: nat)
    requires Respects(s, s', c, cpu) && d != c && d < |s.cpus| && CpuOk(s, d)
    requires EnvKept(s, s', s.cpus[d])
    ensures CpuOk(s', d)
  {
    assert s'.cpus[d] == s.cpus[d];
    match s.cpus[d].pc
    case Want(task) => OtherTask(s, s', c, cpu, d, task);
    case Spin(task) => OtherTask(s, s', c, cpu, d, task);
    case Got(task) => OtherTask(s, s', c, cpu, d, task);
    case Work(task) => OtherTask(s, s', c, cpu, d, task);
    case _ =>
  }

  lemma OtherTask(s: State, s': State, c: nat, cpu: Cpu, d: nat, task: Task)
    requires Respects(s, s', c, cpu) && d != c && d < |s.cpus|
    requires TaskOk(s, d, s.cpus[d], task) && (s'.envs == s.envs || BeforeLock(s.cpus[d], task))
    ensures TaskOk(s', d, s.cpus[d], task)
  {
  }

  /** c's new environment is nobody else's, and it lets go of no occupied slot. */
  ghost predicate TakesFairly(s: State, s': State, c: nat, cpu: Cpu)
    requires Respects(s, s', c, cpu)
  {
    && (Inside(cpu.pc) ==> forall d: nat :: d < |s.cpus| && d != c ==> !Inside(s.cpus[d].pc))
    && (cpu.env >= 0 ==> OnlyHere(s, c, cpu.env))
    && (forall e: nat :: e < NENV && Occupied(s'.envs[e].status) && cpu.env != e ==> Occupied(s.envs[e].status) && s.cpus[c].env != e)
  }

  lemma Assemble(s: State, s': State, c: nat, cpu: Cpu)
    requires Inv(s) && Respects(s, s', c, cpu) && TakesFairly(s, s', c, cpu) && CpuOk(s', c)
    requires -1 <= cpu.env < NENV && -1 <= s'.owner < |s.cpus|
    requires forall d: nat :: d < |s.cpus| && d != c ==> EnvKept(s, s', s.cpus[d])
    ensures Inv(s')
  {
    forall d: nat ensures CpuOk(s', d) { assert CpuOk(s, d); if d != c && d < |s.cpus| { OtherCpu(s, s', c, cpu, d); } }
    forall a: nat, b: nat ensures PairOk(s', a, b) { assert PairOk(s, a, b); }
    forall e: nat ensures SlotOk(s', e) {
      assert SlotOk(s, e);
      if e < NENV && Occupied(s'.envs[e].status) {
        if cpu.env == e { assert s'.cpus[c].env == e; }
        else {
          var d: nat :| d < |s.cpus| && s.cpus[d].env == e;
          assert s'.cpus[d].env == e;
        }
      }
    }
  }

  /** What Inv says of CPU c and the others, spelled out for Assemble */
  lemma Facts(s: State, c: nat)
    requires Inv(s) && c < |s.cpus|
    ensures CpuOk(s, c)
    ensures Inside(s.cpus[c].pc) ==> forall d: nat :: d < |s.cpus| && d != c ==> !Inside(s.cpus[d].pc)
    ensures s.cpus[c].env >= 0 ==> OnlyHere(s, c, s.cpus[c].env)
    ensures !s.locked ==> forall d: nat :: d < |s.cpus| ==> !Inside(s.cpus[d].pc)
    ensures Inside(s.cpus[c].pc) ==> s.owner == NONE || s.owner == c
  {
    if s.owner >= 0 && s.owner != c {
      var d: nat := s.owner;
      assert CpuOk(s, d) && PairOk(s, c, d);
    }
    forall d: nat | d < |s.cpus| && d != c
      ensures Inside(s.cpus[c].pc) ==> !Inside(s.cpus[d].pc)
      ensures s.cpus[c].env >= 0 ==> s.cpus[d].env != s.cpus[c].env
      ensures !s.locked ==> !Inside(s.cpus[d].pc)
    {
      assert PairOk(s, c, d) && CpuOk(s, d);
    }
  }

  /** Steps outside the kernel */
  lemma OutsideKeeps(s: State, c: nat, op: Op, r: int)
    requires Inv(s) && Can(s, c, op, r)
    requires var pc := s.cpus[c].pc; pc.ApStart? || pc.ApSetup? || pc.User? || pc.Idle? || pc.Trapped?
    ensures Inv(Next(s, c, op, r))
  {
    Facts(s, c);
    var s' := Next(s, c, op, r);
    if s.cpus[c].pc == ApSetup { assert CpuOk(s, s.boot); }
    Assemble(s, s', c, s'.cpus[c]);
  }

  /** Taking and releasing the lock: neither panic is reached. */
  lemma LockKeeps(s: State, c: nat, op: Op, r: int)
    requires Inv(s) && Can(s, c, op, r)
    requires var pc := s.cpus[c].pc; pc.Want? || pc.Spin? || pc.Got? || pc.Release? || pc.Cleared?
    ensures Inv(Next(s, c, op, r))
  {
    if s.cpus[c].pc.Release? || s.cpus[c].pc.Cleared? { ReleaseKeeps(s, c, op, r); } else { AcquireKeeps(s, c, op, r); }
  }

  lemma AcquireKeeps(s: State, c: nat, op: Op, r: int)
    requires Inv(s) && Can(s, c, op, r)
    requires var pc := s.cpus[c].pc; pc.Want? || pc.Spin? || pc.Got?
    ensures Inv(Next(s, c, op, r))
  {
    Facts(s, c);
    var s' := Next(s, c, op, r);
    if s' != s { Assemble(s, s', c, s'.cpus[c]); }
  }

  lemma ReleaseKeeps(s: State, c: nat, op: Op, r: int)
    requires Inv(s) && Can(s, c, op, r)
    requires var pc := s.cpus[c].pc; pc.Release? || pc.Cleared?
    ensures Inv(Next(s, c, op, r))
  {
    Facts(s, c);
    var s' := Next(s, c, op, r);
    if s' != s { Assemble(s, s', c, s'.cpus[c]); }
  }

  /** Kernel steps that change no status */
  lemma PassKeeps(s: State, c: nat, op: Op, r: int)
    requires Inv(s) && Can(s, c, op, r) && s.cpus[c].pc.Work?
    requires var t := s.cpus[c].pc.task; t.Resume? || t.Return? || t.Yield? || t.Halt?
    ensures Inv(Next(s, c, op, r))
  {
    Facts(s, c);
    var s' := Next(s, c, op, r);
    assert Statuses(s)[..] == Statuses(s);
    Assemble(s, s', c, s'.cpus[c]);
  }

  lemma EnterKeeps(s: State, c: nat, op: Op, r: int)
    requires Inv(s) && Can(s, c, op, r) && s.cpus[c].pc == Work(Enter)
    ensures Inv(Next(s, c, op, r))
  {
    Facts(s, c);
    var s' := Next(s, c, op, r);
    forall d: nat | d < |s.cpus| && d != c ensures EnvKept(s, s', s.cpus[d]) { assert CpuOk(s, d) && PairOk(s, c, d); }
    Assemble(s, s', c, s'.cpus[c]);
  }

  lemma RunKeeps(s: State, c: nat, op: Op, r: int)
    requires Inv(s) && Can(s, c, op, r) && s.cpus[c].pc.Work? && s.cpus[c].pc.task.Run?
    ensures Inv(Next(s, c, op, r))
  {
    Facts(s, c);
    var s' := Next(s, c, op, r);
    forall d: nat | d < |s.cpus| && d != c
      ensures EnvKept(s, s', s.cpus[d]) && s.cpus[d].env != s.cpus[c].pc.task.e
    {
      assert CpuOk(s, d) && PairOk(s, c, d);
    }
    Assemble(s, s', c, s'.cpus[c]);
  }

  // ----- start-up -----

  lemma CreateKeeps(s: State, c: nat, op: Op, r: int)
    requires Inv(s) && Can(s, c, op, r) && s.cpus[c].pc == Work(Create)
    ensures Inv(Next(s, c, op, r))
  {
    Facts(s, c);
    var s' := Next(s, c, op, r);
    forall d: nat | d < |s.cpus| && d != c ensures EnvKept(s, s', s.cpus[d]) { assert CpuOk(s, d) && PairOk(s, c, d); }
    Assemble(s, s', c, s'.cpus[c]);
  }

  /** boot_aps goes on only when the CPU it started has read its stack pointer. */
  lemma WaitKeeps(s: State, c: nat, op: Op, r: int)
    requires Inv(s) && Can(s, c, op, r) && s.cpus[c].pc.Work? && s.cpus[c].pc.task.WaitAp?
    ensures Inv(Next(s, c, op, r))
  {
    Facts(s, c);
    var s' := Next(s, c, op, r);
    if s' != s {
      forall d: nat | d < |s.cpus| && d != c ensures s.cpus[d].pc != ApStart && s.cpus[d].pc != ApSetup { assert CpuOk(s, d); }
      Assemble(s, s', c, s'.cpus[c]);
    }
  }

  lemma BootKeeps(s: State, c: nat, op: Op, r: int)
    requires Inv(s) && Can(s, c, op, r) && s.cpus[c].pc.Work? && s.cpus[c].pc.task.BootAps?
    ensures Inv(Next(s, c, op, r))
  {
    Facts(s, c);
    var i := s.cpus[c].pc.task.i;
    var s' := Next(s, c, op, r);
    if i >= |s.cpus| || i == c { Assemble(s, s', c, s'.cpus[c]); }
    else { StartApKeeps(s, c, i); }
  }

  lemma StartApKeeps(s: State, c: nat, i: nat)
    requires Inv(s) && c < |s.cpus| && s.cpus[c].pc == Work(BootAps(i)) && i < |s.cpus| && i != c
    ensures Inv(WorkStep(s, c, BootAps(i), Nothing, NONE))
  {
    Facts(s, c);
    var s' := WorkStep(s, c, BootAps(i), Nothing, NONE);
    assert CpuOk(s, i);
    forall d: nat ensures CpuOk(s', d) { assert CpuOk(s, d); StartedApOthers(s, c, i, d); }
    forall a: nat, b: nat ensures PairOk(s', a, b) { assert PairOk(s, a, b); }
    forall e: nat ensures SlotOk(s', e) {
      assert SlotOk(s, e);
      if e < NENV && Occupied(s.envs[e].status) {
        var d: nat :| d < |s.cpus| && s.cpus[d].env == e;
        assert s'.cpus[d].env == e;
      }
    }
  }

  lemma StartedApOthers(s: State, c: nat, i: nat, d: nat)
    requires Inv(s) && c < |s.cpus| && s.cpus[c].pc == Work(BootAps(i)) && i < |s.cpus| && i != c
    ensures CpuOk(WorkStep(s, c, BootAps(i), Nothing, NONE), d)
  {
    assert CpuOk(s, c) && CpuOk(s, d) && CpuOk(s, i) && PairOk(s, c, d);
  }

  // ----- trap_dispatch -----

  /** A dispatch keeps the invariant if and only if it changes no status under another CPU. */
  lemma DispatchKeeps(s: State, c: nat, op: Op, r: int)
    requires Inv(s) && Can(s, c, op, r) && s.cpus[c].pc.Work? && s.cpus[c].pc.task.Dispatch?
    ensures Inv(Next(s, c, op, r)) <==> Guarded(s, c, op)
  {
    if Guarded(s, c, op) { DispatchSafe(s, c, op, r); } else { DispatchUnsafe(s, c, op, r); }
  }

  lemma DispatchSafe(s: State, c: nat, op: Op, r: int)
    requires Inv(s) && Can(s, c, op, r) && s.cpus[c].pc.Work? && s.cpus[c].pc.task.Dispatch? && Guarded(s, c, op)
    ensures Inv(Next(s, c, op, r))
  {
    var s' := Next(s, c, op, r);
    DispatchOwn(s, c, op, r);
    forall d: nat | d < |s.cpus| && d != c ensures EnvKept(s, s', s.cpus[d]) { DispatchOthers(s, c, op, r, d); }
    Assemble(s, s', c, s'.cpus[c]);
  }

  lemma DispatchOwn(s: State, c: nat, op: Op, r: int)
    requires Inv(s) && Can(s, c, op, r) && s.cpus[c].pc.Work? && s.cpus[c].pc.task.Dispatch? && Guarded(s, c, op)
    ensures var s' := Next(s, c, op, r);
            && c < |s'.cpus| && var cpu := s'.cpus[c];
               Respects(s, s', c, cpu) && TakesFairly(s, s', c, cpu) && CpuOk(s', c) && -1 <= cpu.env < NENV && -1 <= s'.owner < |s.cpus|
  {
    Facts(s, c);
  }

  lemma DispatchOthers(s: State, c: nat, op: Op, r: int, d: nat)
    requires Inv(s) && Can(s, c, op, r) && s.cpus[c].pc.Work? && s.cpus[c].pc.task.Dispatch? && Guarded(s, c, op)
    requires d < |s.cpus| && d != c
    ensures EnvKept(s, Next(s, c, op, r), s.cpus[d])
  {
    assert CpuOk(s, c) && CpuOk(s, d) && PairOk(s, c, d);
  }

  lemma DispatchUnsafe(s: State, c: nat, op: Op, r: int)
    requires Inv(s) && Can(s, c, op, r) && s.cpus[c].pc.Work? && s.cpus[c].pc.task.Dispatch? && !Guarded(s, c, op)
    ensures !Inv(Next(s, c, op, r))
  {
    var e := op.e;
    var d: nat :| d < |s.cpus| && d != c && s.cpus[d].env == e;
    assert CpuOk(s, d) && PairOk(s, c, d) && CpuOk(s, c);
    assert !CpuOk(Next(s, c, op, r), d);
  }

  /** A step keeps the invariant if and only if it is guarded. */
  lemma StepKeeps(s: State, c: nat, op: Op, r: int)
    requires Inv(s) && Can(s, c, op, r)
    ensures Inv(Next(s, c, op, r)) <==> Guarded(s, c, op)
  {
    assert CpuOk(s, c);
    match s.cpus[c].pc
    case Work(task) =>
      match task {
        case Enter => EnterKeeps(s, c, op, r);
        case Run(_) => RunKeeps(s, c, op, r);
        case Dispatch(_) => DispatchKeeps(s, c, op, r);
        case BootAps(_) => BootKeeps(s, c, op, r);
        case WaitAp(_) => WaitKeeps(s, c, op, r);
        case Create => CreateKeeps(s, c, op, r);
        case _ => PassKeeps(s, c, op, r);
      }
    case Off =>
    case Monitor =>
    case Panicked => assert false;
    case ApStart => OutsideKeeps(s, c, op, r);
    case ApSetup => OutsideKeeps(s, c, op, r);
    case User => OutsideKeeps(s, c, op, r);
    case Idle => OutsideKeeps(s, c, op, r);
    case Trapped(_) => OutsideKeeps(s, c, op, r);
    case _ => LockKeeps(s, c, op, r);
  }

  // ----- runs -----

  datatype Move = Move(c: nat, op: Op, r: int)

  /** When the machine is switched on: the boot CPU is about to take the lock in i386_init. */
  ghost predicate Initial(s: State) {
    && Shape(s) && !s.locked && s.owner == NONE
    && (forall e: nat :: e < NENV ==> s.envs[e].status == FREE)
    && (forall c: nat :: c < |s.cpus| ==>
          s.cpus[c] == if c == s.boot then Cpu(Want(BootAps(0)), STARTED, NONE, c) else Cpu(Off, UNUSED, NONE, s.cpus[c].stack))
  }

  ghost predicate Run(s: State, moves: seq<Move>, s': State)
    decreases |moves|
  {
    if moves == [] then s' == s
    else
      var n := moves[0];
      Can(s, n.c, n.op, n.r) && Guarded(s, n.c, n.op) && Run(Next(s, n.c, n.op, n.r), moves[1..], s')
  }

  lemma InitialOk(s: State)
    requires Initial(s)
    ensures Inv(s)
  {
    forall c: nat ensures CpuOk(s, c) {}
    forall c: nat, d: nat ensures PairOk(s, c, d) {}
  }

  lemma {:induction false} RunsKeepInv(s: State, moves: seq<Move>, s': State)
    requires Inv(s) && Run(s, moves, s')
    ensures Inv(s')
    decreases |moves|
  {
    if moves != [] {
      var n := moves[0];
      StepKeeps(s, n.c, n.op, n.r);
      RunsKeepInv(Next(s, n.c, n.op, n.r), moves[1..], s');
    }
  }

  /** In every state of every run from power-on: no environment is current on two CPUs;
      a CPU in user mode has a current environment, which is running or dying; halted CPUs have none;
      no lock check has panicked; at most one CPU is in the kernel. */
  lemma NoEnvironmentRunsTwice(s: State, moves: seq<Move>, s': State, c: nat, d: nat)
    requires Initial(s) && Run(s, moves, s') && c < |s'.cpus| && d < |s'.cpus| && c != d
    ensures s'.cpus[c].env >= 0 ==> s'.cpus[c].env != s'.cpus[d].env
    ensures s'.cpus[c].pc == User ==> 0 <= s'.cpus[c].env < |s'.envs| && Occupied(s'.envs[s'.cpus[c].env].status)
    ensures s'.cpus[c].status == HALTED ==> s'.cpus[c].env == NONE
    ensures s'.cpus[c].pc != Panicked
    ensures !(Inside(s'.cpus[c].pc) && Inside(s'.cpus[d].pc))
    ensures s'.cpus[c].pc != Off && s'.cpus[c].pc != ApStart ==> s'.cpus[c].stack == c
  {
    InitialOk(s);
    RunsKeepInv(s, moves, s');
    assert CpuOk(s', c) && PairOk(s', c, d);
  }

  /** Whenever the lock is free, the occupied environments are exactly the CPUs' current ones. */
  lemma OccupiedIffCurrent(s: State, moves: seq<Move>, s': State, e: nat)
    requires Initial(s) && Run(s, moves, s') && !s'.locked && e < |s'.envs|
    ensures Occupied(s'.envs[e].status) <==> Owned(s', e)
  {
    InitialOk(s);
    RunsKeepInv(s, moves, s');
    assert SlotOk(s', e);
    if Owned(s', e) {
      var c: nat :| c < |s'.cpus| && s'.cpus[c].env == e;
      assert CpuOk(s', c);
    }
  }
}
