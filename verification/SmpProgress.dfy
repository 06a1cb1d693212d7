/** What the CPUs get done: the kernel is left again, the lock is free when nobody is inside, no environment is
    forgotten, all CPUs are started, and the monitor is entered only when nothing is left to run
    (kern/sched.c:72-108, kern/trap.c:295-352, kern/init.c:79-103). */
module SmpProgress {
  import opened Kernel
  import opened Scheduling
  import opened Smp
  import opened SmpInvariant

  // ----- every step leads on -----

  /** Steps of its own that a CPU needs at most from here out of the kernel */
  function Rank(s: State, pc: Pc): nat {
    match pc
    case Trapped(_) => 15
    case Want(task) => TaskRank(s, task) + 3
    case Spin(task) => TaskRank(s, task) + 2
    case Got(task) => TaskRank(s, task) + 1
    case Work(task) => TaskRank(s, task)
    case Release(_) => 2
    case Cleared(_) => 1
    case ApStart => 9
    case ApSetup => 8
    case _ => 0
  }

  function TaskRank(s: State, task: Task): nat {
    match task
    case Resume(_) => 11
    case Enter => 7
    case Dispatch(_) => 6
    case Return => 5
    case Yield => 4
    case Run(_) => 3
    case Halt => 3
    case BootAps(i) => if i < |s.cpus| then 7 + 2 * (|s.cpus| - i) else 6
    case WaitAp(i) => if i < |s.cpus| then 6 + 2 * (|s.cpus| - i) else 7
    case Create => 5
  }

  /** The lock is taken, or the CPU that is waited for is not up yet. */
  predicate Waits(s: State, pc: Pc) {
    (pc.Spin? && s.locked) || (pc.Work? && pc.task.WaitAp? && !(pc.task.i < |s.cpus| && s.cpus[pc.task.i].status == STARTED))
  }

  /** What StepsLeadOut says of one step */
  predicate LeadsOn(s: State, s': State, c: nat, op: Op)
    requires c < |s.cpus|
  {
    var pc := s.cpus[c].pc;
    && |s'.cpus| == |s.cpus|
    && (pc == User ==> s'.cpus[c].pc == Trapped(true))
    && (pc == Idle ==> s'.cpus[c].pc == Trapped(false))
    && (Waits(s, pc) ==> s' == s)
    && (pc.Work? && s'.cpus[c].pc == Monitor ==> pc.task.Halt?)
    && (Rank(s, pc) > 0 && !Waits(s, pc) ==> Rank(s', s'.cpus[c].pc) < Rank(s, pc) || Creates(s, s', pc, op))
  }

  predicate Creates(s: State, s': State, pc: Pc, op: Op) {
    pc == Work(Create) && op.Exofork? && op.e < |s.envs| == |s'.envs| && s.envs[op.e].status == FREE && s'.envs[op.e].status == RUNNABLE
  }

  lemma OutsideLeadsOn(s: State, c: nat, op: Op, r: int)
    requires Can(s, c, op, r) && CpuOk(s, c) && s.boot < |s.cpus| && !s.cpus[c].pc.Work?
    ensures LeadsOn(s, Next(s, c, op, r), c, op)
  {
  }

  lemma DispatchLeadsOn(s: State, c: nat, op: Op, r: int)
    requires Can(s, c, op, r) && s.cpus[c].pc.Work? && s.cpus[c].pc.task.Dispatch?
    ensures LeadsOn(s, Next(s, c, op, r), c, op)
  {
  }

  lemma BootLeadsOn(s: State, c: nat, op: Op, r: int)
    requires Can(s, c, op, r) && s.cpus[c].pc.Work? && (s.cpus[c].pc.task.BootAps? || s.cpus[c].pc.task.WaitAp? || s.cpus[c].pc.task.Create?)
    ensures LeadsOn(s, Next(s, c, op, r), c, op)
  {
  }

  lemma WorkLeadsOn(s: State, c: nat, op: Op, r: int)
    requires Can(s, c, op, r) && CpuOk(s, c) && s.boot < |s.cpus| && s.cpus[c].pc.Work?
    requires var t := s.cpus[c].pc.task; t.Resume? || t.Enter? || t.Return? || t.Yield? || t.Run? || t.Halt?
    ensures LeadsOn(s, Next(s, c, op, r), c, op)
  {
  }

  /** A CPU in the kernel, or on its way in, comes closer to leaving it with every step of its own, unless it waits for the lock
      or for a CPU that is starting; only i386_init may first go on creating environments. User code and a halted CPU
      are interrupted. */
  lemma StepsLeadOut(s: State, c: nat, op: Op, r: int)
    requires Inv(s) && Can(s, c, op, r)
    ensures LeadsOn(s, Next(s, c, op, r), c, op)
  {
    assert CpuOk(s, c);
    var pc := s.cpus[c].pc;
    if !pc.Work? { OutsideLeadsOn(s, c, op, r); }
    else if pc.task.Dispatch? { DispatchLeadsOn(s, c, op, r); }
    else if pc.task.BootAps? || pc.task.WaitAp? || pc.task.Create? { BootLeadsOn(s, c, op, r); }
    else { WorkLeadsOn(s, c, op, r); }
  }

  // ----- the lock -----

  /** Somebody is between the two exchanges on the lock. */
  ghost predicate Held(s: State) {
    exists c: nat :: c < |s.cpus| && Inside(s.cpus[c].pc)
  }

  /** Only boot_aps touches another CPU, the one it starts. */
  lemma OthersStay(s: State, c: nat, op: Op, r: int, d: nat)
    requires Can(s, c, op, r) && d < |s.cpus| && d != c
    ensures var s' := Next(s, c, op, r);
            && |s'.cpus| == |s.cpus| && s'.boot == s.boot
            && (s'.cpus[d] == s.cpus[d] || (s'.cpus[d] == s.cpus[d].(pc := ApStart) && s.cpus[c].pc == Work(BootAps(d))))
  {
    if s.cpus[c].pc.Work? {
      if s.cpus[c].pc.task.Dispatch? { DispatchLeavesOthers(s, c, op, r); }
      else if s.cpus[c].pc.task.BootAps? { BootTouchesOne(s, c, op, r); }
      else { WorkLeavesOthers(s, c, op, r); }
    }
  }

  lemma ShapeStays(s: State, c: nat, op: Op, r: int)
    requires Can(s, c, op, r)
    ensures |Next(s, c, op, r).cpus| == |s.cpus| && Next(s, c, op, r).boot == s.boot
  {
    if s.cpus[c].pc.Work? {
      if s.cpus[c].pc.task.Dispatch? { DispatchLeavesOthers(s, c, op, r); }
      else if s.cpus[c].pc.task.BootAps? { BootTouchesOne(s, c, op, r); }
      else { WorkLeavesOthers(s, c, op, r); }
    }
  }

  lemma DispatchLeavesOthers(s: State, c: nat, op: Op, r: int)
    requires Can(s, c, op, r) && s.cpus[c].pc.Work? && s.cpus[c].pc.task.Dispatch?
    ensures var s' := Next(s, c, op, r);
            |s'.cpus| == |s.cpus| && s'.boot == s.boot && s'.cpus == s.cpus[c := s'.cpus[c]]
  {
  }

  lemma WorkLeavesOthers(s: State, c: nat, op: Op, r: int)
    requires Can(s, c, op, r) && s.cpus[c].pc.Work? && !s.cpus[c].pc.task.Dispatch? && !s.cpus[c].pc.task.BootAps?
    ensures var s' := Next(s, c, op, r);
            |s'.cpus| == |s.cpus| && s'.boot == s.boot && s'.cpus == s.cpus[c := s'.cpus[c]]
  {
  }

  lemma BootTouchesOne(s: State, c: nat, op: Op, r: int)
    requires Can(s, c, op, r) && s.cpus[c].pc.Work? && s.cpus[c].pc.task.BootAps?
    ensures var s' := Next(s, c, op, r); var i := s.cpus[c].pc.task.i;
            && |s'.cpus| == |s.cpus| && s'.boot == s.boot
            && s'.cpus == if i < |s.cpus| && i != c then s.cpus[i := s.cpus[i].(pc := ApStart)][c := s'.cpus[c]] else s.cpus[c := s'.cpus[c]]
  {
  }

  lemma StartedWasOff(s: State, c: nat, d: nat)
    requires Inv(s) && c < |s.cpus| && d < |s.cpus| && d != c && s.cpus[c].pc == Work(BootAps(d))
    ensures s.cpus[d].pc == Off
  {
    assert CpuOk(s, c);
  }

  lemma LockStep(s: State, c: nat, op: Op, r: int)
    requires Inv(s) && Can(s, c, op, r) && (s.locked ==> Held(s))
    ensures Next(s, c, op, r).locked ==> Held(Next(s, c, op, r))
  {
    var s' := Next(s, c, op, r);
    assert CpuOk(s, c);
    ShapeStays(s, c, op, r);
    if s'.locked && !Inside(s'.cpus[c].pc) { StillHeld(s, c, op, r, s'); }
  }

  lemma StillHeld(s: State, c: nat, op: Op, r: int, s': State)
    requires Can(s, c, op, r) && CpuOk(s, c) && s.boot < |s.cpus| && s' == Next(s, c, op, r) && |s'.cpus| == |s.cpus|
    requires s'.locked && !Inside(s'.cpus[c].pc) && (s.locked ==> Held(s))
    ensures Held(s')
  {
    LeavesUnlocked(s, c, op, r, s');
    var d: nat :| d < |s.cpus| && Inside(s.cpus[d].pc);
    OthersStay(s, c, op, r, d);
    assert Inside(s'.cpus[d].pc);
  }

  /** A CPU that comes out has given the lock back, even if it goes on to take it again; only one that goes in takes it. */
  lemma LeavesUnlocked(s: State, c: nat, op: Op, r: int, s': State)
    requires Can(s, c, op, r) && CpuOk(s, c) && s.boot < |s.cpus| && s' == Next(s, c, op, r) && |s'.cpus| == |s.cpus|
    requires !Inside(s'.cpus[c].pc)
    ensures s'.locked ==> s.locked && !Inside(s.cpus[c].pc)
  {
    if s.cpus[c].pc.Work? {
      if s.cpus[c].pc.task.Dispatch? { DispatchStaysIn(s, c, op, r); } else { WorkStaysIn(s, c, op, r); }
    }
  }

  lemma DispatchStaysIn(s: State, c: nat, op: Op, r: int)
    requires Can(s, c, op, r) && s.cpus[c].pc.Work? && s.cpus[c].pc.task.Dispatch?
    ensures var s' := Next(s, c, op, r); |s'.cpus| == |s.cpus| && Inside(s'.cpus[c].pc)
  {
  }

  lemma WorkStaysIn(s: State, c: nat, op: Op, r: int)
    requires Can(s, c, op, r) && CpuOk(s, c) && s.boot < |s.cpus| && s.cpus[c].pc.Work? && !s.cpus[c].pc.task.Dispatch?
    ensures var s' := Next(s, c, op, r); |s'.cpus| == |s.cpus| && Inside(s'.cpus[c].pc)
  {
  }

  // ----- the monitor -----

  predicate Alive(status: Status) { status == RUNNABLE || status == RUNNING || status == DYING }

  /** Nothing is left to run. */
  ghost predicate Quiet(s: State) {
    forall e: nat :: e < |s.envs| ==> !Alive(s.envs[e].status)
  }

  ghost predicate MonitorOk(s: State) {
    forall c: nat :: c < |s.cpus| && s.cpus[c].pc == Monitor ==> Quiet(s)
  }

  /** Environments change only in the kernel. */
  lemma OnlyWorkChanges(s: State, c: nat, op: Op, r: int)
    requires Can(s, c, op, r) && !s.cpus[c].pc.Work?
    ensures Next(s, c, op, r).envs == s.envs
  {
  }

  lemma MonitorStep(s: State, c: nat, op: Op, r: int)
    requires Inv(s) && Can(s, c, op, r) && MonitorOk(s)
    ensures MonitorOk(Next(s, c, op, r))
  {
    var s' := Next(s, c, op, r);
    ShapeStays(s, c, op, r);
    forall d: nat | d < |s'.cpus| && s'.cpus[d].pc == Monitor ensures Quiet(s') {
      if d == c { EntersQuiet(s, c, op, r, s'); } else { StaysQuiet(s, c, op, r, s', d); }
    }
  }

  /** While one CPU is in the monitor, no other is in the kernel. */
  lemma StaysQuiet(s: State, c: nat, op: Op, r: int, s': State, d: nat)
    requires Can(s, c, op, r) && s' == Next(s, c, op, r) && |s'.cpus| == |s.cpus| && d < |s.cpus| && d != c && s'.cpus[d].pc == Monitor
    requires PairOk(s, c, d) && MonitorOk(s)
    ensures Quiet(s')
  {
    OthersStay(s, c, op, r, d);
    OnlyWorkChanges(s, c, op, r);
  }

  /** The monitor is entered from sched_halt only. */
  lemma EntersQuiet(s: State, c: nat, op: Op, r: int, s': State)
    requires Inv(s) && Can(s, c, op, r) && MonitorOk(s) && s' == Next(s, c, op, r) && |s'.cpus| == |s.cpus| && s'.cpus[c].pc == Monitor
    ensures Quiet(s')
  {
    assert CpuOk(s, c);
    if !s.cpus[c].pc.Work? { OutsideStaysOut(s, c, op, r, s'); }
    else if s.cpus[c].pc.task.Dispatch? { DispatchLeadsOn(s, c, op, r); }
    else { HaltsQuiet(s, c, op, r, s'); }
  }

  lemma OutsideStaysOut(s: State, c: nat, op: Op, r: int, s': State)
    requires Can(s, c, op, r) && CpuOk(s, c) && s.boot < |s.cpus| && !s.cpus[c].pc.Work?
    requires s' == Next(s, c, op, r) && |s'.cpus| == |s.cpus| && s'.cpus[c].pc == Monitor
    ensures s.cpus[c].pc == Monitor && s' == s
  {
  }

  lemma HaltsQuiet(s: State, c: nat, op: Op, r: int, s': State)
    requires Can(s, c, op, r) && s.cpus[c].pc.Work? && !s.cpus[c].pc.task.Dispatch?
    requires s' == Next(s, c, op, r) && |s'.cpus| == |s.cpus| && s'.cpus[c].pc == Monitor
    ensures Quiet(s')
  {
  }

  // ----- runs -----

  lemma {:induction false} RunsKeepThese(s: State, moves: seq<Move>, s': State)
    requires Inv(s) && SmpInvariant.Run(s, moves, s') && (s.locked ==> Held(s)) && MonitorOk(s) && Started(s)
    ensures Inv(s') && (s'.locked ==> Held(s')) && MonitorOk(s') && Started(s')
    decreases |moves|
  {
    if moves != [] {
      var n := moves[0];
      LockStep(s, n.c, n.op, n.r);
      MonitorStep(s, n.c, n.op, n.r);
      StartedStep(s, n.c, n.op, n.r);
      StepKeeps(s, n.c, n.op, n.r);
      RunsKeepThese(Next(s, n.c, n.op, n.r), moves[1..], s');
    }
  }

  lemma StartHasThese(s: State)
    requires Initial(s)
    ensures Inv(s) && !s.locked && MonitorOk(s) && Started(s)
  {
    InitialOk(s);
  }

  /** In every state of every run from power-on: the lock's word is set exactly while a CPU is inside, and then one is. */
  lemma LockedIffInside(s: State, moves: seq<Move>, s': State)
    requires Initial(s) && SmpInvariant.Run(s, moves, s')
    ensures s'.locked <==> Held(s')
  {
    StartHasThese(s);
    RunsKeepThese(s, moves, s');
    if Held(s') {
      var c: nat :| c < |s'.cpus| && Inside(s'.cpus[c].pc);
      assert CpuOk(s', c);
    }
  }

  /** A CPU is in the monitor only when no environment is runnable, running or dying, and nothing changes any more. */
  lemma MonitorOnlyWhenQuiet(s: State, moves: seq<Move>, s': State, c: nat, d: nat, op: Op, r: int)
    requires Initial(s) && SmpInvariant.Run(s, moves, s') && c < |s'.cpus| && s'.cpus[c].pc == Monitor && Can(s', d, op, r)
    ensures Quiet(s') && s'.locked && Next(s', d, op, r).envs == s'.envs
  {
    StartHasThese(s);
    RunsKeepThese(s, moves, s');
    assert CpuOk(s', c) && PairOk(s', c, d);
  }

  /** The steps of CPU c in the run */
  function Own(moves: seq<Move>, c: nat): nat {
    if moves == [] then 0 else (if moves[0].c == c then 1 else 0) + Own(moves[1..], c)
  }

  /** How far a halting CPU is from its hlt loop */
  ghost predicate Halting(s: State, c: nat, left: nat) {
    c < |s.cpus| &&
    match left
    case 3 => s.cpus[c].pc == Work(Halt) && !Quiet(s)
    case 2 => s.cpus[c].pc == Release(Idle)
    case 1 => s.cpus[c].pc == Cleared(Idle)
    case _ => false
  }

  /** A CPU that finds nothing to run while some environment is running or dying elsewhere halts: whatever the other CPUs
      do meanwhile, after three steps of its own it is in the hlt loop, without an environment, and the lock is free. */
  lemma {:induction false} HaltEndsIdle(s: State, moves: seq<Move>, s': State, c: nat, left: nat)
    requires Inv(s) && SmpInvariant.Run(s, moves, s') && Halting(s, c, left)
    requires moves != [] && moves[|moves| - 1].c == c && Own(moves, c) == left
    ensures c < |s'.cpus| && s'.cpus[c].pc == Idle && s'.cpus[c].status == HALTED && s'.cpus[c].env == NONE && !s'.locked
    decreases |moves|
  {
    var n := moves[0];
    var s1 := Next(s, n.c, n.op, n.r);
    StepKeeps(s, n.c, n.op, n.r);
    HaltStep(s, n, c, left);
    if n.c == c && left == 1 {
      NoMore(moves[1..], c);
    } else {
      OneLast(moves, c, left);
      HaltEndsIdle(s1, moves[1..], s', c, if n.c == c then left - 1 else left);
    }
  }

  lemma OneLast(moves: seq<Move>, c: nat, left: nat)
    requires moves != [] && Own(moves, c) == left && (moves[0].c == c ==> left > 1) && moves[|moves| - 1].c == c
    ensures moves[1..] != [] && Own(moves[1..], c) == if moves[0].c == c then left - 1 else left
  {
    var rest := moves[1..];
    assert Own(moves, c) == (if moves[0].c == c then 1 else 0) + Own(rest, c) && Own([], c) == 0;
  }

  lemma {:induction false} NoMore(moves: seq<Move>, c: nat)
    requires moves != [] ==> moves[|moves| - 1].c == c
    requires Own(moves, c) == 0
    ensures moves == []
    decreases |moves|
  {
    if |moves| > 1 { NoMore(moves[1..], c); }
  }

  lemma HaltStep(s: State, n: Move, c: nat, left: nat)
    requires Inv(s) && Can(s, n.c, n.op, n.r) && Halting(s, c, left)
    ensures var s' := Next(s, n.c, n.op, n.r);
            if n.c != c then Halting(s', c, left)
            else if left > 1 then Halting(s', c, left - 1)
            else s'.cpus[c].pc == Idle && s'.cpus[c].status == HALTED && s'.cpus[c].env == NONE && !s'.locked
  {
    assert CpuOk(s, c);
    if n.c != c {
      OthersStay(s, n.c, n.op, n.r, c);
      assert PairOk(s, n.c, c);
      OnlyWorkChanges(s, n.c, n.op, n.r);
    }
  }

  // ----- start-up -----

  predicate IsUp(pc: Pc) { !pc.Off? && !pc.ApStart? && !pc.ApSetup? }

  /** The first CPU that boot_aps has still to see to */
  function Seen(s: State): nat
    requires s.boot < |s.cpus|
  {
    match s.cpus[s.boot].pc
    case Want(task) => SeenTask(s, task)
    case Spin(task) => SeenTask(s, task)
    case Got(task) => SeenTask(s, task)
    case Work(task) => SeenTask(s, task)
    case _ => |s.cpus|
  }

  function SeenTask(s: State, task: Task): nat {
    if task.BootAps? || task.WaitAp? then task.i else |s.cpus|
  }

  ghost predicate Started(s: State) {
    s.boot < |s.cpus| && forall d: nat :: d < |s.cpus| && (d == s.boot || d < Seen(s)) ==> IsUp(s.cpus[d].pc)
  }

  lemma StartedStep(s: State, c: nat, op: Op, r: int)
    requires Inv(s) && Can(s, c, op, r) && Started(s)
    ensures Started(Next(s, c, op, r))
  {
    var s' := Next(s, c, op, r);
    assert CpuOk(s, c);
    OnesUpStayUp(s, c, op, r);
    SeenStep(s, c, op, r);
  }

  lemma OnesUpStayUp(s: State, c: nat, op: Op, r: int)
    requires Inv(s) && Can(s, c, op, r)
    ensures var s' := Next(s, c, op, r);
            |s'.cpus| == |s.cpus| && s'.boot == s.boot && forall d: nat :: d < |s.cpus| && IsUp(s.cpus[d].pc) ==> IsUp(s'.cpus[d].pc)
  {
    var s' := Next(s, c, op, r);
    assert CpuOk(s, c);
    ShapeStays(s, c, op, r);
    forall d: nat | d < |s.cpus| && IsUp(s.cpus[d].pc) ensures IsUp(s'.cpus[d].pc) {
      if d == c { StaysUp(s, c, op, r); }
      else {
        OthersStay(s, c, op, r, d);
        if s.cpus[c].pc == Work(BootAps(d)) { StartedWasOff(s, c, d); }
      }
    }
  }

  lemma StaysUp(s: State, c: nat, op: Op, r: int)
    requires Can(s, c, op, r) && CpuOk(s, c) && s.boot < |s.cpus| && IsUp(s.cpus[c].pc)
    ensures c < |Next(s, c, op, r).cpus| && IsUp(Next(s, c, op, r).cpus[c].pc)
  {
    ShapeStays(s, c, op, r);
    if s.cpus[c].pc.Work? {
      if s.cpus[c].pc.task.Dispatch? { DispatchStaysIn(s, c, op, r); } else { WorkStaysIn(s, c, op, r); }
    }
  }

  /** boot_aps passes over no CPU but its own. */
  lemma SeenStep(s: State, c: nat, op: Op, r: int)
    requires Inv(s) && Can(s, c, op, r) && Started(s)
    ensures var s' := Next(s, c, op, r);
            s'.boot < |s'.cpus| && forall d: nat :: d < |s'.cpus| && Seen(s) <= d < Seen(s') && d != s.boot ==> IsUp(s'.cpus[d].pc)
  {
    var s' := Next(s, c, op, r);
    ShapeStays(s, c, op, r);
    assert CpuOk(s, c) && CpuOk(s, s.boot);
    if c != s.boot {
      OthersStay(s, c, op, r, s.boot);
    } else {
      OnesUpStayUp(s, c, op, r);
      SeenMoves(s, c, op, r);
      forall d: nat | d < |s.cpus| && Seen(s) <= d < Seen(s') && d != s.boot ensures IsUp(s'.cpus[d].pc) { assert CpuOk(s, d); }
    }
  }

  lemma SeenMoves(s: State, c: nat, op: Op, r: int)
    requires Can(s, c, op, r) && CpuOk(s, c) && c == s.boot
    ensures var s' := Next(s, c, op, r);
            && s'.boot < |s'.cpus|
            && (Seen(s') > Seen(s) ==> Seen(s) < |s.cpus| && Seen(s') == Seen(s) + 1 && (Seen(s) == c || s.cpus[Seen(s)].status == STARTED))
  {
    ShapeStays(s, c, op, r);
    if s.cpus[c].pc.Work? {
      var task := s.cpus[c].pc.task;
      if task.Dispatch? { DispatchLeadsOn(s, c, op, r); }
      else if task.BootAps? || task.WaitAp? { BootSeen(s, c, op, r); }
      else { WorkSeen(s, c, op, r); }
    }
  }

  lemma WorkSeen(s: State, c: nat, op: Op, r: int)
    requires Can(s, c, op, r) && c == s.boot && s.cpus[c].pc.Work? && !s.cpus[c].pc.task.Dispatch?
    requires !s.cpus[c].pc.task.BootAps? && !s.cpus[c].pc.task.WaitAp?
    ensures s.boot < |s.cpus| == |Next(s, c, op, r).cpus| && Next(s, c, op, r).boot == s.boot
    ensures Seen(Next(s, c, op, r)) == Seen(s)
  {
  }

  lemma BootSeen(s: State, c: nat, op: Op, r: int)
    requires Can(s, c, op, r) && c == s.boot && s.cpus[c].pc.Work? && (s.cpus[c].pc.task.BootAps? || s.cpus[c].pc.task.WaitAp?)
    ensures var s' := Next(s, c, op, r);
            && s'.boot < |s'.cpus|
            && (Seen(s') > Seen(s) ==> Seen(s) < |s.cpus| && Seen(s') == Seen(s) + 1 && (Seen(s) == c || s.cpus[Seen(s)].status == STARTED))
  {
  }

  /** In every state of every run from power-on: once the first CPU goes on to create environments, all CPUs are up. */
  lemma AllCpusAreUp(s: State, moves: seq<Move>, s': State, d: nat)
    requires Initial(s) && SmpInvariant.Run(s, moves, s') && d < |s'.cpus|
    requires s'.boot < |s'.cpus| && s'.cpus[s'.boot].pc == Work(Create)
    ensures IsUp(s'.cpus[d].pc) && s'.cpus[d].status != UNUSED
  {
    StartHasThese(s);
    RunsKeepThese(s, moves, s');
    assert CpuOk(s', d);
  }

  // ----- environments -----

  /** The call is aimed at slot e. */
  predicate AimedAt(s: State, c: nat, op: Op, e: nat)
    requires c < |s.cpus|
  {
    match op
    case SetStatus(x, _) => x == e
    case Exofork(x) => x == e
    case Destroy(x) => x == e
    case Send(x) => x == e
    case Recv => s.cpus[c].env == e
    case _ => false
  }

  predicate Changes(s: State, c: nat, cpu: Cpu, op: Op, e: nat, a: Status, b: Status)
    requires c < |s.cpus| && cpu.pc.Work?
  {
    match cpu.pc.task
    case Run(x) => (x == e && a == RUNNABLE && b == RUNNING) || (x != e && cpu.env == e && a == RUNNING && b == RUNNABLE)
    case Enter => cpu.env == e && a == DYING && b == FREE
    case Create => op == Exofork(e) && a == FREE && b == RUNNABLE
    case Dispatch(_) => AimedAt(s, c, op, e)
    case _ => false
  }

  /** Every way a status changes: an environment is run, or leaves the CPU for another and stays runnable; a dying one is
      freed by the CPU it is on; i386_init creates one; or a system call is aimed at it. */
  lemma StatusMoves(s: State, c: nat, op: Op, r: int, e: nat)
    requires Inv(s) && Can(s, c, op, r) && e < NENV
    ensures var s' := Next(s, c, op, r); var cpu := s.cpus[c];
            && |s'.envs| == NENV
            && (s'.envs[e].status != s.envs[e].status ==> cpu.pc.Work? && Changes(s, c, cpu, op, e, s.envs[e].status, s'.envs[e].status))
  {
    assert CpuOk(s, c);
    if !s.cpus[c].pc.Work? { OnlyWorkChanges(s, c, op, r); }
    else if s.cpus[c].pc.task.Dispatch? { DispatchMoves(s, c, op, r, e); }
    else { WorkMoves(s, c, op, r, e); }
  }

  lemma DispatchMoves(s: State, c: nat, op: Op, r: int, e: nat)
    requires Can(s, c, op, r) && e < NENV && s.cpus[c].pc.Work? && s.cpus[c].pc.task.Dispatch?
    ensures var s' := Next(s, c, op, r);
            |s'.envs| == NENV && (s'.envs[e].status != s.envs[e].status ==> AimedAt(s, c, op, e))
  {
  }

  lemma WorkMoves(s: State, c: nat, op: Op, r: int, e: nat)
    requires Can(s, c, op, r) && CpuOk(s, c) && s.boot < |s.cpus| && e < NENV && s.cpus[c].pc.Work? && !s.cpus[c].pc.task.Dispatch?
    ensures var s' := Next(s, c, op, r);
            && |s'.envs| == NENV
            && (s'.envs[e].status != s.envs[e].status ==> Changes(s, c, s.cpus[c], op, e, s.envs[e].status, s'.envs[e].status))
  {
  }

  /** CPU c is at pc with environment e, which is running; all else of the CPUs and the statuses is as in s. */
  ghost predicate KeepsOn(s: State, s': State, c: nat, e: nat, pc: Pc)
    requires c < |s.cpus|
  {
    && Shape(s') && s'.cpus == s.cpus[c := s.cpus[c].(pc := pc)] && s.cpus[c].env == e && e < NENV && s'.envs[e].status == RUNNING
  }

  lemma DispatchReturns(s: State, c: nat, op: Op, e: nat)
    requires Can(s, c, op, NONE) && s.cpus[c].pc == Work(Dispatch(true)) && s.cpus[c].env == e && e < NENV && s.envs[e].status == RUNNING
    requires op != Reschedule && !AimedAt(s, c, op, e)
    ensures KeepsOn(s, Next(s, c, op, NONE), c, e, Work(Return)) && Can(Next(s, c, op, NONE), c, Nothing, NONE)
  {
  }

  lemma ReturnRuns(s: State, c: nat, e: nat)
    requires Shape(s) && c < |s.cpus| && s.cpus[c].pc == Work(Return) && s.cpus[c].env == e && e < NENV && s.envs[e].status == RUNNING
    ensures Can(s, c, Nothing, NONE)
    ensures var s1 := Next(s, c, Nothing, NONE);
            && Can(s1, c, Nothing, NONE)
            && var s2 := Next(s1, c, Nothing, NONE); KeepsOn(s, s2, c, e, Release(User)) && s2.envs == s.envs
  {
    var s1 := Next(s, c, Nothing, NONE);
    assert s1 == At(s, c, Work(Run(e)));
    var s2 := Next(s1, c, Nothing, NONE);
    assert s2.envs == s.envs[e := s.envs[e].(status := RUNNABLE)][e := s.envs[e].(status := RUNNING)];
  }

  /** A trap that leaves its environment running returns to it: the third step of the CPU's own ends env_run, with the same
      environment on it, and no status touched but the call's target. */
  lemma TrapReturns(s: State, c: nat, op: Op, e: nat)
    requires Inv(s) && Can(s, c, op, NONE) && s.cpus[c].pc == Work(Dispatch(true)) && s.cpus[c].env == e
    requires op != Reschedule && !AimedAt(s, c, op, e)
    ensures var s1 := Next(s, c, op, NONE);
            && Can(s1, c, Nothing, NONE)
            && var s2 := Next(s1, c, Nothing, NONE);
            && Can(s2, c, Nothing, NONE)
            && var s3 := Next(s2, c, Nothing, NONE);
            && s3.cpus == s.cpus[c := s.cpus[c].(pc := Release(User))] && s3.envs == s1.envs && e < |s3.envs| && s3.envs[e].status == RUNNING
  {
    assert CpuOk(s, c);
    DispatchReturns(s, c, op, e);
    ReturnRuns(Next(s, c, op, NONE), c, e);
  }

  /** A CPU that yields goes to the environment its scan found, and the one it leaves stays runnable. */
  lemma YieldRuns(s: State, c: nat, r: nat)
    requires Shape(s) && Can(s, c, Nothing, r) && s.cpus[c].pc == Work(Yield)
    ensures var s1 := Next(s, c, Nothing, r); var was := s.cpus[c].env;
            && Can(s1, c, Nothing, NONE)
            && var s2 := Next(s1, c, Nothing, NONE);
            && |s2.cpus| == |s.cpus| && |s2.envs| == NENV && r < NENV && s2.cpus[c].env == r && s2.cpus[c].pc == Release(User)
            && s2.envs[r].status == RUNNING
            && (0 <= was < NENV && was != r && s.envs[was].status == RUNNING ==> s2.envs[was].status == RUNNABLE)
  {
    var s1 := Next(s, c, Nothing, r);
    assert s1 == At(s, c, Work(Run(r)));
  }
}
