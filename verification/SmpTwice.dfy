/** What an unguarded status change leads to: one environment current on two CPUs (kern/syscall.c:127, kern/sched.c:36-57). */
module SmpRunsTwice {
  import opened Kernel
  import opened Scheduling
  import opened Smp
  import opened SmpInvariant

  /** A run without the guard */
  ghost predicate Steps(s: State, moves: seq<Move>, s': State)
    decreases |moves|
  {
    if moves == [] then s' == s
    else
      var n := moves[0];
      Can(s, n.c, n.op, n.r) && Steps(Next(s, n.c, n.op, n.r), moves[1..], s')
  }

  lemma {:induction false} StepsJoin(s: State, a: seq<Move>, s1: State, b: seq<Move>, s2: State)
    requires Steps(s, a, s1) && Steps(s1, b, s2)
    ensures Steps(s, a + b, s2)
    decreases |a|
  {
    if a == [] {
      assert a + b == b;
    } else {
      assert (a + b)[0] == a[0] && (a + b)[1..] == a[1..] + b;
      StepsJoin(Next(s, a[0].c, a[0].op, a[0].r), a[1..], s1, b, s2);
    }
  }

  lemma OneStep(s: State, n: Move)
    requires Can(s, n.c, n.op, n.r)
    ensures Steps(s, [n], Next(s, n.c, n.op, n.r))
  {
    assert [n][1..] == [];
  }

  lemma TwoSteps(s: State, n: Move, s1: State, n1: Move)
    requires Can(s, n.c, n.op, n.r) && s1 == Next(s, n.c, n.op, n.r) && Can(s1, n1.c, n1.op, n1.r)
    ensures Steps(s, [n, n1], Next(s1, n1.c, n1.op, n1.r))
  {
    OneStep(s, n);
    OneStep(s1, n1);
    StepsJoin(s, [n], s1, [n1], Next(s1, n1.c, n1.op, n1.r));
    assert [n] + [n1] == [n, n1];
  }

  predicate Current(s: State, c: nat, pc: Pc) {
    c < |s.cpus| && s.cpus[c].pc == pc && s.cpus[c].status == STARTED && 0 <= s.cpus[c].env < |s.envs| && s.envs[s.cpus[c].env].status == RUNNING
  }

  /** From the end of env_run to user mode */
  lemma LeavesKernel(s: State, c: nat) returns (s': State)
    requires Shape(s) && Current(s, c, Release(User)) && s.locked && s.owner == c
    ensures Steps(s, [Move(c, Nothing, NONE), Move(c, Nothing, NONE)], s')
    ensures s' == At(s.(locked := false, owner := NONE), c, User)
  {
    var s1 := Next(s, c, Nothing, NONE);
    TwoSteps(s, Move(c, Nothing, NONE), s1, Move(c, Nothing, NONE));
    s' := Next(s1, c, Nothing, NONE);
  }

  lemma Appended(s: State, a: seq<Move>, s1: State, n: Move) returns (moves: seq<Move>)
    requires Steps(s, a, s1) && Can(s1, n.c, n.op, n.r)
    ensures Steps(s, moves, Next(s1, n.c, n.op, n.r)) && moves == a + [n]
  {
    OneStep(s1, n);
    StepsJoin(s, a, s1, [n], Next(s1, n.c, n.op, n.r));
    moves := a + [n];
  }

  /** A trap from user mode, up to the exchange that takes the lock */
  lemma AtTheLock(s: State, c: nat) returns (moves: seq<Move>, s': State)
    requires Shape(s) && Current(s, c, User) && !s.locked && s.owner != c
    ensures Steps(s, moves, s') && forall n :: n in moves ==> n.c == c
    ensures s' == At(s, c, Spin(Enter))
  {
    var n := Move(c, Nothing, NONE);
    var s1 := Next(s, c, Nothing, NONE);
    TwoSteps(s, n, s1, n);
    var s2 := Next(s1, c, Nothing, NONE);
    moves := Appended(s, [n, n], s2, n);
    s' := Next(s2, c, Nothing, NONE);
  }

  /** From there to trap_dispatch */
  lemma Enters(s: State, c: nat) returns (moves: seq<Move>, s': State)
    requires Shape(s) && Current(s, c, Spin(Enter)) && !s.locked
    ensures Steps(s, moves, s') && forall n :: n in moves ==> n.c == c
    ensures s' == At(s.(locked := true, owner := c), c, Work(Dispatch(true)))
  {
    var n := Move(c, Nothing, NONE);
    var s1 := Next(s, c, Nothing, NONE);
    TwoSteps(s, n, s1, n);
    var s2 := Next(s1, c, Nothing, NONE);
    moves := Appended(s, [n, n], s2, n);
    s' := Next(s2, c, Nothing, NONE);
  }

  /** c makes e runnable and goes back to its own environment, up to the release of the lock. */
  lemma Forces(s: State, c: nat, e: nat) returns (moves: seq<Move>, s': State)
    requires Shape(s) && Current(s, c, Work(Dispatch(true))) && e < NENV && e != s.cpus[c].env && s.envs[e].status == RUNNING
    ensures Steps(s, moves, s') && moves != [] && moves[0] == Move(c, SetStatus(e, RUNNABLE), NONE) && forall n :: n in moves ==> n.c == c
    ensures s' == At(SetSlot(s, e, RUNNABLE), c, Release(User))
  {
    var n0, n := Move(c, SetStatus(e, RUNNABLE), NONE), Move(c, Nothing, NONE);
    var s1 := Next(s, c, SetStatus(e, RUNNABLE), NONE);
    TwoSteps(s, n0, s1, n);
    var s2 := Next(s1, c, Nothing, NONE);
    moves := Appended(s, [n0, n], s2, n);
    s' := Next(s2, c, Nothing, NONE);
    assert s'.envs == SetSlot(s, e, RUNNABLE).envs;
  }

  /** c yields, and its scan finds e, the only runnable environment. */
  lemma Takes(s: State, c: nat, e: nat) returns (moves: seq<Move>, s': State)
    requires Shape(s) && Current(s, c, Work(Dispatch(true))) && e < NENV && e != s.cpus[c].env && s.envs[e].status == RUNNABLE
    requires forall x: nat :: x < NENV && x != e ==> s.envs[x].status != RUNNABLE
    ensures Steps(s, moves, s') && forall n :: n in moves ==> n.c == c
    ensures s'.cpus == s.cpus[c := s.cpus[c].(env := e, pc := Release(User))] && s'.envs == SetSlot(SetSlot(s, s.cpus[c].env, RUNNABLE), e, RUNNING).envs
    ensures s'.locked == s.locked && s'.owner == s.owner && s'.boot == s.boot
  {
    var n0, n1, n := Move(c, Reschedule, NONE), Move(c, Nothing, e), Move(c, Nothing, NONE);
    var s1 := Next(s, c, Reschedule, NONE);
    assert FirstRunnable(Statuses(s1), s1.cpus[c].env, e);
    TwoSteps(s, n0, s1, n1);
    var s2 := Next(s1, c, Nothing, e);
    moves := Appended(s, [n0, n1], s2, n);
    s' := Next(s2, c, Nothing, NONE);
  }

  /** c forces e's status, leaves the kernel, and is back in it by its next trap. */
  lemma ForcesAndReturns(s: State, c: nat, e: nat) returns (moves: seq<Move>, s': State)
    requires Shape(s) && Current(s, c, Work(Dispatch(true))) && e < NENV && e != s.cpus[c].env && s.envs[e].status == RUNNING
    requires s.locked && s.owner == c
    ensures Steps(s, moves, s') && moves != [] && moves[0] == Move(c, SetStatus(e, RUNNABLE), NONE) && forall n :: n in moves ==> n.c == c
    ensures s' == SetSlot(s, e, RUNNABLE)
  {
    var n := Move(c, Nothing, NONE);
    var m1, s1 := Forces(s, c, e);
    var s2 := LeavesKernel(s1, c);
    StepsJoin(s, m1, s1, [n, n], s2);
    var m2, s3 := AtTheLock(s2, c);
    StepsJoin(s, m1 + [n, n], s2, m2, s3);
    var m3;
    m3, s' := Enters(s3, c);
    StepsJoin(s, m1 + [n, n] + m2, s3, m3, s');
    moves := m1 + [n, n] + m2 + m3;
  }

  /** In a state in order, CPU c in the kernel for its environment and CPU d in user mode with e: if c's environment may
      set e's status, the calls of CPU c alone put e on both. */
  lemma UnguardedStatusRunsTwice(s: State, c: nat, d: nat, e: nat) returns (moves: seq<Move>, s': State)
    requires Inv(s) && Current(s, c, Work(Dispatch(true))) && Current(s, d, User) && c != d && s.cpus[d].env == e
    requires forall x: nat :: x < NENV ==> s.envs[x].status != RUNNABLE
    ensures Steps(s, moves, s') && moves != [] && moves[0] == Move(c, SetStatus(e, RUNNABLE), NONE) && forall n :: n in moves ==> n.c == c
    ensures !Guarded(s, c, SetStatus(e, RUNNABLE))
    ensures |s'.cpus| == |s.cpus| && s'.cpus[c].pc == s'.cpus[d].pc == User && s'.cpus[c].env == s'.cpus[d].env == e
  {
    assert CpuOk(s, c) && PairOk(s, c, d);
    var n := Move(c, Nothing, NONE);
    var m1, s1 := ForcesAndReturns(s, c, e);
    var m2, s2 := Takes(s1, c, e);
    StepsJoin(s, m1, s1, m2, s2);
    s' := LeavesKernel(s2, c);
    StepsJoin(s, m1 + m2, s2, [n, n], s');
    moves := m1 + m2 + [n, n];
  }
}
