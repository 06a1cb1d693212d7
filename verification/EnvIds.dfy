/** Environment ids over runs (kern/env.c:75-109, 224-237): their form, the period with
    which a slot repeats them, and the rejection of stale ones. */
module EnvironmentIds {
  import opened Paging
  import opened Kernel
  import opened KernelRuns
  import opened KernelTheorems

  const GENERATION: nat := 0x1000
  const PERIOD: nat := 524287

  /** An id once given to slot e: generation g, 1 to PERIOD */
  predicate IsId(id: int, e: nat) {
    GENERATION <= id < 0x80000000 && id % GENERATION == e
  }

  /** The id of slot e after n more allocations */
  function Later(id: int, e: nat, n: nat): int
    decreases n
  {
    if n == 0 then id else Later(NextId(id, e), e, n - 1)
  }

  lemma NextGeneration(id: int, e: nat)
    requires e < NENV && (id == 0 || IsId(id, e))
    ensures NextId(id, e) == (if id >= PERIOD * GENERATION then GENERATION + e else id - id % GENERATION + GENERATION + e)
    ensures IsId(NextId(id, e), e)
  {
    if id + GENERATION < 0x80000000 {
      assert id + GENERATION - (id + GENERATION) % NENV == id - id % GENERATION + GENERATION;
    }
  }

  /** The n-th allocation of a slot gives generation (n - 1) mod PERIOD + 1. */
  lemma {:induction false} ClosedForm(id: int, e: nat, n: nat)
    requires e < NENV && (id == 0 || IsId(id, e)) && n > 0
    ensures Later(id, e, n) == GENERATION * ((id / GENERATION + n - 1) % PERIOD + 1) + e
    ensures IsId(Later(id, e, n), e)
    decreases n
  {
    NextIndex(id, e);
    var next := NextId(id, e);
    var g := id / GENERATION;
    if n == 1 {
      assert Later(id, e, 1) == Later(next, e, 0);
    } else {
      ClosedForm(next, e, n - 1);
      if g == PERIOD { assert (g + n - 1) % PERIOD == (n - 1) % PERIOD; }
    }
  }

  /** The generation after g, and after PERIOD the first */
  lemma NextIndex(id: int, e: nat)
    requires e < NENV && (id == 0 || IsId(id, e))
    ensures var g := id / GENERATION;
            && 0 <= g <= PERIOD && IsId(NextId(id, e), e)
            && NextId(id, e) == GENERATION * (if g == PERIOD then 1 else g + 1) + e
            && NextId(id, e) / GENERATION == if g == PERIOD then 1 else g + 1
  {
    NextGeneration(id, e);
    assert id == GENERATION * (id / GENERATION) + id % GENERATION;
  }

  /** One slot repeats an id after exactly PERIOD allocations, and never sooner. */
  lemma RepeatsWithPeriod(id: int, e: nat, n: nat)
    requires e < NENV && IsId(id, e)
    ensures Later(id, e, n) == id <==> n % PERIOD == 0
  {
    if n > 0 {
      ClosedForm(id, e, n);
      var g := id / GENERATION;
      assert id == GENERATION * g + e;
      assert 1 <= g <= PERIOD;
      SameResidue(g - 1, n);
    }
  }

  lemma SameResidue(a: nat, n: nat)
    requires a < PERIOD
    ensures (a + n) % PERIOD == a <==> n % PERIOD == 0
  {
    var q, r := n / PERIOD, n % PERIOD;
    assert n == PERIOD * q + r;
    assert (a + n) % PERIOD == (a + r) % PERIOD;
  }

  // ----- over runs of the kernel -----

  /** Every id is 0, before the slot's first use, or one the slot was given. */
  ghost predicate IdsOk(k: Kernel) {
    |k.envs| == NENV && forall e: nat :: e < NENV ==> k.envs[e].id == 0 || IsId(k.envs[e].id, e)
  }

  /** The entry allocates slot e. */
  ghost predicate Allocates(k: Kernel, n: KernelTheorems.Entry, e: nat)
    requires Ok(k)
  {
    Live(k, n.cur) && n.call.Exofork? && SysExofork(k, n.cur).0 >= 0 && k.efree != [] && k.efree[0] == e
  }

  ghost function Allocations(k: Kernel, run: seq<KernelTheorems.Entry>, e: nat): nat
    requires Ok(k) && SafeRun(k, run)
    decreases |run|
  {
    if run == [] then 0
    else
      StepOk(k, run[0]);
      (if Allocates(k, run[0], e) then 1 else 0) + Allocations(Apply(k, run[0]), run[1..], e)
  }

  lemma SendIds(k: Kernel, cur: nat, envid: int, value: nat, srcva: nat, perm: Perm)
    requires Ok(k) && Live(k, cur)
    ensures var k' := SysIpcTrySend(k, cur, envid, value, srcva, perm).1;
            |k'.envs| == NENV && forall e: nat :: e < NENV ==> k'.envs[e].id == k.envs[e].id
  {
  }

  lemma SharingIds(k: Kernel, n: KernelTheorems.Entry)
    requires Ok(k) && Live(k, n.cur) && (n.call.Map? || n.call.Unmap? || n.call.TrySend?)
    ensures |Apply(k, n).envs| == NENV && forall e: nat :: e < NENV ==> Apply(k, n).envs[e].id == k.envs[e].id
  {
    match n.call
    case Map(sid, sva, did, dva, perm) => assert SysPageMap(k, n.cur, sid, sva, did, dva, perm).1.envs == k.envs;
    case Unmap(id, va) => assert SysPageUnmap(k, n.cur, id, va).1.envs == k.envs;
    case TrySend(id, v, va, perm) => SendIds(k, n.cur, id, v, va, perm);
  }

  lemma StatusIds(k: Kernel, n: KernelTheorems.Entry)
    requires Ok(k) && Live(k, n.cur) && (n.call.SetStatus? || n.call.Recv? || n.call.Switch?)
    ensures |Apply(k, n).envs| == NENV && forall e: nat :: e < NENV ==> Apply(k, n).envs[e].id == k.envs[e].id
  {
  }

  lemma AllocateIds(k: Kernel, n: KernelTheorems.Entry)
    requires Ok(k) && Live(k, n.cur) && n.call.Allocate?
    ensures Apply(k, n).envs == k.envs
  {
  }

  lemma ReleaseIds(k: Kernel, n: KernelTheorems.Entry)
    requires Ok(k) && Live(k, n.cur) && (n.call.Destroy? || n.call.Reap?)
    ensures |Apply(k, n).envs| == NENV && forall e: nat :: e < NENV ==> Apply(k, n).envs[e].id == k.envs[e].id
  {
  }

  lemma StepIds(k: Kernel, n: KernelTheorems.Entry, e: nat)
    requires Ok(k) && IdsOk(k) && e < NENV
    ensures |Apply(k, n).envs| == NENV
    ensures Apply(k, n).envs[e].id == if Allocates(k, n, e) then NextId(k.envs[e].id, e) else k.envs[e].id
  {
    if Live(k, n.cur) {
      if n.call.Exofork? {
        ExoforkOk(k, n.cur);
        if k.efree != [] { NewId(k, n.cur, e); }
      } else if n.call.Map? || n.call.Unmap? || n.call.TrySend? {
        SharingIds(k, n);
      } else if n.call.Allocate? {
        AllocateIds(k, n);
      } else if n.call.Destroy? || n.call.Reap? {
        ReleaseIds(k, n);
      } else {
        StatusIds(k, n);
      }
    }
  }

  lemma NewId(k: Kernel, cur: nat, e: nat)
    requires Ok(k) && IdsOk(k) && cur < NENV && e < NENV && k.efree != []
    ensures var (r, k') := SysExofork(k, cur);
            && Ok(k') && k'.envs[e].id == if r >= 0 && e == k.efree[0] then NextId(k.envs[e].id, e) else k.envs[e].id
  {
    ExoforkOk(k, cur);
    assert k.efree[0] in k.efree;
    if SysExofork(k, cur).0 > 0 { NextGeneration(k.envs[k.efree[0]].id, k.efree[0]); }
  }

  lemma StepIdsOk(k: Kernel, n: KernelTheorems.Entry)
    requires Ok(k) && IdsOk(k) && Safe(k, n)
    ensures Ok(Apply(k, n)) && IdsOk(Apply(k, n))
  {
    StepOk(k, n);
    forall e: nat | e < NENV ensures Apply(k, n).envs[e].id == 0 || IsId(Apply(k, n).envs[e].id, e) {
      StepIds(k, n, e);
      NextGeneration(k.envs[e].id, e);
    }
  }

  lemma {:induction false} LaterStep(id: int, e: nat, a: nat, b: nat)
    ensures Later(id, e, a + b) == Later(Later(id, e, a), e, b)
    decreases a
  {
    if a > 0 { LaterStep(NextId(id, e), e, a - 1, b); }
  }

  /** After a run each slot's id has moved on by the number of its allocations. */
  lemma {:induction false} IdsFollowAllocations(k: Kernel, run: seq<KernelTheorems.Entry>, e: nat)
    requires Ok(k) && IdsOk(k) && SafeRun(k, run) && e < NENV
    ensures var k' := After(k, run);
            Ok(k') && IdsOk(k') && k'.envs[e].id == Later(k.envs[e].id, e, Allocations(k, run, e))
    decreases |run|
  {
    if run != [] {
      var id, n := k.envs[e].id, run[0];
      StepIds(k, n, e);
      StepIdsOk(k, n);
      var k1 := Apply(k, n);
      var rest := run[1..];
      IdsFollowAllocations(k1, rest, e);
      var a, b := if Allocates(k, n, e) then 1 else 0, Allocations(k1, rest, e);
      LaterStep(id, e, a, b);
      assert Later(id, e, 1) == Later(NextId(id, e), e, 0);
      assert After(k, run) == After(k1, rest) && Allocations(k, run, e) == a + b;
    }
  }

  /** An id that was live is accepted after a run only if the slot is in use and was
      allocated a multiple of PERIOD times since: inside that window every stale id is rejected. */
  lemma StaleIdsAreRejected(k: Kernel, run: seq<KernelTheorems.Entry>, e: nat, cur: nat)
    requires Ok(k) && IdsOk(k) && SafeRun(k, run) && Live(k, e) && cur < NENV
    ensures var k' := After(k, run);
            Ok(k') && var o := Envid2Env(k', cur, k.envs[e].id, false);
            && (o.Some? <==> k'.envs[e].status != FREE && Allocations(k, run, e) % PERIOD == 0)
            && (o.Some? ==> o.value == e)
  {
    IdsFollowAllocations(k, run, e);
    RepeatsWithPeriod(k.envs[e].id, e, Allocations(k, run, e));
  }

  /** Live environments have distinct positive ids, and each id finds its own slot. */
  lemma LiveIdsAreDistinct(k: Kernel, e: nat, e': nat, cur: nat)
    requires Ok(k) && Live(k, e) && Live(k, e') && cur < NENV
    ensures k.envs[e].id > 0 && (k.envs[e].id == k.envs[e'].id <==> e == e')
    ensures Envid2Env(k, cur, k.envs[e].id, false) == Option.Some(e)
  {
  }
}
