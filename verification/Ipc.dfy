/** IPC delivers exactly once and in order, over runs of the kernel
    (kern/syscall.c:335-421, lib/ipc.c:22-87). */
module IpcDelivery {
  import opened Paging
  import opened PagingInvariant
  import opened KernelHalfOfSpaces
  import opened Kernel
  import opened KernelRuns
  import KernelTheorems

  type Entry = KernelTheorems.Entry

  datatype Msg = Msg(value: nat, from: int)

  /** The message the entry delivers to slot r, if it is a successful send to it */
  function Sent(k: Kernel, n: Entry, r: nat): Option<Msg>
    requires Ok(k) && KernelTheorems.Live(k, n.cur)
  {
    if n.call.TrySend? && Envid2Env(k, n.cur, n.call.envid, false) == Option.Some(r)
       && SysIpcTrySend(k, n.cur, n.call.envid, n.call.value, n.call.srcva, n.call.perm).0 == 0
    then Option.Some(Msg(n.call.value, k.envs[n.cur].id))
    else Option.None
  }

  function SentBy(k: Kernel, n: Entry, r: nat): seq<Msg>
    requires Ok(k) && KernelTheorems.Live(k, n.cur)
  {
    var msg := Sent(k, n, r);
    if msg == Option.None then [] else [msg.value]
  }

  /** The entry is a successful receive by slot r. */
  predicate Receives(k: Kernel, n: Entry, r: nat)
    requires Ok(k) && KernelTheorems.Live(k, n.cur)
  {
    n.call.Recv? && n.cur == r && SysIpcRecv(k, r, n.call.dstva).0 == 0
  }

  /** An environment makes system calls only while it is running; a CPU may leave an environment of any status,
      and trap reaps a dying one. r is not destroyed, and while it waits nobody sets its status. */
  predicate Fair(k: Kernel, n: Entry, r: nat)
    requires Ok(k) && KernelTheorems.Live(k, r)
  {
    && KernelTheorems.Live(k, n.cur)
    && (n.call.Switch? || (n.call.Reap? && n.cur != r) || k.envs[n.cur].status == RUNNING)
    && (n.call.SetStatus? && k.envs[r].recving ==> Envid2Env(k, n.cur, n.call.envid, true) != Option.Some(r))
    && (n.call.Destroy? ==> Envid2Env(k, n.cur, n.call.envid, true) != Option.Some(r))
  }

  /** A waiting receiver is not runnable. */
  predicate Waits(env: Env) { env.recving ==> env.status == NOT_RUNNABLE }

  function MsgOf(env: Env): Msg { Msg(env.value, env.from) }

  predicate SameIpc(a: Env, b: Env) {
    b.recving == a.recving && MsgOf(b) == MsgOf(a) && b.tf == a.tf && (a.recving ==> b.status == a.status)
  }

  lemma {:induction false} OtherCalls(k: Kernel, n: Entry, r: nat)
    requires Ok(k) && KernelTheorems.Live(k, r) && Fair(k, n, r) && Waits(k.envs[r]) && !n.call.TrySend?
    requires !n.call.Recv?
    ensures var k' := KernelTheorems.Apply(k, n); |k'.envs| == NENV && SameIpc(k.envs[r], k'.envs[r])
  {
    match n.call
    case Exofork => ExoforkOk(k, n.cur);
    case Map(_, _, _, _, _) => KernelTheorems.PageCall(k, n);
    case Unmap(_, _) => KernelTheorems.PageCall(k, n);
    case Allocate(_, _, _) => KernelTheorems.PageCall(k, n);
    case _ => StatusCall(k, n, r);
  }

  lemma StatusCall(k: Kernel, n: Entry, r: nat)
    requires Ok(k) && KernelTheorems.Live(k, r) && Fair(k, n, r) && Waits(k.envs[r])
    requires n.call.SetStatus? || n.call.Destroy? || n.call.Reap? || n.call.Switch?
    ensures var k' := KernelTheorems.Apply(k, n); |k'.envs| == NENV && SameIpc(k.envs[r], k'.envs[r])
  {
  }

  /** A send changes the receiver's fields only, and only on success. */
  lemma SendCall(k: Kernel, n: Entry, r: nat)
    requires Ok(k) && KernelTheorems.Live(k, r) && KernelTheorems.Live(k, n.cur) && n.call.TrySend?
    ensures var k' := KernelTheorems.Apply(k, n); var msg := Sent(k, n, r);
            && |k'.envs| == NENV
            && (msg == Option.None ==> k'.envs[r] == k.envs[r])
            && (msg != Option.None ==> k.envs[r].recving && !k'.envs[r].recving && k'.envs[r].status == RUNNABLE && MsgOf(k'.envs[r]) == msg.value && k'.envs[r].tf.eax == 0)
  {
  }

  /** How one entry moves the IPC fields of slot r */
  lemma IpcStep(k: Kernel, n: Entry, r: nat)
    requires Ok(k) && KernelTheorems.Live(k, r) && Fair(k, n, r) && Waits(k.envs[r])
    ensures var k' := KernelTheorems.Apply(k, n); var msg := Sent(k, n, r);
            && |k'.envs| == NENV && Waits(k'.envs[r])
            && (msg != Option.None ==> k.envs[r].recving && !k'.envs[r].recving && MsgOf(k'.envs[r]) == msg.value)
            && (if msg != Option.None then k'.envs[r].tf.eax == 0 else k'.envs[r].tf == k.envs[r].tf)
            && (Receives(k, n, r) ==> !k.envs[r].recving && k'.envs[r].recving && MsgOf(k'.envs[r]) == MsgOf(k.envs[r]))
            && (msg == Option.None && !Receives(k, n, r) ==> k'.envs[r].recving == k.envs[r].recving && MsgOf(k'.envs[r]) == MsgOf(k.envs[r]))
  {
    if n.call.TrySend? { SendCall(k, n, r); }
    else if !n.call.Recv? { OtherCalls(k, n, r); }
  }

  /** A run in which r lives and is treated fairly */
  ghost predicate FairRun(k: Kernel, run: seq<Entry>, r: nat)
    requires Ok(k)
    decreases |run|
  {
    && KernelTheorems.Live(k, r)
    && (run != [] ==>
          && Fair(k, run[0], r) && KernelTheorems.Safe(k, run[0])
          && (KernelTheorems.StepOk(k, run[0]); FairRun(KernelTheorems.Apply(k, run[0]), run[1..], r)))
  }

  /** The state after the run, the messages sent to r, and the number of receives r began */
  ghost function Log(k: Kernel, run: seq<Entry>, r: nat): (Kernel, seq<Msg>, nat)
    requires Ok(k) && FairRun(k, run, r)
    decreases |run|
  {
    if run == [] then (k, [], 0)
    else
      var n := run[0];
      KernelTheorems.StepOk(k, n);
      var (k', sent, received) := Log(KernelTheorems.Apply(k, n), run[1..], r);
      (k',
       SentBy(k, n, r) + sent,
       (if Receives(k, n, r) then 1 else 0) + received)
  }

  /** The k-th receive returns the k-th message sent: after any run of a receiver that was
      not waiting, as many messages were sent as receives completed, none is pending beside the
      one in its fields, and those fields hold the last message, however many senders compete. */
  lemma {:induction false} ExactlyOnceInOrder(k: Kernel, run: seq<Entry>, r: nat)
    requires Ok(k) && FairRun(k, run, r) && !k.envs[r].recving
    ensures var (k', sent, received) := Log(k, run, r);
            && |k'.envs| == NENV
            && |sent| == (if k'.envs[r].recving then received - 1 else received)
            && (sent != [] ==> MsgOf(k'.envs[r]) == sent[|sent| - 1])
  {
    LogTracksFields(k, run, r);
  }

  lemma {:induction false} LogTracksFields(k: Kernel, run: seq<Entry>, r: nat)
    requires Ok(k) && FairRun(k, run, r) && Waits(k.envs[r])
    ensures var (k', sent, received) := Log(k, run, r);
            |k'.envs| == NENV && Tracks(k.envs[r], k'.envs[r], sent, received)
    decreases |run|
  {
    if run != [] {
      var k1 := KernelTheorems.Apply(k, run[0]);
      LogUnfolds(k, run, r);
      IpcStep(k, run[0], r);
      LogTracksFields(k1, run[1..], r);
      var (k', sent, received) := Log(k1, run[1..], r);
      TracksMore(k.envs[r], k1.envs[r], k'.envs[r], SentBy(k, run[0], r), if Receives(k, run[0], r) then 1 else 0, sent, received);
    }
  }

  /** From a to b the environment was sent these messages and began n receives. */
  predicate Tracks(a: Env, b: Env, sent: seq<Msg>, n: nat) {
    && Waits(b)
    && |sent| + (if b.recving then 1 else 0) == n + (if a.recving then 1 else 0)
    && if sent == [] then MsgOf(b) == MsgOf(a) && b.tf == a.tf else MsgOf(b) == sent[|sent| - 1] && b.tf.eax == 0
  }

  lemma TracksMore(a: Env, b: Env, c: Env, first: seq<Msg>, n: nat, sent: seq<Msg>, m: nat)
    requires Waits(b) && Tracks(b, c, sent, m) && |first| <= 1
    requires if first != [] then n == 0 && a.recving && !b.recving && MsgOf(b) == first[0] && b.tf.eax == 0
             else MsgOf(b) == MsgOf(a) && b.tf == a.tf && if n == 1 then !a.recving && b.recving else n == 0 && b.recving == a.recving
    ensures Tracks(a, c, first + sent, n + m)
  {
  }

  lemma {:induction false} LogUnfolds(k: Kernel, run: seq<Entry>, r: nat)
    requires Ok(k) && FairRun(k, run, r) && run != []
    ensures var n := run[0]; var k1 := KernelTheorems.Apply(k, n);
            && Ok(k1) && FairRun(k1, run[1..], r)
            && var (k', sent, received) := Log(k1, run[1..], r);
               Log(k, run, r) == (k', SentBy(k, n, r) + sent, (if Receives(k, n, r) then 1 else 0) + received)
  {
    KernelTheorems.StepOk(k, run[0]);
  }

  /** A send succeeds only on a waiting receiver; otherwise it changes nothing at all. So no
      sender overwrites a message the receiver has not asked to replace. */
  lemma FailedSendChangesNothing(k: Kernel, cur: nat, envid: int, value: nat, srcva: nat, perm: Perm)
    requires Ok(k) && KernelTheorems.Live(k, cur)
    ensures var (r, k') := SysIpcTrySend(k, cur, envid, value, srcva, perm);
            var dst := Envid2Env(k, cur, envid, false);
            && (r != 0 ==> k' == k)
            && (r == 0 ==> dst.Some? && k.envs[dst.value].recving)
            && (r == -E_IPC_NOT_RECV <==> dst.Some? && !k.envs[dst.value].recving)
  {
    SendOk(k, cur, envid, value, srcva, perm);
  }

  // ----- lib/ipc.c -----

  /** ipc_send's argument: no page is written as an address that cannot be one. */
  function PageArgument(pg: Option<nat>): nat {
    if pg.Some? then pg.value else UTOP
  }

  datatype Outcome = Delivered(tries: nat) | Panicked(tries: nat) | Trying

  ghost predicate Ready(k: Kernel, cur: nat) {
    Ok(k) && cur < NENV && KernelTheorems.Live(k, cur)
  }

  /** The target is found but not waiting, and the try changes nothing. */
  ghost predicate NotWaiting(k: Kernel, cur: nat, to: int, value: nat, va: nat, perm: Perm) {
    Ready(k, cur) && SysIpcTrySend(k, cur, to, value, va, perm) == (-E_IPC_NOT_RECV, k)
  }

  ghost function Result(k: Kernel, cur: nat, to: int, value: nat, va: nat, perm: Perm): int
    requires Ready(k, cur)
  {
    SysIpcTrySend(k, cur, to, value, va, perm).0
  }

  method Try(k: Kernel, cur: nat, to: int, value: nat, va: nat, perm: Perm) returns (r: int)
    requires Ready(k, cur)
    ensures r == Result(k, cur, to, value, va, perm) && r <= 0 && (r == -E_IPC_NOT_RECV ==> NotWaiting(k, cur, to, value, va, perm))
  {
    FailedSendChangesNothing(k, cur, to, value, va, perm);
    r := SysIpcTrySend(k, cur, to, value, va, perm).0;
  }

  /** ipc_send: ks are the kernel states at its successive tries, with whatever others do in between. Every try
      but the last finds the target not waiting and changes nothing. */
  method IpcSend(ks: seq<Kernel>, cur: nat, to: int, value: nat, pg: Option<nat>, perm: Perm) returns (o: Outcome)
    requires forall i :: 0 <= i < |ks| ==> Ready(ks[i], cur)
    ensures !o.Trying? ==> o.tries < |ks|
    ensures forall i :: 0 <= i < (if o.Trying? then |ks| else o.tries) ==> NotWaiting(ks[i], cur, to, value, PageArgument(pg), perm)
    ensures o.Delivered? ==> Result(ks[o.tries], cur, to, value, PageArgument(pg), perm) == 0
    ensures o.Panicked? ==> Result(ks[o.tries], cur, to, value, PageArgument(pg), perm) !in {0, -E_IPC_NOT_RECV}
  {
    var va := if pg == Option.None then UTOP else pg.value;
    var i := 0;
    while i < |ks|
      invariant 0 <= i <= |ks|
      invariant forall j :: 0 <= j < i ==> NotWaiting(ks[j], cur, to, value, va, perm)
    {
      var r := Try(ks[i], cur, to, value, va, perm);
      if r < 0 && r != -E_IPC_NOT_RECV {
        return Panicked(i);
      } else if r != -E_IPC_NOT_RECV {
        return Delivered(i);
      }
      i := i + 1;
    }
    o := Trying;
  }

  /** A receive by r and what follows until r runs again without another receive: exactly one message was sent
      to r in between, it is the one r reads, and the call's result is 0. */
  lemma {:induction false} ReceiveReturnsItsMessage(k: Kernel, run: seq<Entry>, r: nat)
    requires Ok(k) && FairRun(k, run, r) && !k.envs[r].recving && run != [] && Receives(k, run[0], r)
    requires var (k', _, received) := Log(k, run, r); received == 1 && r < |k'.envs| && k'.envs[r].status == RUNNING
    ensures var (k', sent, _) := Log(k, run, r); |sent| == 1 && MsgOf(k'.envs[r]) == sent[0] && k'.envs[r].tf.eax == 0
  {
    LogTracksFields(k, run, r);
  }

  /** The run from k to k' is r's system call, with no other receive of r's, up to r's next turn. */
  ghost predicate TurnOf(k: Kernel, run: seq<Entry>, k': Kernel, r: nat, va: nat) {
    && Ok(k) && KernelTheorems.Live(k, r) && FairRun(k, run, r) && !k.envs[r].recving
    && run != [] && run[0] == KernelTheorems.Entry(r, KernelTheorems.Recv(va))
    && var (end, _, received) := Log(k, run, r); k' == end && received == 1 && r < |k'.envs| && k'.envs[r].status == RUNNING
  }

  predicate Unaligned(va: nat) { PGOFF(va) != 0 && va < UTOP }

  /** ipc_recv, called in k, with k' the state when the environment runs again: the system call's result is what the
      kernel has left in eax. Over any fair run to its next turn it returns the one message sent to it. */
  method IpcRecv(k: Kernel, k': Kernel, cur: nat, pg: Option<nat>, ghost run: seq<Entry>) returns (r: int, from: int, perm: Option<Perm>)
    requires Ok(k) && KernelTheorems.Live(k, cur) && cur < |k'.envs|
    ensures Unaligned(PageArgument(pg)) ==> r == -E_INVAL && from == 0 && perm == Option.None
    ensures !Unaligned(PageArgument(pg)) && k'.envs[cur].tf.eax >= 0 ==>
              r == k'.envs[cur].value && from == k'.envs[cur].from && perm == Option.Some(k'.envs[cur].perm)
    ensures !Unaligned(PageArgument(pg)) && TurnOf(k, run, k', cur, PageArgument(pg)) ==>
              var sent := Log(k, run, cur).1; |sent| == 1 && r == sent[0].value && from == sent[0].from && perm == Option.Some(k'.envs[cur].perm)
  {
    var va := if pg.Some? then pg.value else UTOP;
    r := SysIpcRecv(k, cur, va).0;
    if r >= 0 { r := k'.envs[cur].tf.eax; }
    from := if r >= 0 then k'.envs[cur].from else 0;
    perm := if r >= 0 then Option.Some(k'.envs[cur].perm) else Option.None;
    if r >= 0 { r := k'.envs[cur].value; }
    if !Unaligned(va) && TurnOf(k, run, k', cur, va) { ReceiveReturnsItsMessage(k, run, cur); }
  }

  // ----- rounds on one CPU -----

  /** r receives and its CPU goes to s. */
  function Ask(r: nat, s: nat, rest: seq<Entry>): seq<Entry> {
    [KernelTheorems.Entry(r, KernelTheorems.Recv(UTOP))] + ([KernelTheorems.Entry(r, KernelTheorems.Switch(s))] + rest)
  }

  /** s sends and the CPU goes back to r. */
  function Answer(r: nat, s: nat, id: int, value: nat, rest: seq<Entry>): seq<Entry> {
    [KernelTheorems.Entry(s, KernelTheorems.TrySend(id, value, UTOP, NO_PERM))] + ([KernelTheorems.Entry(s, KernelTheorems.Switch(r))] + rest)
  }

  function Rounds(r: nat, s: nat, id: int, values: seq<nat>): seq<Entry> {
    if values == [] then [] else Ask(r, s, Answer(r, s, id, values[0], Rounds(r, s, id, values[1..])))
  }

  /** The run from k is fair to r, ends in k', sends r these messages and has r begin n receives. */
  ghost predicate Runs(k: Kernel, run: seq<Entry>, r: nat, k': Kernel, msgs: seq<Msg>, n: nat)
    requires Ok(k)
  {
    FairRun(k, run, r) && Log(k, run, r) == (k', msgs, n)
  }

  /** One entry in front of a fair run */
  lemma {:induction false} FairStep(k: Kernel, run: seq<Entry>, r: nat, k': Kernel, msgs: seq<Msg>, c: nat)
    requires Ok(k) && KernelTheorems.Live(k, r) && run != [] && Fair(k, run[0], r) && KernelTheorems.Safe(k, run[0])
    requires Ok(KernelTheorems.Apply(k, run[0])) && Runs(KernelTheorems.Apply(k, run[0]), run[1..], r, k', msgs, c)
    ensures Runs(k, run, r, k', SentBy(k, run[0], r) + msgs, (if Receives(k, run[0], r) then 1 else 0) + c)
  {
    FairCons(k, run, r);
    LogUnfolds(k, run, r);
  }

  lemma {:induction false} FairCons(k: Kernel, run: seq<Entry>, r: nat)
    requires Ok(k) && KernelTheorems.Live(k, r) && run != [] && Fair(k, run[0], r) && KernelTheorems.Safe(k, run[0])
    requires Ok(KernelTheorems.Apply(k, run[0])) && FairRun(KernelTheorems.Apply(k, run[0]), run[1..], r)
    ensures FairRun(k, run, r)
  {
  }

  /** r runs and waits for nothing, s can run. */
  ghost predicate AtRest(k: Kernel, r: nat, s: nat) {
    && Ok(k) && r < NENV && s < NENV && r != s
    && k.envs[r].status == RUNNING && !k.envs[r].recving && k.envs[s].status == RUNNABLE
  }

  /** s runs, r waits. */
  ghost predicate Waiting(k: Kernel, r: nat, s: nat) {
    && Ok(k) && r < NENV && s < NENV && r != s
    && k.envs[r].status == NOT_RUNNABLE && k.envs[r].recving && k.envs[s].status == RUNNING
  }

  predicate SameIds(k: Kernel, k': Kernel, r: nat, s: nat)
    requires |k.envs| == |k'.envs| == NENV && r < NENV && s < NENV
  {
    k'.envs[r].id == k.envs[r].id && k'.envs[s].id == k.envs[s].id
  }

  lemma BlockAndLeave(k: Kernel, r: nat, s: nat)
    requires AtRest(k, r, s)
    ensures var k1 := SysIpcRecv(k, r, UTOP).1;
            && Ok(k1) && KernelTheorems.Live(k1, r) && k1.envs[r].status == NOT_RUNNABLE
            && var k2 := KernelTheorems.SysSwitch(k1, r, s); Waiting(k2, r, s) && SameIds(k, k2, r, s)
  {
    var k1 := SysIpcRecv(k, r, UTOP).1;
    KernelTheorems.StatusOk(k, r, k1.envs[r]);
    KernelTheorems.SwitchOk(k1, r, s);
  }

  lemma UtopReachable(m: Mem, e: nat)
    requires Inv(m) && SharedAboveUtop(m) && e in m.dirs
    ensures InRange(m, m.dirs[e], PDX(UTOP), PTX(UTOP))
  {
    DirIsPlain(m, e);
    assert At(m, m.dirs[e], UTOPX) == UpperEntry(m, e, UTOPX);
  }

  /** A word sent to a waiting r arrives. */
  lemma WordArrives(k: Kernel, r: nat, s: nat, value: nat)
    requires Waiting(k, r, s)
    ensures var (c, k') := SysIpcTrySend(k, s, k.envs[r].id, value, UTOP, NO_PERM);
            && c == 0 && Ok(k') && SendPlan(k, s, k.envs[r].id, UTOP, NO_PERM) == Option.None
            && k'.envs == k.envs[r := Deliver(k.envs[r], k.envs[s].id, value)]
  {
    UtopReachable(k.mem, s);
    SendFollowsPlan(k, s, k.envs[r].id, value, UTOP, NO_PERM);
    SendOk(k, s, k.envs[r].id, value, UTOP, NO_PERM);
  }

  lemma ComeBack(k: Kernel, r: nat, s: nat)
    requires Ok(k) && r < NENV && s < NENV && r != s && k.envs[r].status == RUNNABLE && !k.envs[r].recving
    requires k.envs[s].status == RUNNING
    ensures var k' := KernelTheorems.SysSwitch(k, s, r); AtRest(k', r, s) && SameIds(k, k', r, s)
  {
    KernelTheorems.SwitchOk(k, s, r);
  }

  lemma StepSwitch(k: Kernel, e: nat, to: nat, rest: seq<Entry>, r: nat, k': Kernel, msgs: seq<Msg>, c: nat)
    requires Ok(k) && e < NENV && KernelTheorems.Live(k, r) && KernelTheorems.Live(k, e)
    requires Ok(KernelTheorems.SysSwitch(k, e, to)) && Runs(KernelTheorems.SysSwitch(k, e, to), rest, r, k', msgs, c)
    ensures Runs(k, [KernelTheorems.Entry(e, KernelTheorems.Switch(to))] + rest, r, k', msgs, c)
  {
    var run := [KernelTheorems.Entry(e, KernelTheorems.Switch(to))] + rest;
    assert run[1..] == rest && [] + msgs == msgs;
    FairStep(k, run, r, k', msgs, c);
  }

  lemma StepSend(k: Kernel, r: nat, s: nat, value: nat, rest: seq<Entry>, k': Kernel, msgs: seq<Msg>, c: nat)
    requires Waiting(k, r, s) && Ok(SysIpcTrySend(k, s, k.envs[r].id, value, UTOP, NO_PERM).1)
    requires Runs(SysIpcTrySend(k, s, k.envs[r].id, value, UTOP, NO_PERM).1, rest, r, k', msgs, c)
    ensures Runs(k, [KernelTheorems.Entry(s, KernelTheorems.TrySend(k.envs[r].id, value, UTOP, NO_PERM))] + rest, r, k',
                 [Msg(value, k.envs[s].id)] + msgs, c)
  {
    var run := [KernelTheorems.Entry(s, KernelTheorems.TrySend(k.envs[r].id, value, UTOP, NO_PERM))] + rest;
    assert run[1..] == rest;
    WordIsFair(k, r, s, value);
    FairStep(k, run, r, k', msgs, c);
  }

  lemma WordIsFair(k: Kernel, r: nat, s: nat, value: nat)
    requires Waiting(k, r, s)
    ensures var n := KernelTheorems.Entry(s, KernelTheorems.TrySend(k.envs[r].id, value, UTOP, NO_PERM));
            && Fair(k, n, r) && KernelTheorems.Safe(k, n) && SentBy(k, n, r) == [Msg(value, k.envs[s].id)] && !Receives(k, n, r)
            && KernelTheorems.Apply(k, n) == SysIpcTrySend(k, s, k.envs[r].id, value, UTOP, NO_PERM).1
  {
    WordArrives(k, r, s, value);
  }

  lemma StepRecv(k: Kernel, r: nat, s: nat, rest: seq<Entry>, k': Kernel, msgs: seq<Msg>, c: nat)
    requires AtRest(k, r, s) && Ok(SysIpcRecv(k, r, UTOP).1) && Runs(SysIpcRecv(k, r, UTOP).1, rest, r, k', msgs, c)
    ensures Runs(k, [KernelTheorems.Entry(r, KernelTheorems.Recv(UTOP))] + rest, r, k', msgs, c + 1)
  {
    var run := [KernelTheorems.Entry(r, KernelTheorems.Recv(UTOP))] + rest;
    assert run[1..] == rest && [] + msgs == msgs;
    FairStep(k, run, r, k', msgs, c);
  }

  /** The sender's half of a round, in front of the rounds that follow */
  lemma SendingHalf(k: Kernel, k3: Kernel, k4: Kernel, r: nat, s: nat, value: nat, rest: seq<Entry>, k': Kernel, msgs: seq<Msg>, c: nat)
    requires Waiting(k, r, s) && k3 == SysIpcTrySend(k, s, k.envs[r].id, value, UTOP, NO_PERM).1
    requires Ok(k3) && KernelTheorems.Live(k3, s) && KernelTheorems.Live(k3, r) && k4 == KernelTheorems.SysSwitch(k3, s, r)
    requires Ok(k4) && Runs(k4, rest, r, k', msgs, c)
    ensures Runs(k, Answer(r, s, k.envs[r].id, value, rest), r, k', [Msg(value, k.envs[s].id)] + msgs, c)
  {
    var n := KernelTheorems.Entry(s, KernelTheorems.Switch(r));
    StepSwitch(k3, s, r, rest, r, k', msgs, c);
    StepSend(k, r, s, value, [n] + rest, k', msgs, c);
  }

  lemma ReceivingHalf(k: Kernel, k1: Kernel, k2: Kernel, r: nat, s: nat, rest: seq<Entry>, k': Kernel, msgs: seq<Msg>, c: nat)
    requires AtRest(k, r, s) && k1 == SysIpcRecv(k, r, UTOP).1 && Ok(k1) && KernelTheorems.Live(k1, r)
    requires k2 == KernelTheorems.SysSwitch(k1, r, s) && Ok(k2) && Runs(k2, rest, r, k', msgs, c)
    ensures Runs(k, Ask(r, s, rest), r, k', msgs, c + 1)
  {
    var n := KernelTheorems.Entry(r, KernelTheorems.Switch(s));
    StepSwitch(k1, r, s, rest, r, k', msgs, c);
    StepRecv(k, r, s, [n] + rest, k', msgs, c);
  }

  /** The states of one round: r blocks and its CPU goes to s, s sends and the CPU comes back. */
  ghost predicate RoundOf(k: Kernel, k1: Kernel, k2: Kernel, k3: Kernel, k4: Kernel, r: nat, s: nat, value: nat) {
    && AtRest(k, r, s) && k1 == SysIpcRecv(k, r, UTOP).1
    && Ok(k1) && KernelTheorems.Live(k1, r) && k2 == KernelTheorems.SysSwitch(k1, r, s)
    && Waiting(k2, r, s) && k3 == SysIpcTrySend(k2, s, k2.envs[r].id, value, UTOP, NO_PERM).1
    && Ok(k3) && KernelTheorems.Live(k3, s) && KernelTheorems.Live(k3, r) && k4 == KernelTheorems.SysSwitch(k3, s, r)
    && AtRest(k4, r, s) && SameIds(k, k2, r, s) && SameIds(k, k4, r, s)
  }

  lemma RoundStates(k: Kernel, r: nat, s: nat, value: nat) returns (k1: Kernel, k2: Kernel, k3: Kernel, k4: Kernel)
    requires AtRest(k, r, s)
    ensures RoundOf(k, k1, k2, k3, k4, r, s, value)
  {
    BlockAndLeave(k, r, s);
    k1 := SysIpcRecv(k, r, UTOP).1;
    k2 := KernelTheorems.SysSwitch(k1, r, s);
    WordArrives(k2, r, s, value);
    k3 := SysIpcTrySend(k2, s, k2.envs[r].id, value, UTOP, NO_PERM).1;
    ComeBack(k3, r, s);
    k4 := KernelTheorems.SysSwitch(k3, s, r);
  }

  lemma RoundAdds(k: Kernel, k1: Kernel, k2: Kernel, k3: Kernel, k4: Kernel, r: nat, s: nat, value: nat, rest: seq<Entry>,
                  k': Kernel, msgs: seq<Msg>, c: nat)
    requires RoundOf(k, k1, k2, k3, k4, r, s, value) && Runs(k4, rest, r, k', msgs, c)
    ensures Runs(k, Ask(r, s, Answer(r, s, k.envs[r].id, value, rest)), r, k', [Msg(value, k.envs[s].id)] + msgs, c + 1)
  {
    SendingHalf(k2, k3, k4, r, s, value, rest, k', msgs, c);
    ReceivingHalf(k, k1, k2, r, s, Answer(r, s, k.envs[r].id, value, rest), k', [Msg(value, k.envs[s].id)] + msgs, c);
  }

  lemma OneRound(k: Kernel, r: nat, s: nat, value: nat) returns (k4: Kernel)
    requires AtRest(k, r, s)
    ensures AtRest(k4, r, s) && SameIds(k, k4, r, s)
    ensures forall rest, k', msgs, c: nat :: Runs(k4, rest, r, k', msgs, c) ==>
              Runs(k, Ask(r, s, Answer(r, s, k.envs[r].id, value, rest)), r, k', [Msg(value, k.envs[s].id)] + msgs, c + 1)
  {
    var k1, k2, k3;
    k1, k2, k3, k4 := RoundStates(k, r, s, value);
    forall rest, k', msgs, c: nat | Runs(k4, rest, r, k', msgs, c)
      ensures Runs(k, Ask(r, s, Answer(r, s, k.envs[r].id, value, rest)), r, k', [Msg(value, k.envs[s].id)] + msgs, c + 1)
    {
      RoundAdds(k, k1, k2, k3, k4, r, s, value, rest, k', msgs, c);
    }
  }

  function Messages(values: seq<nat>, from: int): seq<Msg> {
    if values == [] then [] else [Msg(values[0], from)] + Messages(values[1..], from)
  }

  lemma NoRounds(k: Kernel, r: nat)
    requires Ok(k) && KernelTheorems.Live(k, r)
    ensures Runs(k, [], r, k, [], 0)
  {
  }

  /** Any number of rounds is a fair run, in which r gets every message of s, in order. */
  lemma {:induction false} RoundsDeliver(k: Kernel, r: nat, s: nat, values: seq<nat>) returns (k': Kernel)
    requires AtRest(k, r, s)
    ensures Runs(k, Rounds(r, s, k.envs[r].id, values), r, k', Messages(values, k.envs[s].id), |values|)
    decreases |values|
  {
    if values == [] {
      NoRounds(k, r);
      return k;
    }
    var k4 := OneRound(k, r, s, values[0]);
    k' := RoundsDeliver(k4, r, s, values[1..]);
  }

  // ----- what the assumption is for -----

  /** A waiting receiver made runnable by its parent runs on with the old message: its receive completes,
      though nothing was sent. */
  lemma ForcedReceiverReadsStale(k: Kernel, parent: nat, r: nat)
    requires Ok(k) && KernelTheorems.Live(k, parent) && KernelTheorems.Live(k, r) && parent != r
    requires k.envs[r].parent == k.envs[parent].id && k.envs[r].recving && k.envs[r].status == NOT_RUNNABLE
    ensures var n1 := KernelTheorems.Entry(parent, KernelTheorems.SetStatus(k.envs[r].id, RUNNABLE));
            var n2 := KernelTheorems.Entry(parent, KernelTheorems.Switch(r));
            var k1 := KernelTheorems.Apply(k, n1);
            && Ok(k1) && KernelTheorems.Live(k1, parent) && Sent(k, n1, r) == Option.None && Sent(k1, n2, r) == Option.None
            && var k2 := KernelTheorems.Apply(k1, n2);
            && Ok(k2) && k2.envs[r].status == RUNNING && k2.envs[r].recving && k2.envs[r].tf == k.envs[r].tf
            && MsgOf(k2.envs[r]) == MsgOf(k.envs[r])
  {
    KernelTheorems.SetStatusOk(k, parent, k.envs[r].id, RUNNABLE);
    var k1 := SysEnvSetStatus(k, parent, k.envs[r].id, RUNNABLE).1;
    KernelTheorems.SwitchOk(k1, parent, r);
  }

  /** A send without a page leaves the permission of the last page received, which ipc_recv then stores. */
  lemma WordLeavesOldPermission(k: Kernel, cur: nat, envid: int, value: nat, srcva: nat, perm: Perm)
    requires Ok(k) && KernelTheorems.Live(k, cur) && SysIpcTrySend(k, cur, envid, value, srcva, perm).0 == 0
    ensures var k' := SysIpcTrySend(k, cur, envid, value, srcva, perm).1; var dst := Envid2Env(k, cur, envid, false).value;
            k'.envs[dst].perm == if srcva >= UTOP then k.envs[dst].perm else perm
  {
    SendOk(k, cur, envid, value, srcva, perm);
  }
}
