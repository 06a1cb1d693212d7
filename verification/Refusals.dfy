/** When system calls refuse and with which code, as their documentation lists it (kern/syscall.c, kern/env.c:70-109, inc/error.h),
    and the names %e prints for the codes. Addresses, codes and bits are given as numbers here. */
module Refusals {
  import opened Paging
  import opened PagingInvariant
  import opened Kernel
  import opened KernelRuns
  import opened KernelTheorems
  import Formatting
  import Sinks
  import UserMemory

  /** The id means slot e to the caller: 0 is itself, and with the check only itself and its children can be meant. */
  predicate Finds(k: Kernel, cur: nat, envid: int, check: bool, e: nat)
    requires cur < |k.envs|
  {
    e < |k.envs| && k.envs[e].status != FREE
    && if envid == 0 then e == cur
       else k.envs[e].id == envid && (check ==> e == cur || k.envs[e].parent == k.envs[cur].id)
  }

  ghost predicate NoneFound(k: Kernel, cur: nat, envid: int, check: bool)
    requires cur < |k.envs|
  {
    forall e: nat :: !Finds(k, cur, envid, check, e)
  }

  /** envid2env finds the environment if there is one, and there is at most one. */
  lemma EnvidFinds(k: Kernel, cur: nat, envid: int, check: bool)
    requires Ok(k) && Live(k, cur)
    ensures var o := Envid2Env(k, cur, envid, check);
            && (o == Option.None <==> NoneFound(k, cur, envid, check))
            && (forall e: nat :: Finds(k, cur, envid, check, e) <==> o == Option.Some(e))
  {
    var o := Envid2Env(k, cur, envid, check);
    if o.Some? { assert Finds(k, cur, envid, check, o.value); }
  }

  predicate BadAddress(va: nat) { va >= 0xeec00000 || va % 4096 != 0 }

  predicate BadPerm(perm: Perm) { !perm.p || !perm.u || perm.other != {} }

  /** There is no page for a page table that an address needs. */
  predicate NoTable(m: Mem, e: nat, va: nat, spare: nat) { !Pde(m, e, va / 4096 / 1024).perm.p && |m.free| <= spare }

  lemma Indices(va: nat)
    requires va < 0xeec00000
    ensures PDX(va) == va / 4096 / 1024 && PTX(va) == va / 4096 % 1024
  {
    ByPages(va);
  }

  lemma ExoforkRefuses(k: Kernel, cur: nat)
    requires Ok(k) && Live(k, cur)
    ensures var (r, k') := SysExofork(k, cur);
            && (r == -5 <==> forall e: nat :: e < NENV ==> k.envs[e].status != FREE)
            && (r == -4 <==> k.mem.free == [] && exists e: nat :: e < NENV && k.envs[e].status == FREE)
            && (r == -5 || r == -4 || r > 0) && (r < 0 ==> k' == k)
  {
    ExoforkOk(k, cur);
    if k.efree != [] { assert k.efree[0] in k.efree; }
  }

  lemma SetStatusRefuses(k: Kernel, cur: nat, envid: int, st: Status)
    requires Ok(k) && Live(k, cur)
    ensures var (r, k') := SysEnvSetStatus(k, cur, envid, st);
            && (r == -3 <==> st != RUNNABLE && st != NOT_RUNNABLE)
            && (r == -2 <==> (st == RUNNABLE || st == NOT_RUNNABLE) && NoneFound(k, cur, envid, true))
            && (r == -3 || r == -2 || r == 0) && (r < 0 ==> k' == k)
            && (forall e: nat :: r == 0 && Finds(k, cur, envid, true, e) ==> k' == k.(envs := k.envs[e := k.envs[e].(status := st)]))
  {
    EnvidFinds(k, cur, envid, true);
  }

  /** A sys_page_alloc that fails loses the page it took if it was the last one and a page table was needed. */
  lemma AllocateRefuses(k: Kernel, cur: nat, envid: int, va: nat, perm: Perm)
    requires Ok(k) && Live(k, cur)
    ensures var (r, k') := SysPageAlloc(k, cur, envid, va, perm);
            && (r == -2 <==> NoneFound(k, cur, envid, true))
            && (r == -3 <==> !NoneFound(k, cur, envid, true) && (BadAddress(va) || BadPerm(perm)))
            && (r == -4 <==> !BadAddress(va) && !BadPerm(perm) && exists e: nat :: Finds(k, cur, envid, true, e) && (k.mem.free == [] || NoTable(k.mem, e, va, 1)))
            && (r == -2 || r == -3 || r == -4 || r == 0) && (r == -2 || r == -3 ==> k' == k) && k'.envs == k.envs
  {
    EnvidFinds(k, cur, envid, true);
    var o := Envid2Env(k, cur, envid, true);
    if o.Some? && !BadAddress(va) && !BadPerm(perm) && k.mem.free != [] {
      assert Finds(k, cur, envid, true, o.value);
      UserIndex(va);
      Indices(va);
      AllocAndMapOk(k.mem, o.value, PDX(va), PTX(va), perm);
    }
  }

  /** sys_page_map does not see that nothing is mapped at srcva if there is a page table: the entry's page is then page 0. */
  lemma MapRefuses(k: Kernel, cur: nat, sid: int, sva: nat, did: int, dva: nat, perm: Perm)
    requires Ok(k) && Live(k, cur)
    ensures var (r, k') := SysPageMap(k, cur, sid, sva, did, dva, perm);
            && (r == -2 <==> NoneFound(k, cur, sid, true) || NoneFound(k, cur, did, true))
            && (r == -2 || r == -3 || r == -4 || r == 0) && (r < 0 ==> k' == k) && k'.envs == k.envs
            && (forall s: nat, d: nat :: Finds(k, cur, sid, true, s) && Finds(k, cur, did, true, d) ==>
                  && (r == -3 <==> MapIsBad(k.mem, s, sva, dva, perm))
                  && (r == -4 <==> !MapIsBad(k.mem, s, sva, dva, perm) && NoTable(k.mem, d, dva, 0)))
  {
    EnvidFinds(k, cur, sid, true);
    EnvidFinds(k, cur, did, true);
    PageMapOk(k, cur, sid, sva, did, dva, perm);
    MapFollowsPlan(k, cur, sid, sva, did, dva, perm);
    var s, d := Envid2Env(k, cur, sid, true), Envid2Env(k, cur, did, true);
    if s.Some? && d.Some? { MapCodes(k, cur, sid, sva, did, dva, perm, s.value, d.value); }
  }

  predicate MapIsBad(m: Mem, s: nat, sva: nat, dva: nat, perm: Perm) {
    || BadAddress(sva) || BadAddress(dva) || BadPerm(perm)
    || !Pde(m, s, sva / 4096 / 1024).perm.p
    || (perm.w && !PteOf(m, s, sva / 4096 / 1024, sva / 4096 % 1024).perm.w)
  }

  lemma MapCodes(k: Kernel, cur: nat, sid: int, sva: nat, did: int, dva: nat, perm: Perm, s: nat, d: nat)
    requires Ok(k) && Live(k, cur) && Envid2Env(k, cur, sid, true) == Option.Some(s) && Envid2Env(k, cur, did, true) == Option.Some(d)
    ensures var r := SysPageMap(k, cur, sid, sva, did, dva, perm).0;
            && (r == -3 <==> MapIsBad(k.mem, s, sva, dva, perm))
            && (r == -4 <==> !MapIsBad(k.mem, s, sva, dva, perm) && NoTable(k.mem, d, dva, 0))
            && (r == -3 || r == -4 || r == 0)
  {
    if !BadAddress(sva) && !BadAddress(dva) {
      Indices(sva);
      Indices(dva);
      PageMapOk(k, cur, sid, sva, did, dva, perm);
      MapFollowsPlan(k, cur, sid, sva, did, dva, perm);
      NoTableForSource(k, cur, sid, sva, did, dva, perm, s, d);
    }
  }

  /** Without a plan the call answers -E_INVAL. */
  lemma NoTableForSource(k: Kernel, cur: nat, sid: int, sva: nat, did: int, dva: nat, perm: Perm, s: nat, d: nat)
    requires Ok(k) && Live(k, cur) && Envid2Env(k, cur, sid, true) == Option.Some(s) && Envid2Env(k, cur, did, true) == Option.Some(d)
    requires !BadAddress(sva) && !BadAddress(dva)
    ensures MapPlan(k, cur, sid, sva, did, dva, perm) == Option.None ==> SysPageMap(k, cur, sid, sva, did, dva, perm) == (-3, k)
  {
    UserIndex(sva);
    UserIndex(dva);
    PagingOps.RangeOk(k.mem, s, PDX(sva), PTX(sva));
    PagingOps.RangeOk(k.mem, d, PDX(dva), PTX(dva));
    assert k.mem.frame[k.mem.dirs[s]][PDX(sva)] == Pde(k.mem, s, PDX(sva));
  }

  lemma UnmapRefuses(k: Kernel, cur: nat, envid: int, va: nat)
    requires Ok(k) && Live(k, cur)
    ensures var (r, k') := SysPageUnmap(k, cur, envid, va);
            && (r == -2 <==> NoneFound(k, cur, envid, true))
            && (r == -3 <==> !NoneFound(k, cur, envid, true) && BadAddress(va))
            && (r == -2 || r == -3 || r == 0) && (r < 0 ==> k' == k) && k'.envs == k.envs
  {
    EnvidFinds(k, cur, envid, true);
    UnmapOk(k, cur, envid, va);
  }

  lemma DestroyRefuses(k: Kernel, cur: nat, envid: int)
    requires Ok(k) && Live(k, cur)
    ensures var (r, k') := SysEnvDestroy(k, cur, envid);
            && (r == -2 <==> NoneFound(k, cur, envid, true)) && (r == -2 || r == 0) && (r < 0 ==> k' == k)
            && (forall e: nat :: r == 0 && Finds(k, cur, envid, true, e) ==>
                  |k'.envs| == |k.envs| && k'.envs[e].status == if e != cur && k.envs[e].status == RUNNING then DYING else FREE)
  {
    EnvidFinds(k, cur, envid, true);
  }

  lemma RecvRefuses(k: Kernel, cur: nat, va: nat)
    requires Ok(k) && Live(k, cur)
    ensures var (r, k') := SysIpcRecv(k, cur, va);
            (r == -3 <==> va < 0xeec00000 && va % 4096 != 0) && (r == -3 || r == 0) && (r < 0 ==> k' == k)
  {
  }

  /** What makes a send of a page unacceptable. Unlike the other calls it takes an unaligned address. */
  predicate SendIsBad(m: Mem, cur: nat, srcva: nat, perm: Perm) {
    srcva < 0xeec00000
    && (|| BadPerm(perm) || !Pde(m, cur, srcva / 4096 / 1024).perm.p
        || (perm.w && !PteOf(m, cur, srcva / 4096 / 1024, srcva / 4096 % 1024).perm.w))
  }

  lemma SendRefuses(k: Kernel, cur: nat, envid: int, value: nat, srcva: nat, perm: Perm)
    requires Ok(k) && Live(k, cur)
    ensures var (r, k') := SysIpcTrySend(k, cur, envid, value, srcva, perm);
            && (r == -2 <==> NoneFound(k, cur, envid, false))
            && (r < 0 ==> k' == k)
            && (forall e: nat :: Finds(k, cur, envid, false, e) ==>
                  && (r == -7 <==> !k.envs[e].recving)
                  && (r == -3 <==> k.envs[e].recving && SendIsBad(k.mem, cur, srcva, perm))
                  && (r == -4 <==> k.envs[e].recving && srcva < 0xeec00000 && !SendIsBad(k.mem, cur, srcva, perm)
                                   && k.envs[e].dstva < 0xeec00000 && NoTable(k.mem, e, k.envs[e].dstva, 0)))
            && (r == -2 || r == -7 || r == -3 || r == -4 || r == 0 || (r == PANIC && srcva >= 0xeec00000))
  {
    EnvidFinds(k, cur, envid, false);
    var o := Envid2Env(k, cur, envid, false);
    SendOk(k, cur, envid, value, srcva, perm);
    SendFollowsPlan(k, cur, envid, value, srcva, perm);
    if o.Some? && k.envs[o.value].recving { SendCodes(k, cur, envid, value, srcva, perm, o.value); }
  }

  lemma SendCodes(k: Kernel, cur: nat, envid: int, value: nat, srcva: nat, perm: Perm, e: nat)
    requires Ok(k) && Live(k, cur) && Envid2Env(k, cur, envid, false) == Option.Some(e) && k.envs[e].recving
    ensures var r := SysIpcTrySend(k, cur, envid, value, srcva, perm).0;
            && (r == -3 <==> SendIsBad(k.mem, cur, srcva, perm))
            && (r == -4 <==> srcva < 0xeec00000 && !SendIsBad(k.mem, cur, srcva, perm)
                             && k.envs[e].dstva < 0xeec00000 && NoTable(k.mem, e, k.envs[e].dstva, 0))
            && (r == -3 || r == -4 || r == 0 || (r == PANIC && srcva >= 0xeec00000))
  {
    if srcva < 0xeec00000 {
      Indices(srcva);
      if k.envs[e].dstva < 0xeec00000 { Indices(k.envs[e].dstva); }
      SendOk(k, cur, envid, value, srcva, perm);
      NoPlanIsInvalid(k, cur, envid, value, srcva, perm, e);
    }
  }

  lemma NoPlanIsInvalid(k: Kernel, cur: nat, envid: int, value: nat, srcva: nat, perm: Perm, e: nat)
    requires Ok(k) && Live(k, cur) && Envid2Env(k, cur, envid, false) == Option.Some(e) && k.envs[e].recving && srcva < 0xeec00000
    ensures var plan := SendPlan(k, cur, envid, srcva, perm); var r := SysIpcTrySend(k, cur, envid, value, srcva, perm).0;
            (plan == Option.None <==> SendIsBad(k.mem, cur, srcva, perm)) && (plan == Option.None ==> r == -3) && (plan != Option.None ==> r == 0 || r == -4)
  {
    Indices(srcva);
    UserIndex(srcva);
    PagingOps.RangeOk(k.mem, cur, PDX(srcva), PTX(srcva));
    assert k.mem.frame[k.mem.dirs[cur]][PDX(srcva)] == Pde(k.mem, cur, PDX(srcva));
    SendFollowsPlan(k, cur, envid, value, srcva, perm);
  }

  /** The names %e prints for these codes */
  lemma NamesOfErrors()
    ensures Formatting.ErrorText(-1) == "unspecified error" && Formatting.ErrorText(-2) == "bad environment"
    ensures Formatting.ErrorText(-3) == "invalid parameter" && Formatting.ErrorText(-4) == "out of memory"
    ensures Formatting.ErrorText(-5) == "out of environments" && Formatting.ErrorText(-6) == "segmentation fault"
    ensures Formatting.ErrorText(-7) == "env is not recving" && Formatting.ErrorText(-8) == "unexpected end of file"
    ensures Sinks.E_INVAL == 3 && UserMemory.E_FAULT == 6
    ensures forall v: int :: Formatting.ErrorText(v) == Formatting.ErrorText(-v)
  {
  }
}
