/** kern/env.c and kern/syscall.c as code: the environment table with its linked free list and the
    system calls, which check their arguments and then change environments and page tables in
    place. Each is proved to do what the function of the same name in Kernel says. */
module Syscall {
  import opened Paging
  import opened PagingInvariant
  import opened PagingOps
  import opened AddressSpaceTeardown
  import opened KernelHalfOfSpaces
  import opened Pmap
  import opened Kernel
  import Spec = Kernel

  const BLANK := Env(0, 0, FREE, false, 0, 0, 0, NO_PERM, Trapframe(0, [0, 0, 0, 0, 0, 0], 0, 0, 0), 0, 0)

  /** The free list from head on runs through these slots; a slot off the list keeps its old link. */
  ghost predicate Chain(head: int, link: seq<int>, list: seq<nat>) {
    && head == (if list == [] then NULL else list[0])
    && NoDup(list)
    && (forall i :: 0 <= i < |list| ==> list[i] < |link|)
    && (forall i :: 0 <= i < |list| ==> link[list[i]] == Next(list, i))
  }

  lemma PushSlot(head: int, link: seq<int>, list: seq<nat>, e: nat)
    requires Chain(head, link, list) && e < |link| && e !in list
    ensures Chain(e, link[e := head], [e] + list)
  {
    var all := [e] + list;
    forall i | 0 <= i < |all| ensures link[e := head][all[i]] == Next(all, i) {
      if i > 0 { assert list[i - 1] in list && link[list[i - 1]] == Next(list, i - 1); }
    }
  }

  lemma PopSlot(head: int, link: seq<int>, list: seq<nat>)
    requires Chain(head, link, list) && list != []
    ensures 0 <= head < |link| && Chain(link[head], link, list[1..])
  {
    var rest := list[1..];
    assert link[list[0]] == Next(list, 0);
    forall i | 0 <= i < |rest| ensures link[rest[i]] == Next(rest, i) {
      assert link[list[i + 1]] == Next(list, i + 1);
    }
  }

  /** page_remove in the address space of slot e */
  method Remove(mem: Memory, e: nat, va: nat)
    requires mem.Valid() && Inv(mem.View()) && e in mem.env_pgdir && va < UTOP
    modifies mem, mem.pp_ref, mem.pp_link, mem.ram
    ensures mem.Valid()
    ensures var m := old(mem.View()); InRange(m, m.dirs[e], PDX(va), PTX(va)) && mem.View() == Paging.PageRemove(m, m.dirs[e], PDX(va), PTX(va))
  {
    UserIndex(va);
    var d, t := PDX(va), PTX(va);
    SpaceReady(mem.View(), e, d, t);
    mem.PageRemove(mem.env_pgdir[e], d, t);
  }

  /** page_alloc and page_insert in sys_page_alloc; `full` when there is no page to begin with. When
      page_insert fails the page is not given back: the observer counts it as lost. */
  method AllocInto(mem: Memory, e: nat, va: nat, perm: Perm) returns (full: bool, ok: bool)
    requires mem.Valid() && Inv(mem.View()) && e in mem.env_pgdir && va < UTOP
    modifies mem.Footprint()
    ensures mem.Valid() && PDX(va) < UTOPX && PTX(va) < NPTENTRIES
    ensures full == (old(mem.free) == [])
    ensures full ==> mem.View() == old(mem.View())
    ensures !full ==> (ok, mem.View()) == AllocAndMap(old(mem.View()), e, PDX(va), PTX(va), perm)
  {
    UserIndex(va);
    var d, t := PDX(va), PTX(va);
    ghost var m := mem.View();
    var pp := mem.PageAlloc(true);
    full, ok := pp == NULL, false;
    if full { return; }
    FreshReady(m, e, d, t);
    ok := mem.PageInsert(mem.env_pgdir[e], pp, d, t, perm);
    if !ok { mem.lost := mem.lost + {pp}; }
    AllocatedIs(m, e, d, t, perm, ok, mem.View());
  }

  /** page_lookup: the page, or NULL, and whether its entry is writable */
  method Lookup(mem: Memory, e: nat, va: nat) returns (pp: int, w: bool)
    requires mem.Valid() && Inv(mem.View()) && e in mem.env_pgdir && va < UTOP
    modifies mem, mem.pp_ref, mem.pp_link, mem.ram
    ensures mem.Valid() && mem.View() == old(mem.View()) && InRange(mem.View(), mem.View().dirs[e], PDX(va), PTX(va))
    ensures var o := Paging.PageLookup(mem.View(), mem.View().dirs[e], PDX(va), PTX(va)); pp == if o == Option.None then NULL else o.value
    ensures pp != NULL ==> pp < mem.npages && pp !in mem.free && w == PteOf(mem.View(), e, PDX(va), PTX(va)).perm.w
  {
    UserIndex(va);
    var d, t := PDX(va), PTX(va);
    SpaceReady(mem.View(), e, d, t);
    var pt;
    pp, pt := mem.PageLookup(mem.env_pgdir[e], d, t);
    w := pt != NULL && mem.ram[pt][t].perm.w;
  }

  /** The walk of page_lookup at any address: false where KADDR or pa2page would panic */
  method Reachable(mem: Memory, pgdir: nat, d: nat, t: nat) returns (ok: bool)
    requires mem.Valid() && pgdir < mem.npages && d < NPTENTRIES && t < NPTENTRIES
    ensures ok == InRange(mem.View(), pgdir, d, t)
  {
    var pde := mem.ram[pgdir][d];
    if !pde.perm.p { return true; }
    if pde.ppn >= mem.npages { return false; }
    ok := mem.ram[pde.ppn][t].ppn < mem.npages;
  }

  /** page_insert in the address space of slot e */
  method Insert(mem: Memory, e: nat, pp: nat, va: nat, perm: Perm) returns (ok: bool)
    requires mem.Valid() && Inv(mem.View()) && e in mem.env_pgdir && va < UTOP && pp < mem.npages && pp !in mem.free
    modifies mem, mem.pp_ref, mem.pp_link, mem.ram
    ensures mem.Valid()
    ensures InRange(old(mem.View()), old(mem.View()).dirs[e], PDX(va), PTX(va))
    ensures (ok, mem.View()) == Paging.PageInsert(old(mem.View()), old(mem.View()).dirs[e], pp, PDX(va), PTX(va), perm)
  {
    UserIndex(va);
    var d, t := PDX(va), PTX(va);
    SpaceReady(mem.View(), e, d, t);
    ok := mem.PageInsert(mem.env_pgdir[e], pp, d, t, perm);
  }

  /** env_free's teardown of the address space of slot e */
  method FreeSpace(mem: Memory, e: nat)
    requires mem.Valid() && Inv(mem.View()) && e in mem.env_pgdir && mem.env_pgdir[e] < mem.npages
    modifies mem, mem.pp_ref, mem.pp_link, mem.ram
    ensures mem.Valid() && mem.View() == AddressSpaceTeardown.EnvFree(old(mem.View()), e)
  {
    mem.EnvFree(e);
  }

  /** What sys_page_map does to memory once both environments and addresses are checked */
  ghost predicate Shared(m: Mem, src: nat, srcva: nat, dst: nat, dstva: nat, perm: Perm, r: int, m': Mem)
    requires Inv(m) && src in m.dirs && dst in m.dirs && VaOk(srcva) && VaOk(dstva)
  {
    UserIndex(srcva);
    UserIndex(dstva);
    RangeOk(m, src, PDX(srcva), PTX(srcva));
    RangeOk(m, dst, PDX(dstva), PTX(dstva));
    var o := Paging.PageLookup(m, m.dirs[src], PDX(srcva), PTX(srcva));
    if o == Option.None || (perm.w && !PteOf(m, src, PDX(srcva), PTX(srcva)).perm.w) || !PermOk(perm) then r == -E_INVAL && m' == m
    else
      var (ok, m1) := Paging.PageInsert(m, m.dirs[dst], o.value, PDX(dstva), PTX(dstva), perm);
      r == (if ok then 0 else -E_NO_MEM) && m' == m1
  }

  /** The rest of sys_page_map */
  method ShareMapping(mem: Memory, src: nat, srcva: nat, dst: nat, dstva: nat, perm: Perm) returns (r: int)
    requires mem.Valid() && Inv(mem.View()) && src in mem.env_pgdir && dst in mem.env_pgdir && VaOk(srcva)
    requires VaOk(dstva)
    modifies mem, mem.pp_ref, mem.pp_link, mem.ram
    ensures mem.Valid() && Shared(old(mem.View()), src, srcva, dst, dstva, perm, r, mem.View())
  {
    var pp, w := Lookup(mem, src, srcva);
    if pp == NULL { return -E_INVAL; }
    if perm.w && !w { return -E_INVAL; }
    if !(perm.p && perm.u) { return -E_INVAL; }
    if perm.other != {} { return -E_INVAL; }
    var ok := Insert(mem, dst, pp, dstva, perm);
    r := if ok then 0 else -E_NO_MEM;
  }

  /** What sys_ipc_try_send does to memory when a page is sent */
  ghost predicate PageSent(k: Kernel, cur: nat, srcva: nat, dst: nat, perm: Perm, r: int, m': Mem)
    requires Ok(k) && cur < NENV && k.envs[cur].status != FREE && srcva < UTOP && dst < NENV
    requires k.envs[dst].status != FREE
  {
    UserIndex(srcva);
    RangeOk(k.mem, cur, PDX(srcva), PTX(srcva));
    DstIndex(k, dst);
    var m := k.mem;
    var va := k.envs[dst].dstva;
    var o := Paging.PageLookup(m, m.dirs[cur], PDX(srcva), PTX(srcva));
    if o == Option.None || (perm.w && !PteOf(m, cur, PDX(srcva), PTX(srcva)).perm.w) || !PermOk(perm) then r == -E_INVAL && m' == m
    else
      var (ok, m1) := Paging.PageInsert(m, m.dirs[dst], o.value, PDX(va), PTX(va), perm);
      r == (if ok then 0 else -E_NO_MEM) && m' == m1
  }

  /** The page part of sys_ipc_try_send */
  method SendPage(mem: Memory, cur: nat, srcva: nat, dst: nat, dstva: nat, perm: Perm, ghost k: Kernel) returns (r: int)
    requires mem.Valid() && k.mem == mem.View() && Ok(k) && cur < NENV && k.envs[cur].status != FREE && srcva < UTOP
    requires dst < NENV && k.envs[dst].status != FREE && k.envs[dst].dstva == dstva
    modifies mem.Footprint()
    ensures mem.Valid() && PageSent(k, cur, srcva, dst, perm, r, mem.View())
  {
    if !(perm.p && perm.u) { return -E_INVAL; }
    if perm.other != {} { return -E_INVAL; }
    var pp, w := Lookup(mem, cur, srcva);
    if pp == NULL { return -E_INVAL; }
    if perm.w && !w { return -E_INVAL; }
    DstReady(k, dst);
    var ok := mem.PageInsert(mem.env_pgdir[dst], pp, PDX(dstva), PTX(dstva), perm);
    r := if ok then 0 else -E_NO_MEM;
  }

  method SendTheirs(mem: Memory, cur: nat, srcva: nat, dst: nat, dstva: nat, perm: Perm, ghost k: Kernel) returns (r: int)
    requires mem.Valid() && k.mem == mem.View() && Ok(k) && cur < NENV && k.envs[cur].status != FREE && srcva < UTOP
    requires dst < NENV && k.envs[dst].status != FREE && k.envs[dst].dstva == dstva
    modifies mem, mem.pp_ref, mem.pp_link, mem.ram
    ensures mem.Valid() && PageSent(k, cur, srcva, dst, perm, r, mem.View())
  {
    r := SendPage(mem, cur, srcva, dst, dstva, perm, k);
  }

  lemma DstReady(k: Kernel, dst: nat)
    requires Ok(k) && dst < NENV && k.envs[dst].status != FREE
    ensures var pgdir := k.mem.dirs[dst]; var va := k.envs[dst].dstva;
            InRange(k.mem, pgdir, PDX(va), PTX(va)) && pgdir !in k.mem.free && MappedInUse(k.mem, pgdir, PDX(va), PTX(va))
  {
    var va := k.envs[dst].dstva;
    DstIndex(k, dst);
    Referenced(k.mem, Dir(dst));
    if va < UTOP {
      UserIndex(va);
      SpaceReady(k.mem, dst, PDX(va), PTX(va));
    } else {
      assert PDX(va) == UTOPX && PTX(va) == 0;
      UtopInUse(k.mem, dst);
    }
  }

  lemma UtopInUse(m: Mem, e: nat)
    requires Inv(m) && SharedAboveUtop(m) && e in m.dirs
    ensures MappedInUse(m, m.dirs[e], UTOPX, 0)
  {
    assert At(m, m.dirs[e], UTOPX) == UpperEntry(m, e, UTOPX);
    BootPageInUse(m, At(m, At(m, m.kdir, UTOPX).ppn, 0).ppn);
  }

  lemma SendDone(k: Kernel, cur: nat, envid: int, value: nat, srcva: nat, perm: Perm, dst: nat, r: int, k': Kernel)
    requires Ok(k) && cur < NENV && k.envs[cur].status != FREE
    requires Envid2Env(k, cur, envid, false) == Option.Some(dst) && k.envs[dst].recving
    requires k'.efree == k.efree
    requires if srcva < UTOP then PageSent(k, cur, srcva, dst, perm, r, k'.mem)
             else r == 0 && k'.mem == k.mem && InRange(k.mem, k.mem.dirs[cur], PDX(srcva), PTX(srcva))
    requires k'.envs == if r < 0 then k.envs
                        else k.envs[dst := Deliver(if srcva < UTOP then k.envs[dst].(perm := perm) else k.envs[dst], k.envs[cur].id, value)]
    ensures (r, k') == Spec.SysIpcTrySend(k, cur, envid, value, srcva, perm)
  {
  }

  class System {
    const mem: Memory
    const envs: array<Env>
    var env_free_list: int
    /** The env_link fields */
    var env_link: seq<int>

    ghost var efree: seq<nat>

    /** The table and its free list */
    ghost predicate TableValid()
      reads this
    {
      envs.Length == NENV && |env_link| == NENV && Chain(env_free_list, env_link, efree)
    }

    ghost predicate Valid()
      reads this, mem, mem.pp_ref, mem.pp_link, mem.ram
    {
      mem.Valid() && TableValid()
    }

    ghost function View(): Kernel
      reads this, mem, mem.pp_ref, mem.pp_link, mem.ram, envs
    {
      Kernel(mem.View(), envs[..], efree)
    }

    /** The environment table of a zeroed array, as env_init leaves it: all free, slot 0 first */
    constructor (mem: Memory)
      requires mem.Valid()
      ensures Valid() && this.mem == mem && fresh(envs)
      ensures envs[..] == seq(NENV, i => BLANK) && efree == seq(NENV, i => i)
    {
      this.mem := mem;
      envs := new Env[NENV](i => BLANK);
      env_link := seq(NENV, i => NULL);
      env_free_list := NULL;
      efree := [];
      new;
      EnvInit();
    }

    method EnvInit()
      requires TableValid() && efree == [] && forall i :: 0 <= i < NENV ==> envs[i] == BLANK
      modifies this`env_free_list, this`efree, this`env_link, envs
      ensures TableValid() && envs[..] == seq(NENV, i => BLANK) && efree == seq(NENV, i => i)
    {
      var i := NENV;
      while i > 0
        invariant 0 <= i <= NENV && TableValid() && forall j :: 0 <= j < NENV ==> envs[j] == BLANK
        invariant |efree| == NENV - i && forall j :: 0 <= j < |efree| ==> efree[j] == i + j
      {
        i := i - 1;
        envs[i] := envs[i].(id := 0);
        PutFree(i);
      }
    }

    /** Slot e goes to the front of the free list. */
    method PutFree(e: nat)
      requires TableValid() && e < NENV && e !in efree
      modifies this`env_free_list, this`efree, this`env_link
      ensures TableValid() && efree == [e] + old(efree)
    {
      PushSlot(env_free_list, env_link, efree, e);
      env_link := env_link[e := env_free_list];
      env_free_list := e;
      efree := [e] + efree;
    }

    /** The head of the free list is taken off; its link stays as it was. */
    method TakeFree()
      requires TableValid() && efree != []
      modifies this`env_free_list, this`efree
      ensures TableValid() && efree == old(efree)[1..]
    {
      PopSlot(env_free_list, env_link, efree);
      env_free_list := env_link[env_free_list];
      efree := efree[1..];
    }

    /** envid2env: the slot, or -1 */
    method EnvidToEnv(cur: nat, envid: int, checkperm: bool) returns (e: int)
      requires Valid() && cur < NENV
      ensures var o := Envid2Env(View(), cur, envid, checkperm); e == if o.Some? then o.value else -1
    {
      if envid == 0 { return cur; }
      e := ENVX(envid);
      if envs[e].status == FREE || envs[e].id != envid { return -1; }
      if checkperm && e != cur && envs[e].parent != envs[cur].id { return -1; }
    }

    method SysEnvSetStatus(cur: nat, envid: int, status: Status) returns (r: int)
      requires Valid() && Ok(View()) && cur < NENV
      modifies envs
      ensures Valid() && (r, View()) == Spec.SysEnvSetStatus(old(View()), cur, envid, status)
    {
      if status != NOT_RUNNABLE && status != RUNNABLE { return -E_INVAL; }
      var e := EnvidToEnv(cur, envid, true);
      if e < 0 { return -E_BAD_ENV; }
      envs[e] := envs[e].(status := status);
      r := 0;
    }

    method SysIpcRecv(cur: nat, dstva: nat) returns (r: int)
      requires Valid() && Ok(View()) && cur < NENV
      modifies envs
      ensures Valid() && (r, View()) == Spec.SysIpcRecv(old(View()), cur, dstva)
    {
      if dstva < UTOP && PGOFF(dstva) != 0 { return -E_INVAL; }
      if dstva >= UTOP { envs[cur] := envs[cur].(dstva := UTOP); } else { envs[cur] := envs[cur].(dstva := dstva); }
      envs[cur] := envs[cur].(recving := true);
      envs[cur] := envs[cur].(status := NOT_RUNNABLE);
      assert envs[..] == Spec.SysIpcRecv(old(View()), cur, dstva).1.envs;
      r := 0;
    }

    method SysPageUnmap(cur: nat, envid: int, va: nat) returns (r: int)
      requires Valid() && Ok(View()) && cur < NENV && envs[cur].status != FREE
      modifies mem, mem.pp_ref, mem.pp_link, mem.ram
      ensures Valid() && (r, View()) == Spec.SysPageUnmap(old(View()), cur, envid, va)
    {
      ghost var k := View();
      var e := EnvidToEnv(cur, envid, true);
      if e < 0 { return -E_BAD_ENV; }
      if va >= UTOP || PGOFF(va) != 0 { return -E_INVAL; }
      Remove(mem, e, va);
      UnmapDone(k, cur, envid, va, e, View());
      r := 0;
    }

    method SysPageAlloc(cur: nat, envid: int, va: nat, perm: Perm) returns (r: int)
      requires Valid() && Ok(View()) && cur < NENV && envs[cur].status != FREE
      modifies mem.Footprint()
      ensures Valid() && (r, View()) == Spec.SysPageAlloc(old(View()), cur, envid, va, perm)
    {
      ghost var k := View();
      var e := EnvidToEnv(cur, envid, true);
      if e < 0 { return -E_BAD_ENV; }
      if va >= UTOP || PGOFF(va) != 0 { return -E_INVAL; }
      if !(perm.p && perm.u) { return -E_INVAL; }
      if perm.other != {} { return -E_INVAL; }
      var full, ok := AllocInto(mem, e, va, perm);
      r := if full || !ok then -E_NO_MEM else 0;
      AllocDone(k, cur, envid, va, perm, e, r, View());
    }

    method SysPageMap(cur: nat, srcid: int, srcva: nat, dstid: int, dstva: nat, perm: Perm) returns (r: int)
      requires Valid() && Ok(View()) && cur < NENV && envs[cur].status != FREE
      modifies mem, mem.pp_ref, mem.pp_link, mem.ram
      ensures Valid() && (r, View()) == Spec.SysPageMap(old(View()), cur, srcid, srcva, dstid, dstva, perm)
    {
      ghost var k := View();
      var src := EnvidToEnv(cur, srcid, true);
      if src < 0 { return -E_BAD_ENV; }
      var dst := EnvidToEnv(cur, dstid, true);
      if dst < 0 { return -E_BAD_ENV; }
      if srcva >= UTOP || PGOFF(srcva) != 0 || dstva >= UTOP || PGOFF(dstva) != 0 { return -E_INVAL; }
      r := ShareMapping(mem, src, srcva, dst, dstva, perm);
      MapDone(k, cur, srcid, srcva, dstid, dstva, perm, src, dst, r, View());
    }

    // ----- creating and destroying environments -----

    /** env_alloc: a slot, or an error code */
    method EnvAlloc(parent: int) returns (r: int)
      requires Valid() && Ok(View())
      modifies this`env_free_list, this`efree, envs, mem, mem.pp_ref, mem.pp_link, mem.ram
      ensures Valid() && TablesReady(old(View())) && (r, View()) == Spec.EnvAlloc(old(View()), parent)
    {
      ghost var k := View();
      AllocReady(k);
      if env_free_list == NULL { return -E_NO_FREE_ENV; }
      var e := env_free_list;
      var ok := mem.EnvSetupVm(e);
      if !ok {
        assert View() == k.(mem := mem.View());
        return -E_NO_MEM;
      }
      InitEnv(e, parent);
      NewDone(k, parent, e, View());
      r := e;
    }

    /** The rest of env_alloc: e is the head of the free list. */
    method InitEnv(e: nat, parent: int)
      requires TableValid() && efree != [] && efree[0] == e && e < NENV
      modifies this`env_free_list, this`efree, envs
      ensures TableValid() && efree == old(efree)[1..]
      ensures envs[..] == old(envs[..])[e := NewEnv(old(envs[e]), e, parent)]
    {
      envs[e] := envs[e].(id := NextId(envs[e].id, e));
      envs[e] := envs[e].(parent := parent);
      envs[e] := envs[e].(status := RUNNABLE);
      envs[e] := envs[e].(runs := 0);
      envs[e] := envs[e].(tf := Trapframe(0, [0, 0, 0, 0, 0, 0], 0, FL_IF, USTACKTOP));
      envs[e] := envs[e].(upcall := 0);
      TakeFree();
    }

    method SysExofork(cur: nat) returns (r: int)
      requires Valid() && Ok(View()) && cur < NENV
      modifies this`env_free_list, this`efree, envs, mem, mem.pp_ref, mem.pp_link, mem.ram
      ensures Valid() && (r, View()) == Spec.SysExofork(old(View()), cur)
    {
      ghost var k := View();
      r := EnvAlloc(envs[cur].id);
      if r < 0 { return; }
      ghost var k1 := View();
      var e := r;
      MakeChild(cur, e);
      assert View() == k1.(envs := envs[..]);
      r := envs[e].id;
      ExoforkDone(k, cur, e, k1, View());
    }

    /** The registers of a new child are its parent's, but for the result 0. */
    method MakeChild(cur: nat, e: nat)
      requires envs.Length == NENV && cur < NENV && e < NENV
      modifies envs
      ensures envs[..] == Child(old(envs[..]), cur, e)
    {
      envs[e] := envs[e].(status := NOT_RUNNABLE);
      envs[e] := envs[e].(tf := envs[cur].tf);
      envs[e] := envs[e].(tf := envs[e].tf.(eax := 0));
    }

    /** env_free: the address space is torn down, the slot returns to the head of the free list */
    method EnvFree(e: nat)
      requires Valid() && Ok(View()) && e < NENV && envs[e].status != FREE
      modifies this`env_free_list, this`efree, this`env_link, envs, mem, mem.pp_ref, mem.pp_link, mem.ram
      ensures Valid() && View() == ReleaseEnv(old(View()), e)
    {
      ghost var k := View();
      FreeReady(k, e);
      FreeSpace(mem, e);
      ReleaseSlot(e);
      assert View() == ReleaseEnv(k, e);
    }

    method ReleaseSlot(e: nat)
      requires TableValid() && e < NENV && e !in efree
      modifies this`env_free_list, this`efree, this`env_link, envs
      ensures TableValid() && efree == [e] + old(efree) && envs[..] == old(envs[..])[e := old(envs[e]).(status := FREE)]
    {
      envs[e] := envs[e].(status := FREE);
      PutFree(e);
    }

    /** sys_env_destroy with env_destroy. `gone`: the caller has destroyed itself, so the CPU has no current environment
        and goes on to sched_yield instead of returning r. */
    method SysEnvDestroy(cur: nat, envid: int) returns (r: int, gone: bool)
      requires Valid() && Ok(View()) && cur < NENV && envs[cur].status != FREE
      modifies this`env_free_list, this`efree, this`env_link, envs, mem, mem.pp_ref, mem.pp_link, mem.ram
      ensures Valid() && (r, View()) == Spec.SysEnvDestroy(old(View()), cur, envid)
      ensures gone <==> Envid2Env(old(View()), cur, envid, true) == Option.Some(cur)
    {
      var e := EnvidToEnv(cur, envid, true);
      if e < 0 { return -E_BAD_ENV, false; }
      if envs[e].status == RUNNING && e != cur {
        envs[e] := envs[e].(status := DYING);
        return 0, false;
      }
      EnvFree(e);
      r, gone := 0, e == cur;
    }

    /** sys_ipc_try_send. A page goes wherever the receiver's dstva says, UTOP included. */
    method SysIpcTrySend(cur: nat, envid: int, value: nat, srcva: nat, perm: Perm) returns (r: int)
      requires Valid() && Ok(View()) && cur < NENV && envs[cur].status != FREE
      modifies envs, mem, mem.pp_ref, mem.pp_link, mem.ram
      ensures Valid() && (r, View()) == Spec.SysIpcTrySend(old(View()), cur, envid, value, srcva, perm)
    {
      ghost var k := View();
      var dst := EnvidToEnv(cur, envid, false);
      if dst < 0 { return -E_BAD_ENV; }
      if !envs[dst].recving { return -E_IPC_NOT_RECV; }
      if srcva < UTOP {
        r := SendMapped(cur, envid, value, srcva, perm, dst);
      } else {
        r := SendWord(cur, envid, value, srcva, perm, dst);
      }
    }

    /** The rest of a send without a page */
    method SendWord(cur: nat, ghost envid: int, value: nat, srcva: nat, ghost perm: Perm, dst: nat) returns (r: int)
      requires Valid() && Ok(View()) && cur < NENV && envs[cur].status != FREE && srcva >= UTOP
      requires Envid2Env(View(), cur, envid, false) == Option.Some(dst) && envs[dst].recving
      modifies envs
      ensures Valid() && (r, View()) == Spec.SysIpcTrySend(old(View()), cur, envid, value, srcva, perm)
    {
      ghost var k := View();
      DirInRange(k.mem, cur);
      var ok := Reachable(mem, mem.env_pgdir[cur], PDX(srcva), PTX(srcva));
      if !ok { return PANIC; }
      Receive(dst, envs[cur].id, value, false, NO_PERM);
      SendDone(k, cur, envid, value, srcva, perm, dst, 0, View());
      r := 0;
    }

    /** The rest of a send with a page, to the waiting receiver dst */
    method SendMapped(cur: nat, ghost envid: int, value: nat, srcva: nat, perm: Perm, dst: nat) returns (r: int)
      requires Valid() && Ok(View()) && cur < NENV && envs[cur].status != FREE && srcva < UTOP
      requires Envid2Env(View(), cur, envid, false) == Option.Some(dst) && envs[dst].recving
      modifies envs, mem, mem.pp_ref, mem.pp_link, mem.ram
      ensures Valid() && (r, View()) == Spec.SysIpcTrySend(old(View()), cur, envid, value, srcva, perm)
    {
      ghost var k := View();
      r := SendTheirs(mem, cur, srcva, dst, envs[dst].dstva, perm, k);
      FinishSend(cur, envid, value, srcva, perm, dst, r, k);
    }

    /** What is left to do when the page has been mapped, or not */
    method FinishSend(cur: nat, ghost envid: int, value: nat, ghost srcva: nat, perm: Perm, dst: nat, r: int, ghost k: Kernel)
      requires Valid() && Ok(k) && cur < NENV && k.envs[cur].status != FREE && srcva < UTOP
      requires Envid2Env(k, cur, envid, false) == Option.Some(dst) && k.envs[dst].recving
      requires envs[..] == k.envs && efree == k.efree && PageSent(k, cur, srcva, dst, perm, r, mem.View())
      modifies envs
      ensures Valid() && (r, View()) == Spec.SysIpcTrySend(k, cur, envid, value, srcva, perm)
    {
      if r == 0 { Receive(dst, envs[cur].id, value, true, perm); }
      SendDone(k, cur, envid, value, srcva, perm, dst, r, View());
    }

    /** The receiver's fields after a successful send */
    method Receive(dst: nat, srcid: int, value: nat, page: bool, perm: Perm)
      requires dst < NENV && envs.Length == NENV
      modifies envs
      ensures envs[..] == old(envs[..])[dst := Deliver(if page then old(envs[dst]).(perm := perm) else old(envs[dst]), srcid, value)]
    {
      if page { envs[dst] := envs[dst].(perm := perm); }
      envs[dst] := envs[dst].(recving := false);
      envs[dst] := envs[dst].(from := srcid);
      envs[dst] := envs[dst].(value := value);
      envs[dst] := envs[dst].(tf := envs[dst].tf.(eax := 0));
      envs[dst] := envs[dst].(status := RUNNABLE);
    }
  }

  /** The table after slot e has become a child of cur */
  function Child(envs: seq<Env>, cur: nat, e: nat): seq<Env>
    requires cur < |envs| && e < |envs|
  {
    envs[e := envs[e].(status := NOT_RUNNABLE, tf := envs[cur].tf.(eax := 0))]
  }

  lemma NewDone(k: Kernel, parent: int, e: nat, k': Kernel)
    requires TablesReady(k) && k.efree != [] && e == k.efree[0]
    requires (true, k'.mem) == PagingInvariant.EnvSetupVm(k.mem, e) && k'.efree == k.efree[1..] && k'.envs == k.envs[e := NewEnv(k.envs[e], e, parent)]
    ensures (e, k') == Spec.EnvAlloc(k, parent)
  {
  }

  lemma ExoforkDone(k: Kernel, cur: nat, e: nat, k1: Kernel, k': Kernel)
    requires Ok(k) && cur < NENV && TablesReady(k) && (e, k1) == Spec.EnvAlloc(k, k.envs[cur].id)
    requires e < NENV && k' == k1.(envs := Child(k1.envs, cur, e))
    ensures (k1.envs[e].id, k') == Spec.SysExofork(k, cur) && k'.envs[e].id == k1.envs[e].id
  {
  }

  lemma UnmapDone(k: Kernel, cur: nat, envid: int, va: nat, e: nat, k': Kernel)
    requires Ok(k) && cur < NENV && k.envs[cur].status != FREE && VaOk(va)
    requires Envid2Env(k, cur, envid, true) == Option.Some(e)
    requires InRange(k.mem, k.mem.dirs[e], PDX(va), PTX(va))
    requires k' == k.(mem := Paging.PageRemove(k.mem, k.mem.dirs[e], PDX(va), PTX(va)))
    ensures (0, k') == Spec.SysPageUnmap(k, cur, envid, va)
  {
  }

  lemma AllocDone(k: Kernel, cur: nat, envid: int, va: nat, perm: Perm, e: nat, r: int, k': Kernel)
    requires Ok(k) && cur < NENV && k.envs[cur].status != FREE && VaOk(va) && PermOk(perm) && PDX(va) < UTOPX
    requires PTX(va) < NPTENTRIES
    requires Envid2Env(k, cur, envid, true) == Option.Some(e)
    requires if k.mem.free == [] then r == -E_NO_MEM && k' == k
             else (r, k') == var (ok, m) := AllocAndMap(k.mem, e, PDX(va), PTX(va), perm); (if ok then 0 else -E_NO_MEM, k.(mem := m))
    ensures (r, k') == Spec.SysPageAlloc(k, cur, envid, va, perm)
  {
  }

  lemma MapDone(k: Kernel, cur: nat, srcid: int, srcva: nat, dstid: int, dstva: nat, perm: Perm, src: nat, dst: nat, r: int, k': Kernel)
    requires Ok(k) && cur < NENV && k.envs[cur].status != FREE && VaOk(srcva) && VaOk(dstva)
    requires Envid2Env(k, cur, srcid, true) == Option.Some(src) && Envid2Env(k, cur, dstid, true) == Option.Some(dst)
    requires k' == k.(mem := k'.mem) && Shared(k.mem, src, srcva, dst, dstva, perm, r, k'.mem)
    ensures (r, k') == Spec.SysPageMap(k, cur, srcid, srcva, dstid, dstva, perm)
  {
  }

  /** After page_alloc, page_insert of the new page can go on. */
  lemma FreshReady(m: Mem, e: nat, d: nat, t: nat)
    requires Inv(m) && e in m.dirs && d < UTOPX && t < NPTENTRIES && m.free != []
    ensures var (o, m1) := Paging.PageAlloc(m); var pgdir := m1.dirs[e];
            && Dims(m1) && InRange(m1, pgdir, d, t) && pgdir !in m1.free && o.value < |m1.ref| && o.value !in m1.free && MappedInUse(m1, pgdir, d, t)
  {
    var (o, m1) := Paging.PageAlloc(m);
    var pp := o.value;
    SpaceReady(m, e, d, t);
    AllocKeeps(m);
    RangeOk(Transit(m1, pp), e, d, t);
    assert m.free == [pp] + m1.free && pp in m.free;
    assert Slot(m, Table(e, d)) == At(m, m.dirs[e], d);
    if At(m, m.dirs[e], d).perm.p { Referenced(m, Table(e, d)); }
    Referenced(m, Dir(e));
  }

  lemma AllocatedIs(m: Mem, e: nat, d: nat, t: nat, perm: Perm, ok: bool, m': Mem)
    requires Inv(m) && e in m.dirs && d < UTOPX && t < NPTENTRIES && m.free != []
    requires InRange(Paging.PageAlloc(m).1, m.dirs[e], d, t) && m.free[0] < |m.ref|
    requires (ok, m') == var (ok1, m2) := Paging.PageInsert(Paging.PageAlloc(m).1, m.dirs[e], m.free[0], d, t, perm); (ok1, if ok1 then m2 else Transit(m2, m.free[0]))
    ensures (ok, m') == AllocAndMap(m, e, d, t, perm)
  {
  }

  lemma FreeReady(k: Kernel, e: nat)
    requires Ok(k) && e < NENV && k.envs[e].status != FREE
    ensures e in k.mem.dirs && k.mem.dirs[e] < |k.mem.frame| && e !in k.efree
  {
    DirInRange(k.mem, e);
  }

  ghost predicate TablesReady(k: Kernel) {
    && Dims(k.mem) && k.mem.kdir < |k.mem.frame| && |k.envs| == NENV
    && forall i :: 0 <= i < |k.efree| ==> k.efree[i] < NENV
  }

  lemma AllocReady(k: Kernel)
    requires Ok(k)
    ensures TablesReady(k) && k.mem.kdir !in k.mem.free
  {
    forall i | 0 <= i < |k.efree| ensures k.efree[i] < NENV { assert k.efree[i] in k.efree; }
    BootPageInUse(k.mem, k.mem.kdir);
  }

  lemma BootPageInUse(m: Mem, p: nat)
    requires Inv(m) && p in m.kern
    ensures p !in m.free
  {
    assert forall i :: 0 <= i < |m.free| ==> m.free[i] < |m.ref|;
  }

  /** An address space and the page mapped at (d, t) are in use. */
  lemma SpaceReady(m: Mem, e: nat, d: nat, t: nat)
    requires Inv(m) && e in m.dirs && d < UTOPX && t < NPTENTRIES
    ensures var pgdir := m.dirs[e]; InRange(m, pgdir, d, t) && pgdir !in m.free && MappedInUse(m, pgdir, d, t)
    ensures var pgdir := m.dirs[e]; At(m, pgdir, d).perm.p ==> At(m, At(m, pgdir, d).ppn, t).ppn !in m.free
  {
    RangeOk(m, e, d, t);
    Referenced(m, Dir(e));
    assert Slot(m, Page(e, d, t)) == PteOf(m, e, d, t);
    if PteOf(m, e, d, t).perm.p { Referenced(m, Page(e, d, t)); }
    BootPageInUse(m, 0);
  }
}
