/** What every run of system calls keeps: exact counts, a sound free list, page
    kinds apart, and no gain of write permission. */
module KernelRuns {
  import opened Paging
  import opened PagingInvariant
  import opened PagingOps
  import opened AddressSpaceTeardown
  import opened KernelHalfOfSpaces
  import opened Kernel

  // ----- sys_exofork -----

  lemma NextIdShape(id: int, slot: nat)
    requires 0 <= id < 0x80000000 && slot < NENV
    ensures 0 < NextId(id, slot) < 0x80000000 && NextId(id, slot) % NENV == slot
  {
    var sum := id + 0x1000;
    var wrapped := if sum >= 0x80000000 then sum - 0x1_0000_0000 else sum;
    var g := wrapped - wrapped % NENV;
    Multiple(wrapped);
    assert NextId(id, slot) == (if g <= 0 then 0x1000 else g) + slot;
    Multiple(NextId(id, slot));
    if g > 0 { SlotOf(g / NENV, slot); }
  }

  lemma Multiple(x: int)
    ensures x - x % NENV == NENV * (x / NENV)
  {
  }

  lemma SlotOf(q: int, slot: nat)
    requires slot < NENV
    ensures (NENV * q + slot) % NENV == slot
  {
  }

  lemma TableStep(k: Kernel, m: Mem)
    requires Ok(k) && Inv(m) && SharedAboveUtop(m) && m.dirs.Keys == k.mem.dirs.Keys
    ensures Ok(k.(mem := m))
  {
  }

  /** What env_alloc leaves in the slot, whatever its last owner left there: a cleared frame with interrupts on and the stack
      below UTOP, runnable, never run, without an upcall. The receive flag and the last message stay. */
  lemma EnvAllocOk(k: Kernel, parent: int)
    requires Ok(k) && k.efree != [] && k.mem.free != []
    ensures forall i :: 0 <= i < |k.efree| ==> k.efree[i] in k.efree
    ensures k.efree[0] < NENV && var e := k.efree[0]; var (r, k') := EnvAlloc(k, parent);
            && r == e && k'.efree == k.efree[1..] && k'.envs == k.envs[e := k'.envs[e]]
            && var env := k'.envs[e];
            && env.status == RUNNABLE && env.parent == parent && env.runs == 0 && env.upcall == 0 && env.id > 0 && env.id % 1024 == e
            && env.tf.eax == 0 && env.tf.eip == 0 && env.tf.eflags == 0x200 && env.tf.esp == 0xeebfe000
            && env.tf.regs == [0, 0, 0, 0, 0, 0]
            && env == k.envs[e].(id := env.id, parent := parent, status := RUNNABLE, runs := 0, upcall := 0, tf := env.tf)
            && SameButAt(k.mem, k'.mem, Dir(e)) && e in k'.mem.dirs
  {
    assert forall i :: 0 <= i < |k.efree| ==> k.efree[i] in k.efree;
    var e := k.efree[0];
    NextIdShape(k.envs[e].id, e);
    AddDir(k.mem, e);
  }

  lemma ExoforkOk(k: Kernel, cur: nat)
    requires Ok(k) && cur < NENV
    ensures var (r, k') := SysExofork(k, cur);
            && Ok(k')
            && (r > 0 <==> k.efree != [] && k.mem.free != [])
            && (r <= 0 ==> r < 0 && k' == k)
            && (r > 0 ==>
                  && ENVX(r) == k.efree[0] && k.envs[ENVX(r)].status == FREE
                  && k'.envs == k.envs[ENVX(r) := k'.envs[ENVX(r)]]
                  && k'.envs[ENVX(r)] == k.envs[ENVX(r)].(id := r, parent := k.envs[cur].id, status := NOT_RUNNABLE, runs := 0, upcall := 0,
                                                          tf := k'.envs[ENVX(r)].tf)
                  && (k.envs[cur].status != FREE ==> k'.envs[ENVX(r)].tf == k.envs[cur].tf.(eax := 0))
                  && SameButAt(k.mem, k'.mem, Dir(ENVX(r))))
  {
    if k.efree != [] && k.mem.free != [] {
      var e := k.efree[0];
      assert e in k.efree;
      NextIdShape(k.envs[e].id, e);
      AddDir(k.mem, e);
      SetupShared(k.mem, e);
      var k' := SysExofork(k, cur).1;
      NewSlot(k, k', e);
    }
  }

  lemma NewSlot(k: Kernel, k': Kernel, e: nat)
    requires Ok(k) && k.efree != [] && e == k.efree[0] && k'.efree == k.efree[1..]
    requires Inv(k'.mem) && SharedAboveUtop(k'.mem) && k'.mem.dirs.Keys == k.mem.dirs.Keys + {e}
    requires |k'.envs| == NENV && (forall i: nat :: i < NENV && i != e ==> k'.envs[i] == k.envs[i])
    requires e < NENV && k'.envs[e].status != FREE && k'.envs[e].dstva <= UTOP
    requires 0 < k'.envs[e].id < 0x80000000 && k'.envs[e].id % NENV == e
    ensures Ok(k')
  {
    assert k.efree == [e] + k'.efree;
    assert e !in k'.efree;
    forall i: nat ensures i in k'.efree <==> i < NENV && k'.envs[i].status == FREE {
      assert i in k'.efree <==> i in k.efree && i != e;
    }
  }

  // ----- sys_page_alloc -----

  /** Mapping a page held by nobody yet */
  lemma MapFresh(m: Mem, e: nat, d: nat, t: nat, pp: nat, perm: Perm)
    requires Inv(m) && SharedAboveUtop(m) && e in m.dirs && d < UTOPX && t < NPTENTRIES && pp in m.lost
    ensures pp < |m.ref| && InRange(m, m.dirs[e], d, t)
    ensures var (ok, m') := PageInsert(m, m.dirs[e], pp, d, t, perm);
            && (ok <==> Pde(m, e, d).perm.p || m.free != [])
            && (!ok ==> m' == m)
            && m'.lost == m.lost && m'.dirs == m.dirs
            && (ok ==> OnlyPage(m, m', e, d, t, Entry(pp, perm)) && Inv(Settle(m', pp)) && SharedAboveUtop(Settle(m', pp)))
  {
    Unreferenced(m, pp);
    InsertCorrect(m, e, d, t, pp, perm);
    FreshUpper(m, e, d, t, pp, perm);
  }

  lemma FreshUpper(m: Mem, e: nat, d: nat, t: nat, pp: nat, perm: Perm)
    requires Inv(m) && SharedAboveUtop(m) && e in m.dirs && d < UTOPX && t < NPTENTRIES && Mappable(m, pp)
    ensures InRange(m, m.dirs[e], d, t) && SharedAboveUtop(Settle(PageInsert(m, m.dirs[e], pp, d, t, perm).1, pp))
  {
    RangeOk(m, e, d, t);
    InsertUpper(m, e, d, t, pp, perm);
    var m' := PageInsert(m, m.dirs[e], pp, d, t, perm).1;
    UpperKeeps(m, m');
    SettledShared(m', pp);
  }

  lemma SettledShared(m: Mem, p: nat)
    requires SharedAboveUtop(m)
    ensures SharedAboveUtop(Settle(m, p))
  {
    var m' := Settle(m, p);
    forall d: nat, t: nat ensures ClosedAt(m', d, t) { assert ClosedAt(m, d, t); }
    forall e: nat, d: nat | e in m'.dirs && UTOPX <= d < NPTENTRIES ensures At(m', m'.dirs[e], d) == UpperEntry(m', e, d) {
      assert At(m, m.dirs[e], d) == UpperEntry(m, e, d);
    }
  }

  lemma TakeFree(m: Mem)
    requires Inv(m) && SharedAboveUtop(m) && m.free != []
    ensures var mt := Transit(PageAlloc(m).1, m.free[0]);
            && Inv(mt) && SharedAboveUtop(mt) && mt.dirs == m.dirs && m.free[0] in mt.lost && m.free[0] !in m.lost
            && (forall s :: Slot(mt, s) == Slot(m, s)) && mt.free == m.free[1..]
            && (forall e: nat, d: nat :: Pde(mt, e, d) == Pde(m, e, d))
            && (forall e: nat, d: nat, t: nat :: PteOf(mt, e, d, t) == PteOf(m, e, d, t))
  {
    AllocKeeps(m);
    AllocUpper(m);
    var mt := Transit(PageAlloc(m).1, m.free[0]);
    UpperKeeps(m, mt);
    forall e: nat, d: nat, t: nat ensures PteOf(mt, e, d, t) == PteOf(m, e, d, t) {
      assert Slot(mt, Page(e, d, t)) == Slot(m, Page(e, d, t));
    }
    forall e: nat, d: nat ensures Pde(mt, e, d) == Pde(m, e, d) {
      assert Slot(mt, Table(e, d)) == Slot(m, Table(e, d));
    }
  }

  /** sys_page_alloc maps a page that was free; it loses it exactly when the last
      free page was taken and a page table is still missing. */
  lemma AllocAndMapOk(m: Mem, e: nat, d: nat, t: nat, perm: Perm)
    requires Inv(m) && SharedAboveUtop(m) && e in m.dirs && d < UTOPX && t < NPTENTRIES && m.free != []
    ensures var (ok, m') := AllocAndMap(m, e, d, t, perm); var pp := m.free[0];
            && Inv(m') && SharedAboveUtop(m') && m'.dirs == m.dirs
            && (ok <==> Pde(m, e, d).perm.p || |m.free| > 1)
            && (ok ==> OnlyPage(m, m', e, d, t, Entry(pp, perm)) && m'.lost == m.lost)
            && (!ok ==> (forall s :: Slot(m', s) == Slot(m, s)) && m'.lost == m.lost + {pp} && pp !in m.lost)
  {
    TakeFree(m);
    var pp := m.free[0];
    var mt := Transit(PageAlloc(m).1, pp);
    MapFresh(mt, e, d, t, pp, perm);
    AllocAndMapViaTransit(m, e, d, t, perm);
    var (ok, m2) := PageInsert(mt, mt.dirs[e], pp, d, t, perm);
    if ok {
      SettledPages(m, mt, m2, pp, e, d, t, Entry(pp, perm));
      assert Settle(m2, pp).lost == m.lost;
    }
  }

  /** The page sys_page_alloc maps is full of zeros. */
  lemma AllocatedIsZero(m: Mem, e: nat, d: nat, t: nat, perm: Perm)
    requires Inv(m) && SharedAboveUtop(m) && e in m.dirs && d < UTOPX && t < NPTENTRIES && m.free != []
    ensures var (ok, m') := AllocAndMap(m, e, d, t, perm); ok ==> forall i: nat :: At(m', m.free[0], i) == PTE0
  {
    var pp := m.free[0];
    var mt := Transit(PageAlloc(m).1, pp);
    ZeroInTransit(m, mt, pp, e);
    AllocAndMapViaTransit(m, e, d, t, perm);
    InsertLeavesFrame(mt, e, d, t, pp, perm);
    SettleKeepsFrames(PageInsert(mt, mt.dirs[e], pp, d, t, perm).1, pp);
  }

  lemma ZeroInTransit(m: Mem, mt: Mem, pp: nat, e: nat)
    requires Inv(m) && SharedAboveUtop(m) && m.free != [] && pp == m.free[0] && mt == Transit(PageAlloc(m).1, pp) && e in m.dirs
    ensures Inv(mt) && e in mt.dirs && pp < |mt.ref| && pp in mt.lost && (forall s :: Target(mt, s) != pp) && forall i: nat :: At(mt, pp, i) == PTE0
  {
    TakeFree(m);
    AllocKeeps(m);
    Unreferenced(mt, pp);
  }

  lemma SettleKeepsFrames(m: Mem, p: nat)
    ensures forall i: nat :: At(Settle(m, p), p, i) == At(m, p, i)
  {
  }

  /** page_insert stores only in tables: a page that nothing refers to yet, and that is not free, stays as it is. */
  lemma InsertLeavesFrame(m: Mem, e: nat, d: nat, t: nat, pp: nat, perm: Perm)
    requires Inv(m) && e in m.dirs && d < UTOPX && t < NPTENTRIES && pp < |m.ref| && pp in m.lost && forall s :: Target(m, s) != pp
    ensures InRange(m, m.dirs[e], d, t) && forall i: nat :: At(PageInsert(m, m.dirs[e], pp, d, t, perm).1, pp, i) == At(m, pp, i)
  {
    RangeOk(m, e, d, t);
    assert Target(m, Dir(e)) == m.dirs[e] && m.frame[m.dirs[e]][d] == Pde(m, e, d);
    assert Pde(m, e, d).perm.p ==> Target(m, Table(e, d)) == Pde(m, e, d).ppn;
    if m.free != [] { assert m.free[0] in m.free; }
  }

  lemma SettledPages(m: Mem, mt: Mem, m2: Mem, pp: nat, e: nat, d: nat, t: nat, pte: Pte)
    requires forall e: nat, d: nat, t: nat :: PteOf(mt, e, d, t) == PteOf(m, e, d, t)
    requires mt.dirs == m.dirs && OnlyPage(mt, m2, e, d, t, pte)
    ensures OnlyPage(m, Settle(m2, pp), e, d, t, pte)
  {
    var m' := Settle(m2, pp);
    forall e': nat, d': nat, t': nat
      ensures PteOf(m', e', d', t') == if (e', d', t') == (e, d, t) then pte else PteOf(m, e', d', t')
    {
      assert PteOf(m', e', d', t') == PteOf(m2, e', d', t');
    }
  }

  lemma AllocAndMapViaTransit(m: Mem, e: nat, d: nat, t: nat, perm: Perm)
    requires Inv(m) && e in m.dirs && d < UTOPX && t < NPTENTRIES && m.free != []
    ensures var pp := m.free[0]; var mt := Transit(PageAlloc(m).1, pp);
            && pp < |mt.ref| && InRange(mt, mt.dirs[e], d, t)
            && var (ok, m2) := PageInsert(mt, mt.dirs[e], pp, d, t, perm);
            && AllocAndMap(m, e, d, t, perm) == (ok, if ok then Settle(m2, pp) else m2)
  {
    AllocKeeps(m);
    var pp, m1 := m.free[0], PageAlloc(m).1;
    RangeOk(Transit(m1, pp), e, d, t);
    InsertIgnoresLost(m1, pp, m1.dirs[e], pp, d, t, perm);
    var (ok, m2) := PageInsert(m1, m1.dirs[e], pp, d, t, perm);
    assert Settle(Transit(m2, pp), pp).lost == m2.lost;
    assert Settle(Transit(m2, pp), pp) == m2;
  }

  lemma InsertIgnoresLost(m: Mem, p: nat, pgdir: nat, pp: nat, d: nat, t: nat, perm: Perm)
    requires Dims(m) && InRange(m, pgdir, d, t) && pp < |m.ref|
    ensures InRange(Transit(m, p), pgdir, d, t)
    ensures var (ok, m') := PageInsert(m, pgdir, pp, d, t, perm);
            m'.lost == m.lost && PageInsert(Transit(m, p), pgdir, pp, d, t, perm) == (ok, Transit(m', p))
  {
  }

  // ----- sys_page_map and the page part of sys_ipc_try_send -----

  /** The page that page_lookup yields for a user address may gain references; where
      nothing is mapped but the table exists, that page is page 0. */
  lemma LookedUp(m: Mem, e: nat, d: nat, t: nat)
    requires Inv(m) && Pde(m, e, d).perm.p && t < NPTENTRIES
    ensures m.dirs[e] < |m.frame| && d < NPTENTRIES
    ensures var pte := PteOf(m, e, d, t);
            && PageLookup(m, m.dirs[e], d, t) == Some(pte.ppn)
            && Mappable(m, pte.ppn) && pte.ppn !in m.lost && m.ref[pte.ppn] > 0
            && (!pte.perm.p ==> pte == PTE0)
  {
    var x, pte := Page(e, d, t), PteOf(m, e, d, t);
    assert Slot(m, x) == pte;
    assert Target(m, Dir(e)) == m.dirs[e];
    assert m.frame[m.dirs[e]][d] == Pde(m, e, d);
    if pte.perm.p {
      Referenced(m, x);
      assert Target(m, x) == pte.ppn;
    } else {
      assert m.ref[0] == |Refs(m, 0)| + 1;
    }
  }

  /** Mapping a looked-up page somewhere below UTOP */
  lemma ShareOk(m: Mem, e: nat, d: nat, t: nat, pp: nat, perm: Perm)
    requires Inv(m) && SharedAboveUtop(m) && e in m.dirs && d < UTOPX && t < NPTENTRIES
    requires Mappable(m, pp) && pp !in m.lost
    ensures InRange(m, m.dirs[e], d, t)
    ensures var (ok, m') := PageInsert(m, m.dirs[e], pp, d, t, perm);
            && m'.dirs == m.dirs && SharedAboveUtop(m')
            && (ok <==> Pde(m, e, d).perm.p || m.free != [])
            && (!ok ==> m' == m)
            && (ok ==> OnlyPage(m, m', e, d, t, Entry(pp, perm)) && m'.lost == m.lost)
            && (Inv(m') <==> !ok || CountFits(m, e, d, t, pp))
  {
    InsertCorrect(m, e, d, t, pp, perm);
    InsertUpper(m, e, d, t, pp, perm);
    var m' := PageInsert(m, m.dirs[e], pp, d, t, perm).1;
    UpperKeeps(m, m');
    assert Settle(m', pp).lost == m'.lost;
    assert Settle(m', pp) == m';
  }

  /** The mapping a sys_page_map call would make: (source page, target environment), if it gets that far. */
  function MapPlan(k: Kernel, cur: nat, srcid: int, srcva: nat, dstid: int, dstva: nat, perm: Perm): (r: Option<(nat, nat)>)
    requires Ok(k) && cur < NENV && k.envs[cur].status != FREE
    ensures r.Some? ==> r.value.1 in k.mem.dirs && VaOk(srcva) && VaOk(dstva)
  {
    match (Envid2Env(k, cur, srcid, true), Envid2Env(k, cur, dstid, true))
    case (Some(src), Some(dst)) =>
      if !VaOk(srcva) || !VaOk(dstva) || !PermOk(perm) then Option.None
      else if !Pde(k.mem, src, PDX(srcva)).perm.p then Option.None
      else
        var pte := PteOf(k.mem, src, PDX(srcva), PTX(srcva));
        if perm.w && !pte.perm.w then Option.None else Option.Some((pte.ppn, dst))
    case _ => Option.None
  }

  lemma MapFollowsPlan(k: Kernel, cur: nat, srcid: int, srcva: nat, dstid: int, dstva: nat, perm: Perm)
    requires Ok(k) && cur < NENV && k.envs[cur].status != FREE
    ensures var plan := MapPlan(k, cur, srcid, srcva, dstid, dstva, perm);
            var (r, k') := SysPageMap(k, cur, srcid, srcva, dstid, dstva, perm);
            && (plan.None? ==> r != 0 && k' == k)
            && (plan.Some? ==> var (pp, dst) := plan.value;
                && PDX(dstva) < UTOPX && PTX(dstva) < NPTENTRIES
                && Mappable(k.mem, pp) && pp !in k.mem.lost && InRange(k.mem, k.mem.dirs[dst], PDX(dstva), PTX(dstva))
                && var (ok, m) := PageInsert(k.mem, k.mem.dirs[dst], pp, PDX(dstva), PTX(dstva), perm);
                && r == (if ok then 0 else -E_NO_MEM) && k' == k.(mem := m))
  {
    var src, dst := Envid2Env(k, cur, srcid, true), Envid2Env(k, cur, dstid, true);
    if src.Some? && dst.Some? && VaOk(srcva) && VaOk(dstva) {
      UserIndex(srcva);
      UserIndex(dstva);
      var d, t := PDX(srcva), PTX(srcva);
      RangeOk(k.mem, src.value, d, t);
      RangeOk(k.mem, dst.value, PDX(dstva), PTX(dstva));
      assert k.mem.frame[k.mem.dirs[src.value]][d] == Pde(k.mem, src.value, d);
      if Pde(k.mem, src.value, d).perm.p { LookedUp(k.mem, src.value, d, t); }
    }
  }

  /** sys_page_map maps exactly the looked-up page at dstva, or changes nothing; the
      invariant survives if and only if the page's count does not overflow. */
  lemma PageMapOk(k: Kernel, cur: nat, srcid: int, srcva: nat, dstid: int, dstva: nat, perm: Perm)
    requires Ok(k) && cur < NENV && k.envs[cur].status != FREE
    ensures var plan := MapPlan(k, cur, srcid, srcva, dstid, dstva, perm);
            var (r, k') := SysPageMap(k, cur, srcid, srcva, dstid, dstva, perm);
            && k'.envs == k.envs
            && (r == 0 ==> plan.Some?)
            && (r != 0 ==> k' == k)
            && (plan.Some? ==> var (pp, dst) := plan.value;
                && pp < |k.mem.ref|
                && (r == 0 <==> Pde(k.mem, dst, PDX(dstva)).perm.p || k.mem.free != [])
                && (r == 0 ==> OnlyPage(k.mem, k'.mem, dst, PDX(dstva), PTX(dstva), Entry(pp, perm)))
                && (Ok(k') <==> r != 0 || CountFits(k.mem, dst, PDX(dstva), PTX(dstva), pp)))
  {
    MapFollowsPlan(k, cur, srcid, srcva, dstid, dstva, perm);
    var plan := MapPlan(k, cur, srcid, srcva, dstid, dstva, perm);
    if plan.Some? {
      var (pp, dst) := plan.value;
      ShareOk(k.mem, dst, PDX(dstva), PTX(dstva), pp, perm);
      var m' := PageInsert(k.mem, k.mem.dirs[dst], pp, PDX(dstva), PTX(dstva), perm).1;
      if Inv(m') { TableStep(k, m'); }
    }
  }

  // ----- sys_page_unmap -----

  /** Guard of sys_page_unmap: not aimed at an empty entry of an existing table. */
  ghost predicate UnmapIsSound(k: Kernel, cur: nat, envid: int, va: nat)
    requires Ok(k) && cur < NENV
  {
    var o := Envid2Env(k, cur, envid, true);
    o.Some? && VaOk(va) ==> RemoveIsSound(k.mem, o.value, PDX(va), PTX(va))
  }

  lemma UnmapOk(k: Kernel, cur: nat, envid: int, va: nat)
    requires Ok(k) && cur < NENV && k.envs[cur].status != FREE
    ensures var (r, k') := SysPageUnmap(k, cur, envid, va);
            && k'.envs == k.envs
            && (Ok(k') <==> UnmapIsSound(k, cur, envid, va))
            && (r != 0 ==> k' == k)
            && (r == 0 ==> OnlyPage(k.mem, k'.mem, Envid2Env(k, cur, envid, true).value, PDX(va), PTX(va), PTE0))
  {
    var o := Envid2Env(k, cur, envid, true);
    if o.Some? && VaOk(va) {
      UserIndex(va);
      RemoveCorrect(k.mem, o.value, PDX(va), PTX(va));
      RemoveUpper(k.mem, o.value, PDX(va), PTX(va));
      var m' := PageRemove(k.mem, k.mem.dirs[o.value], PDX(va), PTX(va));
      UpperKeeps(k.mem, m');
      if Inv(m') { TableStep(k, m'); }
    }
  }

  // ----- sys_ipc_try_send -----

  lemma InsertAtUtopShape(m: Mem, e: nat, pp: nat, perm: Perm)
    requires Inv(m) && SharedAboveUtop(m) && e in m.dirs && Mappable(m, pp)
    ensures InRange(m, m.dirs[e], UTOPX, 0)
    ensures var (ok, m') := PageInsert(m, m.dirs[e], pp, UTOPX, 0, perm);
            var tab := At(m, m.kdir, UTOPX).ppn;
            && ok && m'.dirs == m.dirs && m'.kern == m.kern
            && tab in m.kern && tab < |m.frame|
            && m'.frame == m.frame[tab := m.frame[tab][0 := Entry(pp, perm)]]
            && m'.ref[pp] == Inc16(m.ref[pp])
  {
    DirIsPlain(m, e);
    assert At(m, m.dirs[e], UTOPX) == UpperEntry(m, e, UTOPX);
    var tab := At(m, m.dirs[e], UTOPX).ppn;
    assert m.frame[m.dirs[e]][UTOPX] == At(m, m.dirs[e], UTOPX);
    assert m.frame[tab][0] == At(m, tab, 0);
    assert m.frame[tab][0].ppn != pp;
    assert m.frame[tab][0 := PTE0][0 := Entry(pp, perm)] == m.frame[tab][0 := Entry(pp, perm)];
  }

  /** page_insert at UTOP itself works on the kernel's shared table: it takes a boot
      page's reference away and gives pp one that no user entry accounts for. */
  lemma InsertAtUtopBreaks(m: Mem, e: nat, pp: nat, perm: Perm)
    requires Inv(m) && SharedAboveUtop(m) && e in m.dirs && Mappable(m, pp)
    ensures InRange(m, m.dirs[e], UTOPX, 0)
    ensures var (ok, m') := PageInsert(m, m.dirs[e], pp, UTOPX, 0, perm);
            ok && !Inv(m') && m'.dirs == m.dirs
  {
    InsertAtUtopShape(m, e, pp, perm);
    var tab := At(m, m.kdir, UTOPX).ppn;
    var f := m.frame[tab][0 := Entry(pp, perm)];
    StoreFrame(m, tab, f);
    CountWithoutSlot(m, m.(frame := m.frame[tab := f]), PageInsert(m, m.dirs[e], pp, UTOPX, 0, perm).1, pp);
  }

  lemma CountWithoutSlot(m: Mem, m1: Mem, m': Mem, pp: nat)
    requires Inv(m) && pp < |m.ref| && Dims(m') && m'.kern == m.kern
    requires forall s :: Slot(m1, s) == Slot(m, s)
    requires m'.frame == m1.frame && m'.dirs == m1.dirs && |m'.ref| == |m.ref| && m'.ref[pp] == Inc16(m.ref[pp])
    ensures !Exact(m')
  {
    forall s ensures Slot(m', s) == Slot(m, s) { assert Slot(m', s) == Slot(m1, s); }
    CountMoved(m, m', pp);
  }

  /** The mapping a sys_ipc_try_send call would make: (page, receiver), if it gets that far. */
  function SendPlan(k: Kernel, cur: nat, envid: int, srcva: nat, perm: Perm): (r: Option<(nat, nat)>)
    requires Ok(k) && cur < NENV && k.envs[cur].status != FREE
    ensures r.Some? ==> r.value.1 in k.mem.dirs && r.value.1 < NENV
  {
    match Envid2Env(k, cur, envid, false)
    case None => Option.None
    case Some(dst) =>
      if !k.envs[dst].recving || srcva >= UTOP || !PermOk(perm) then Option.None
      else if !Pde(k.mem, cur, PDX(srcva)).perm.p then Option.None
      else
        var pte := PteOf(k.mem, cur, PDX(srcva), PTX(srcva));
        if perm.w && !pte.perm.w then Option.None else Option.Some((pte.ppn, dst))
  }

  /** The target exists and is waiting. */
  predicate ToWaiting(k: Kernel, cur: nat, envid: int)
    requires Ok(k) && cur < NENV
  {
    var o := Envid2Env(k, cur, envid, false);
    o.Some? && k.envs[o.value].recving
  }

  /** A send panics if and only if it gets to the lookup, its target waiting and its permissions not refused, and
      the entry at srcva names a page the machine does not have. That needs srcva >= UTOP. */
  lemma SendPanicsIff(k: Kernel, cur: nat, envid: int, value: nat, srcva: nat, perm: Perm)
    requires Ok(k) && cur < NENV && k.envs[cur].status != FREE
    ensures SysIpcTrySend(k, cur, envid, value, srcva, perm).0 == PANIC <==>
              && ToWaiting(k, cur, envid) && (srcva < UTOP ==> PermOk(perm))
              && !InRange(k.mem, k.mem.dirs[cur], PDX(srcva), PTX(srcva))
    ensures srcva < UTOP ==> InRange(k.mem, k.mem.dirs[cur], PDX(srcva), PTX(srcva))
  {
    if srcva < UTOP {
      UserIndex(srcva);
      RangeOk(k.mem, cur, PDX(srcva), PTX(srcva));
    }
  }

  lemma SendFollowsPlan(k: Kernel, cur: nat, envid: int, value: nat, srcva: nat, perm: Perm)
    requires Ok(k) && cur < NENV && k.envs[cur].status != FREE
    ensures var plan := SendPlan(k, cur, envid, srcva, perm);
            var (r, k') := SysIpcTrySend(k, cur, envid, value, srcva, perm);
            && (plan.None? ==>
                && k'.mem == k.mem && k'.efree == k.efree && (r != 0 ==> k' == k)
                && (r == 0 <==> ToWaiting(k, cur, envid) && srcva >= UTOP && InRange(k.mem, k.mem.dirs[cur], PDX(srcva), PTX(srcva)))
                && (r == 0 ==> var dst := Envid2Env(k, cur, envid, false).value;
                               k'.envs == k.envs[dst := Deliver(k.envs[dst], k.envs[cur].id, value)]))
            && (plan.Some? ==> var (pp, dst) := plan.value; var va := k.envs[dst].dstva;
                && Mappable(k.mem, pp) && pp !in k.mem.lost && InRange(k.mem, k.mem.dirs[dst], PDX(va), PTX(va))
                && var (ok, m) := PageInsert(k.mem, k.mem.dirs[dst], pp, PDX(va), PTX(va), perm);
                && r == (if ok then 0 else -E_NO_MEM)
                && k' == if ok then Kernel(m, k.envs[dst := Deliver(k.envs[dst], k.envs[cur].id, value).(perm := perm)], k.efree)
                               else k.(mem := m))
  {
    var o := Envid2Env(k, cur, envid, false);
    if o.Some? && k.envs[o.value].recving && srcva < UTOP && PermOk(perm) {
      UserIndex(srcva);
      var d, t := PDX(srcva), PTX(srcva);
      RangeOk(k.mem, cur, d, t);
      DstIndex(k, o.value);
      assert k.mem.frame[k.mem.dirs[cur]][d] == Pde(k.mem, cur, d);
      if Pde(k.mem, cur, d).perm.p { LookedUp(k.mem, cur, d, t); }
    }
  }

  /** An unaligned srcva below UTOP is not refused: it stands for its page. */
  lemma UnalignedSend(k: Kernel, cur: nat, envid: int, value: nat, srcva: nat, perm: Perm)
    requires Ok(k) && cur < NENV && k.envs[cur].status != FREE && srcva < UTOP
    ensures SysIpcTrySend(k, cur, envid, value, srcva, perm) == SysIpcTrySend(k, cur, envid, value, srcva - PGOFF(srcva), perm)
  {
    SameEntry(srcva);
  }

  lemma SameEntry(va: nat)
    ensures PDX(va - PGOFF(va)) == PDX(va) && PTX(va - PGOFF(va)) == PTX(va)
  {
    ByPages(va);
    ByPages(va - PGOFF(va));
    assert (va - PGOFF(va)) / 0x1000 == va / 0x1000;
  }

  lemma ByPages(va: nat)
    ensures va / 0x400000 == va / 0x1000 / 0x400
  {
    var q := va / 0x1000;
    assert q == 0x400 * (q / 0x400) + q % 0x400;
  }

  lemma DeliverOk(k: Kernel, dst: nat, env: Env)
    requires Ok(k) && dst < NENV && k.envs[dst].status != FREE
    requires env.status != FREE && env.id == k.envs[dst].id && env.dstva <= UTOP
    ensures Ok(k.(envs := k.envs[dst := env]))
  {
  }

  /** The page sent cannot be mapped: its address needs a page table and there is no page for it. */
  predicate NoTableFor(k: Kernel, dst: nat)
    requires dst < |k.envs|
  {
    var va := k.envs[dst].dstva;
    va < UTOP && !Pde(k.mem, dst, PDX(va)).perm.p && k.mem.free == []
  }

  /** A failed send changes nothing, and which sends fail. A send keeps the invariant if and only if
      it maps no page, or maps it below UTOP without overflowing its count. */
  lemma SendOk(k: Kernel, cur: nat, envid: int, value: nat, srcva: nat, perm: Perm)
    requires Ok(k) && cur < NENV && k.envs[cur].status != FREE
    ensures var plan := SendPlan(k, cur, envid, srcva, perm);
            var (r, k') := SysIpcTrySend(k, cur, envid, value, srcva, perm);
            && (r != 0 ==> k' == k)
            && (plan.None? ==> Ok(k') && k'.mem == k.mem)
            && (plan.None? ==>
                  (r == 0 <==> ToWaiting(k, cur, envid) && srcva >= UTOP && InRange(k.mem, k.mem.dirs[cur], PDX(srcva), PTX(srcva))))
            && (plan.Some? ==> var (pp, dst) := plan.value; var va := k.envs[dst].dstva;
                && pp < |k.mem.ref|
                && (r == 0 <==> !NoTableFor(k, dst))
                && (r == 0 && va < UTOP ==> OnlyPage(k.mem, k'.mem, dst, PDX(va), PTX(va), Entry(pp, perm)))
                && (Ok(k') <==> NoTableFor(k, dst) || (va < UTOP && CountFits(k.mem, dst, PDX(va), PTX(va), pp))))
  {
    SendFollowsPlan(k, cur, envid, value, srcva, perm);
    var plan := SendPlan(k, cur, envid, srcva, perm);
    var (r, k') := SysIpcTrySend(k, cur, envid, value, srcva, perm);
    if plan.Some? {
      var (pp, dst) := plan.value;
      InsertForReceiver(k, dst, pp, perm);
      if r == 0 && Inv(k'.mem) {
        TableStep(k, k'.mem);
        DeliverOk(k.(mem := k'.mem), dst, k'.envs[dst]);
      }
    } else if r == 0 {
      var dst := Envid2Env(k, cur, envid, false).value;
      DeliverOk(k, dst, k'.envs[dst]);
    }
  }

  lemma InsertForReceiver(k: Kernel, dst: nat, pp: nat, perm: Perm)
    requires Ok(k) && dst < NENV && k.envs[dst].status != FREE && Mappable(k.mem, pp) && pp !in k.mem.lost
    ensures var va := k.envs[dst].dstva;
            && InRange(k.mem, k.mem.dirs[dst], PDX(va), PTX(va))
            && var (ok, m) := PageInsert(k.mem, k.mem.dirs[dst], pp, PDX(va), PTX(va), perm);
            && m.dirs == k.mem.dirs
            && (!ok ==> m == k.mem) && (ok <==> !NoTableFor(k, dst))
            && (ok && va < UTOP ==> OnlyPage(k.mem, m, dst, PDX(va), PTX(va), Entry(pp, perm)) && SharedAboveUtop(m))
            && (Inv(m) <==> !ok || (va < UTOP && CountFits(k.mem, dst, PDX(va), PTX(va), pp)))
  {
    var va := k.envs[dst].dstva;
    if va < UTOP {
      UserIndex(va);
      ShareOk(k.mem, dst, PDX(va), PTX(va), pp, perm);
    } else {
      assert PDX(va) == UTOPX && PTX(va) == 0;
      InsertAtUtopBreaks(k.mem, dst, pp, perm);
    }
  }

  // ----- sys_env_destroy -----

  lemma FreedSlot(k: Kernel, k': Kernel, e: nat)
    requires Ok(k) && e < NENV && k.envs[e].status != FREE && k'.efree == [e] + k.efree
    requires Inv(k'.mem) && SharedAboveUtop(k'.mem) && k'.mem.dirs.Keys == k.mem.dirs.Keys - {e}
    requires k'.envs == k.envs[e := k.envs[e].(status := FREE)]
    ensures Ok(k')
  {
    assert e !in k.efree;
    forall i: nat ensures i in k'.efree <==> i < NENV && k'.envs[i].status == FREE {
      assert i in k'.efree <==> i == e || i in k.efree;
    }
  }

  lemma ReleaseOk(k: Kernel, e: nat)
    requires Ok(k) && e < NENV && k.envs[e].status != FREE
    ensures Ok(ReleaseEnv(k, e))
    ensures var m, m' := k.mem, ReleaseEnv(k, e).mem;
            && m'.dirs == m.dirs - {e} && m'.lost == m.lost && m'.kern == m.kern && |m'.ref| == |m.ref|
            && (forall s :: Slot(m', s) == if s.e == e then PTE0 else Slot(m, s))
    ensures ReleaseEnv(k, e).efree == [e] + k.efree && ReleaseEnv(k, e).envs == k.envs[e := k.envs[e].(status := FREE)]
  {
    EnvFreeConserves(k.mem, e);
    EnvFreeShared(k.mem, e);
    FreedSlot(k, ReleaseEnv(k, e), e);
  }
}
