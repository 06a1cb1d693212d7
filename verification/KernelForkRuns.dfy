/** Runs of CowFork are runs of the kernel: every step of a program that forks is a system call, or
    a memory access, that does to the kernel what CowFork says, whatever the other environments do. */
module KernelRunsFork {
  import opened Paging
  import opened PagingInvariant
  import opened Kernel
  import opened KernelRuns
  import KernelTheorems
  import opened KernelRefinesFlat
  import opened HardwareAccess
  import Cow = CowFork
  import CowForkRuns

  type State = Cow.State
  type Step = Cow.Step
  type Call = KernelTheorems.Call

  // ----- fork alone cannot wrap a count -----

  /** An environment maps a page at most twice: where it belongs and at PFTEMP. */
  function Code(x: Site): nat
    requires x.Page?
  {
    2 * x.e + if x.d * NPTENTRIES + x.t == Cow.PFTEMP then 1 else 0
  }

  predicate SameCode(x: Site, y: Site) {
    x.Page? && y.Page? && Code(x) == Code(y)
  }

  lemma {:induction false} AtMostCodes(a: set<Site>, n: nat)
    requires forall x :: x in a ==> x.Page? && Code(x) < n
    requires forall x, y :: x in a && y in a && SameCode(x, y) ==> x == y
    ensures |a| <= n
    decreases n
  {
    if x :| x in a && Code(x) == n - 1 {
      forall y | y in a - {x} ensures Code(y) < n - 1 { assert !SameCode(x, y); }
      AtMostCodes(a - {x}, n - 1);
    } else if n > 0 {
      AtMostCodes(a, n - 1);
    } else {
      assert a == {};
    }
  }

  /** The sites that refer to a page mapped in fork's range */
  lemma SharedSite(m: Mem, s: State, k: Cow.Key, x: Site)
    requires Separate(m) && Tidy(m) && Shows(m, s) && Cow.Inv(s) && k in s.pt && Cow.InRange(k.v) && Target(m, x) == s.pt[k].ppn
    ensures x.Page? && x.t < NPTENTRIES
    ensures x.d * NPTENTRIES + x.t == k.v || (x.e == k.e && x.d * NPTENTRIES + x.t == Cow.PFTEMP)
    ensures x.e in s.pc
  {
    var own := Page(k.e, k.v / NPTENTRIES, k.v % NPTENTRIES);
    assert ShowsAt(m, s, k);
    assert Slot(m, own) == PteOf(m, k.e, k.v / NPTENTRIES, k.v % NPTENTRIES);
    assert Target(m, own) == s.pt[k].ppn;
    if x != own { assert x.Page?; }
    var b := Cow.Key(x.e, x.d * NPTENTRIES + x.t);
    assert Slot(m, x) == PteOf(m, x.e, x.d, x.t);
    assert b.v / NPTENTRIES == x.d && b.v % NPTENTRIES == x.t;
    assert ShowsAt(m, s, b);
    assert Cow.KeyOk(s, b) && Cow.SharedOk(s, k, b);
  }

  /** So its count stays below 16 bits. */
  lemma CountIsSmall(m: Mem, s: State, k: Cow.Key)
    requires Inv(m) && Shows(m, s) && Cow.Inv(s) && k in s.pt && Cow.InRange(k.v)
    requires forall e: nat :: e in s.pc ==> e < NENV
    ensures s.pt[k].ppn < |m.ref| && m.ref[s.pt[k].ppn] <= 2 * NENV + 1
  {
    var p := s.pt[k].ppn;
    var own := Page(k.e, k.v / NPTENTRIES, k.v % NPTENTRIES);
    assert ShowsAt(m, s, k);
    assert Slot(m, own) == PteOf(m, k.e, k.v / NPTENTRIES, k.v % NPTENTRIES);
    assert Target(m, own) == p;
    forall x | x in Refs(m, p) ensures x.Page? && Code(x) < 2 * NENV {
      InRefs(m, p, x);
      SharedSite(m, s, k, x);
    }
    forall x, y | x in Refs(m, p) && y in Refs(m, p) && SameCode(x, y) ensures x == y {
      InRefs(m, p, x);
      InRefs(m, p, y);
      SharedSite(m, s, k, x);
      SharedSite(m, s, k, y);
    }
    AtMostCodes(Refs(m, p), 2 * NENV);
    assert m.ref[p] == |Refs(m, p)| + Base(m, p);
  }

  lemma SoloSite(m: Mem, s: State, k: Cow.Key, x: Site)
    requires Separate(m) && Tidy(m) && Shows(m, s) && Cow.Solo(s, k) && Target(m, x) == s.pt[k].ppn
    ensures x == Page(k.e, k.v / NPTENTRIES, k.v % NPTENTRIES)
  {
    var own := Page(k.e, k.v / NPTENTRIES, k.v % NPTENTRIES);
    assert ShowsAt(m, s, k);
    assert Slot(m, own) == PteOf(m, k.e, k.v / NPTENTRIES, k.v % NPTENTRIES);
    assert Target(m, own) == s.pt[k].ppn;
    assert x != own ==> x.Page?;
    var b := Cow.Key(x.e, x.d * NPTENTRIES + x.t);
    assert Slot(m, x) == PteOf(m, x.e, x.d, x.t);
    assert b.v / NPTENTRIES == x.d && b.v % NPTENTRIES == x.t;
    assert ShowsAt(m, s, b) && Cow.Differ(s, k, b);
  }

  /** A page mapped once is counted once, or twice if it is page 0. */
  lemma SoloCount(m: Mem, s: State, k: Cow.Key)
    requires Inv(m) && Shows(m, s) && Cow.Solo(s, k)
    ensures s.pt[k].ppn < |m.ref| && m.ref[s.pt[k].ppn] <= 2
  {
    var p := s.pt[k].ppn;
    var own := Page(k.e, k.v / NPTENTRIES, k.v % NPTENTRIES);
    assert ShowsAt(m, s, k);
    assert Slot(m, own) == PteOf(m, k.e, k.v / NPTENTRIES, k.v % NPTENTRIES);
    assert Target(m, own) == p;
    forall x | x in Refs(m, p) ensures x in {own} {
      InRefs(m, p, x);
      SoloSite(m, s, k, x);
    }
    assert Refs(m, p) <= {own};
    OneAtMost(Refs(m, p), own);
    assert m.ref[p] == |Refs(m, p)| + Base(m, p);
  }

  lemma OneAtMost(a: set<Site>, x: Site)
    requires a <= {x}
    ensures |a| <= 1
  {
    assert a == {} || a == {x};
  }

  // ----- steps as calls -----

  const PAGE: nat := 4096

  function UserPerm(w: bool, cow: bool): Perm {
    NO_PERM.(p := true, u := true, w := w, cow := cow)
  }

  /** fork copies all pages from 8 MB up to the exception stack, the user stack included, and uses the page below 8 MB. */
  lemma ForkCopiesTheUserPart(va: nat)
    ensures Cow.InRange(va / PAGE) <==> 0x800000 <= va < UTOP - PAGE
    ensures Cow.PFTEMP * PAGE == 0x7ff000 && Cow.UXSTACK * PAGE == UTOP - PAGE && Cow.InRange((USTACKTOP - 1) / PAGE)
  {
  }

  /** What e is forking, in its handler or not */
  function Program(pc: Cow.Pc): Cow.Pc {
    if pc.Fault? then pc.back else pc
  }

  /** A forking environment's child is its child in the kernel. */
  predicate ChildOf(k: Kernel, e: nat, pc: Cow.Pc) {
    var b := Program(pc);
    b.Forking? || b.Marking? || b.Stack? ==> e < |k.envs| && b.child < |k.envs| && k.envs[b.child].parent == k.envs[e].id
  }

  /** A child that its parent has not started cannot be scheduled; any other environment can, unless it waits in a receive. */
  predicate Schedulable(env: Env, pc: Cow.Pc) {
    if pc.Unborn? then env.status == NOT_RUNNABLE else env.status == NOT_RUNNABLE ==> env.recving
  }

  predicate EnvOf(k: Kernel, s: State, e: nat) {
    && (e in s.pc <==> e < |k.envs| && k.envs[e].status != FREE)
    && (e in s.pc ==> ChildOf(k, e, s.pc[e]) && Schedulable(k.envs[e], s.pc[e]))
  }

  /** The kernel k is in the state s of the flat machine. */
  ghost predicate Rel(k: Kernel, s: State) {
    Shows(k.mem, s) && forall e: nat :: EnvOf(k, s, e)
  }

  function ChildId(k: Kernel, pc: Cow.Pc): int {
    if (pc.Forking? || pc.Marking? || pc.Stack?) && pc.child < |k.envs| then k.envs[pc.child].id else 0
  }

  /** The system call of a step, if it is one; a panic of the handler or of fork is an exit. */
  function CallOf(k: Kernel, s: State, n: Step): Option<Call>
    requires n.e in s.pc
  {
    var pc := s.pc[n.e];
    match n
    case Write(e, v, _, _) =>
      if Cow.Key(e, v) in s.pt && (s.pt[Cow.Key(e, v)].w || s.pt[Cow.Key(e, v)].cow) then Option.None else Option.Some(KernelTheorems.Destroy(0))
    case NewPage(_, v, w, _) => Option.Some(KernelTheorems.Allocate(0, v * PAGE, UserPerm(w, false)))
    case DropPage(_, v) => Option.Some(KernelTheorems.Unmap(0, v * PAGE))
    case Exit(_) => Option.Some(KernelTheorems.Destroy(0))
    case Exofork(_, _) => Option.Some(KernelTheorems.Exofork)
    case Handler(_, _) => if pc.Fault? then HandlerCall(pc.v, pc.stage) else Option.None
    case Fork(e, _) => ForkCall(k, s, e, pc)
  }

  function HandlerCall(v: nat, stage: Cow.Stage): Option<Call> {
    match stage
    case Alloc => Option.Some(KernelTheorems.Allocate(0, Cow.PFTEMP * PAGE, UserPerm(true, false)))
    case Copy => Option.None
    case Drop => Option.Some(KernelTheorems.Unmap(0, v * PAGE))
    case Move => Option.Some(KernelTheorems.Map(0, Cow.PFTEMP * PAGE, 0, v * PAGE, UserPerm(true, false)))
    case Finish => Option.Some(KernelTheorems.Unmap(0, Cow.PFTEMP * PAGE))
  }

  function ForkCall(k: Kernel, s: State, e: nat, pc: Cow.Pc): Option<Call> {
    match pc
    case Forking(child, pn) =>
      var key := Cow.Key(e, pn);
      if Cow.InRange(pn) && key in s.pt
      then Option.Some(KernelTheorems.Map(0, pn * PAGE, ChildId(k, pc), pn * PAGE, UserPerm(false, s.pt[key].w || s.pt[key].cow)))
      else Option.None
    case Marking(child, pn) => Option.Some(KernelTheorems.Map(0, pn * PAGE, 0, pn * PAGE, UserPerm(false, true)))
    case Stack(child, turn) =>
      if turn == 0 then Option.Some(KernelTheorems.Allocate(ChildId(k, pc), Cow.UXSTACK * PAGE, UserPerm(true, false)))
      else if turn == 1 then Option.Some(KernelTheorems.Map(ChildId(k, pc), Cow.UXSTACK * PAGE, 0, Cow.PFTEMP * PAGE, UserPerm(true, false)))
      else if turn == 2 then (if Cow.CanCopyStack(s, e) then Option.None else Option.Some(KernelTheorems.Destroy(0)))
      else if turn == 3 then Option.Some(KernelTheorems.Unmap(0, Cow.PFTEMP * PAGE))
      else Option.Some(KernelTheorems.SetStatus(ChildId(k, pc), RUNNABLE))
    case _ => Option.None
  }

  ghost function KernelStep(k: Kernel, s: State, n: Step): Kernel
    requires Ok(k) && n.e in s.pc
  {
    var c := CallOf(k, s, n);
    if c == Option.None then k else KernelTheorems.Apply(k, KernelTheorems.Entry(n.e, c.value))
  }

  /** Memory does not run out and the kernel's choices are the machine's; an unmap is of a mapped page below UTOP. The
      page of a new exception stack is not shared up to the limit of its count. */
  ghost predicate Resources(k: Kernel, s: State, n: Step)
    requires Ok(k) && n.e in s.pc
  {
    var c, pc := CallOf(k, s, n), s.pc[n.e];
    && (c != Option.None && c.value.Allocate? ==> |k.mem.free| > 1 && c.value.va < UTOP && NewPageOf(n) == k.mem.free[0])
    && (c != Option.None && c.value.Unmap? ==> c.value.va < UTOP && Cow.Key(n.e, c.value.va / PAGE) in s.pt)
    && (c != Option.None && c.value.Map? ==> k.mem.free != [])
    && (n.Exofork? ==> k.mem.free != [] && k.efree != [] && n.child == k.efree[0])
    && (n.Fork? && pc.Stack? && pc.turn == 1 ==> var key := Cow.Key(pc.child, Cow.UXSTACK);
           key in s.pt ==> s.pt[key].ppn < |k.mem.ref| && k.mem.ref[s.pt[key].ppn] + 1 < REF_MODULUS)
  }

  function NewPageOf(n: Step): nat {
    if n.Handler? || n.NewPage? || n.Fork? then n.p else 0
  }

  // ----- the calls -----

  lemma ShowsTable(m: Mem, s: State, s': State)
    requires Shows(m, s) && s'.pt == s.pt
    ensures Shows(m, s')
  {
    forall key: Cow.Key ensures ShowsAt(m, s', key) { assert ShowsAt(m, s, key); }
  }

  lemma OwnId(k: Kernel, s: State, e: nat)
    requires Ok(k) && Rel(k, s) && e in s.pc
    ensures e < NENV && KernelTheorems.Live(k, e) && Envid2Env(k, e, 0, true) == Option.Some(e)
  {
    assert EnvOf(k, s, e);
  }

  lemma ChildsId(k: Kernel, s: State, e: nat)
    requires Ok(k) && Rel(k, s) && Cow.Inv(s) && e in s.pc && (s.pc[e].Forking? || s.pc[e].Marking? || s.pc[e].Stack?)
    ensures var c := s.pc[e].child; e < NENV && c in s.pc && c < NENV && Envid2Env(k, e, ChildId(k, s.pc[e]), true) == Option.Some(c)
  {
    assert EnvOf(k, s, e) && Cow.EnvOk(s, e);
    assert EnvOf(k, s, s.pc[e].child);
  }

  lemma Allocated(k: Kernel, s: State, e: nat, id: int, t: nat, v: nat, w: bool, p: nat)
    requires Ok(k) && Rel(k, s) && e in s.pc && e < NENV && KernelTheorems.Live(k, e) && Envid2Env(k, e, id, true) == Option.Some(t)
    requires v * PAGE < UTOP && |k.mem.free| > 1 && p == k.mem.free[0]
    ensures var k' := SysPageAlloc(k, e, id, v * PAGE, UserPerm(w, false)).1;
            k'.envs == k.envs && Shows(k'.mem, Cow.PageAlloc(s, Cow.Key(t, v), w, p))
  {
    assert v * PAGE / PAGE == v;
    AllocIsFlat(k, e, id, v * PAGE, UserPerm(w, false), s);
  }

  lemma Mapped(k: Kernel, s: State, e: nat, sid: int, src: Cow.Key, did: int, dst: Cow.Key, w: bool, cow: bool)
    requires Ok(k) && Rel(k, s) && e in s.pc && e < NENV && KernelTheorems.Live(k, e)
    requires Envid2Env(k, e, sid, true) == Option.Some(src.e) && Envid2Env(k, e, did, true) == Option.Some(dst.e)
    requires src.v * PAGE < UTOP && dst.v * PAGE < UTOP && k.mem.free != [] && src in s.pt && (w ==> s.pt[src].w)
    ensures var k' := SysPageMap(k, e, sid, src.v * PAGE, did, dst.v * PAGE, UserPerm(w, cow)).1;
            k'.envs == k.envs && Shows(k'.mem, Cow.PageMap(s, src, dst, w, cow))
  {
    assert src.v * PAGE / PAGE == src.v && dst.v * PAGE / PAGE == dst.v;
    MapIsFlat(k, e, sid, src.v * PAGE, did, dst.v * PAGE, UserPerm(w, cow), s);
    PageMapOk(k, e, sid, src.v * PAGE, did, dst.v * PAGE, UserPerm(w, cow));
  }

  lemma Unmapped(k: Kernel, s: State, e: nat, v: nat)
    requires Ok(k) && Rel(k, s) && e in s.pc && e < NENV && KernelTheorems.Live(k, e)
    requires v * PAGE < UTOP && Cow.Key(e, v) in s.pt
    ensures var k' := SysPageUnmap(k, e, 0, v * PAGE).1;
            k'.envs == k.envs && Shows(k'.mem, Cow.PageUnmap(s, Cow.Key(e, v)))
  {
    assert v * PAGE / PAGE == v;
    UnmapIsFlat(k, e, 0, v * PAGE, s);
    UnmapOk(k, e, 0, v * PAGE);
  }

  lemma GoneShows(m: Mem, s: State, m': Mem, e: nat)
    requires Shows(m, s) && forall x: Site :: Slot(m', x) == if x.e == e then PTE0 else Slot(m, x)
    ensures Shows(m', Cow.Die(s, e))
  {
    forall key: Cow.Key ensures ShowsAt(m', Cow.Die(s, e), key) {
      var d, t := key.v / NPTENTRIES, key.v % NPTENTRIES;
      assert ShowsAt(m, s, key);
      assert Slot(m', Page(key.e, d, t)) == if key.e == e then PTE0 else Slot(m, Page(key.e, d, t));
    }
  }

  lemma Destroyed(k: Kernel, s: State, e: nat)
    requires Ok(k) && Rel(k, s) && Cow.Inv(s) && e in s.pc
    ensures e < NENV && KernelTheorems.Live(k, e) && Rel(SysEnvDestroy(k, e, 0).1, Cow.Die(s, e))
  {
    OwnId(k, s, e);
    ReleaseOk(k, e);
    var k', s' := SysEnvDestroy(k, e, 0).1, Cow.Die(s, e);
    GoneShows(k.mem, s, k'.mem, e);
    forall x: nat ensures EnvOf(k', s', x) {
      assert EnvOf(k, s, x) && Cow.EnvOk(s, x);
    }
  }

  // ----- steps -----

  /** e is not, and does not become, a child to be started. */
  predicate Moves(s: State, e: nat, pc: Cow.Pc)
    requires e in s.pc
  {
    !s.pc[e].Unborn? && !pc.Unborn?
  }

  /** The table of environments is as it was, and only e's program moved on, with the same child if it is still forking. */
  lemma RelMoves(k: Kernel, s: State, e: nat, k': Kernel, s': State, pc: Cow.Pc)
    requires Rel(k, s) && k'.envs == k.envs && Shows(k'.mem, s')
    requires e in s.pc && s'.pc == s.pc[e := pc] && ChildOf(k, e, pc) && Moves(s, e, pc)
    ensures Rel(k', s')
  {
    forall x: nat ensures EnvOf(k', s', x) { assert EnvOf(k, s, x); }
  }

  lemma AllocMoves(k: Kernel, s: State, e: nat, id: int, t: nat, v: nat, w: bool, p: nat, s': State, pc: Cow.Pc)
    requires Ok(k) && Rel(k, s) && e in s.pc && e < NENV && KernelTheorems.Live(k, e) && Envid2Env(k, e, id, true) == Option.Some(t)
    requires v * PAGE < UTOP && |k.mem.free| > 1 && p == k.mem.free[0]
    requires s'.pt == Cow.PageAlloc(s, Cow.Key(t, v), w, p).pt && s'.pc == s.pc[e := pc] && ChildOf(k, e, pc) && Moves(s, e, pc)
    ensures Rel(SysPageAlloc(k, e, id, v * PAGE, UserPerm(w, false)).1, s')
  {
    Allocated(k, s, e, id, t, v, w, p);
    var k' := SysPageAlloc(k, e, id, v * PAGE, UserPerm(w, false)).1;
    ShowsTable(k'.mem, Cow.PageAlloc(s, Cow.Key(t, v), w, p), s');
    RelMoves(k, s, e, k', s', pc);
  }

  lemma MapMoves(k: Kernel, s: State, e: nat, sid: int, src: Cow.Key, did: int, dst: Cow.Key, w: bool, cow: bool, s': State, pc: Cow.Pc)
    requires Ok(k) && Rel(k, s) && e in s.pc && e < NENV && KernelTheorems.Live(k, e)
    requires Envid2Env(k, e, sid, true) == Option.Some(src.e) && Envid2Env(k, e, did, true) == Option.Some(dst.e)
    requires src.v * PAGE < UTOP && dst.v * PAGE < UTOP && k.mem.free != [] && src in s.pt && (w ==> s.pt[src].w)
    requires s'.pt == Cow.PageMap(s, src, dst, w, cow).pt && s'.pc == s.pc[e := pc] && ChildOf(k, e, pc) && Moves(s, e, pc)
    ensures Rel(SysPageMap(k, e, sid, src.v * PAGE, did, dst.v * PAGE, UserPerm(w, cow)).1, s')
  {
    Mapped(k, s, e, sid, src, did, dst, w, cow);
    var k' := SysPageMap(k, e, sid, src.v * PAGE, did, dst.v * PAGE, UserPerm(w, cow)).1;
    ShowsTable(k'.mem, Cow.PageMap(s, src, dst, w, cow), s');
    RelMoves(k, s, e, k', s', pc);
  }

  lemma UnmapMoves(k: Kernel, s: State, e: nat, v: nat, s': State, pc: Cow.Pc)
    requires Ok(k) && Rel(k, s) && e in s.pc && e < NENV && KernelTheorems.Live(k, e)
    requires v * PAGE < UTOP && Cow.Key(e, v) in s.pt
    requires s'.pt == Cow.PageUnmap(s, Cow.Key(e, v)).pt && s'.pc == s.pc[e := pc] && ChildOf(k, e, pc) && Moves(s, e, pc)
    ensures Rel(SysPageUnmap(k, e, 0, v * PAGE).1, s')
  {
    Unmapped(k, s, e, v);
    var k' := SysPageUnmap(k, e, 0, v * PAGE).1;
    ShowsTable(k'.mem, Cow.PageUnmap(s, Cow.Key(e, v)), s');
    RelMoves(k, s, e, k', s', pc);
  }

  lemma NoCallMoves(k: Kernel, s: State, e: nat, s': State, pc: Cow.Pc)
    requires Ok(k) && Rel(k, s) && e in s.pc && s'.pt == s.pt && s'.pc == s.pc[e := pc] && ChildOf(k, e, pc) && Moves(s, e, pc)
    ensures Rel(k, s')
  {
    ShowsTable(k.mem, s, s');
    RelMoves(k, s, e, k, s', pc);
  }

  /** A step that can be taken, from a state the kernel is in, with the resources it needs */
  ghost predicate Ready(k: Kernel, s: State, n: Step) {
    Ok(k) && Rel(k, s) && Cow.Inv(s) && Cow.Enabled(s, n) && Resources(k, s, n)
  }

  lemma AllocStep(k: Kernel, s: State, n: Step, id: int, t: nat, v: nat, w: bool, s': State, pc: Cow.Pc)
    requires Ready(k, s, n) && n.e < NENV && KernelTheorems.Live(k, n.e) && Envid2Env(k, n.e, id, true) == Option.Some(t)
    requires CallOf(k, s, n) == Option.Some(KernelTheorems.Allocate(id, v * PAGE, UserPerm(w, false))) && v * PAGE < UTOP
    requires s'.pt == Cow.PageAlloc(s, Cow.Key(t, v), w, NewPageOf(n)).pt && s'.pc == s.pc[n.e := pc] && ChildOf(k, n.e, pc) && Moves(s, n.e, pc)
    ensures Rel(KernelStep(k, s, n), s')
  {
    AllocMoves(k, s, n.e, id, t, v, w, NewPageOf(n), s', pc);
  }

  lemma MapStep(k: Kernel, s: State, n: Step, sid: int, src: Cow.Key, did: int, dst: Cow.Key, w: bool, cow: bool, s': State, pc: Cow.Pc)
    requires Ready(k, s, n) && n.e < NENV && KernelTheorems.Live(k, n.e)
    requires CallOf(k, s, n) == Option.Some(KernelTheorems.Map(sid, src.v * PAGE, did, dst.v * PAGE, UserPerm(w, cow)))
    requires Envid2Env(k, n.e, sid, true) == Option.Some(src.e) && Envid2Env(k, n.e, did, true) == Option.Some(dst.e)
    requires src.v * PAGE < UTOP && dst.v * PAGE < UTOP && src in s.pt && (w ==> s.pt[src].w)
    requires s'.pt == Cow.PageMap(s, src, dst, w, cow).pt && s'.pc == s.pc[n.e := pc] && ChildOf(k, n.e, pc) && Moves(s, n.e, pc)
    ensures Rel(KernelStep(k, s, n), s')
  {
    MapMoves(k, s, n.e, sid, src, did, dst, w, cow, s', pc);
  }

  lemma UnmapStep(k: Kernel, s: State, n: Step, v: nat, s': State, pc: Cow.Pc)
    requires Ready(k, s, n) && n.e < NENV && KernelTheorems.Live(k, n.e)
    requires CallOf(k, s, n) == Option.Some(KernelTheorems.Unmap(0, v * PAGE))
    requires s'.pt == Cow.PageUnmap(s, Cow.Key(n.e, v)).pt && s'.pc == s.pc[n.e := pc] && ChildOf(k, n.e, pc) && Moves(s, n.e, pc)
    ensures Rel(KernelStep(k, s, n), s')
  {
    assert v * PAGE / PAGE == v;
    UnmapMoves(k, s, n.e, v, s', pc);
  }

  lemma DestroyStep(k: Kernel, s: State, n: Step)
    requires Ready(k, s, n) && CallOf(k, s, n) == Option.Some(KernelTheorems.Destroy(0))
    ensures Rel(KernelStep(k, s, n), Cow.Die(s, n.e))
  {
    Destroyed(k, s, n.e);
  }

  lemma HandlerAllocs(k: Kernel, s: State, n: Step)
    requires Ready(k, s, n) && n.Handler? && s.pc[n.e].stage == Cow.Alloc
    ensures Rel(KernelStep(k, s, n), Cow.Next(s, n))
  {
    var s' := Cow.Next(s, n);
    assert Cow.EnvOk(s, n.e) && EnvOf(k, s, n.e);
    OwnId(k, s, n.e);
    AllocStep(k, s, n, 0, n.e, Cow.PFTEMP, true, s', s'.pc[n.e]);
  }

  lemma HandlerMaps(k: Kernel, s: State, n: Step)
    requires Ready(k, s, n) && n.Handler? && s.pc[n.e].stage == Cow.Move
    ensures Rel(KernelStep(k, s, n), Cow.Next(s, n))
  {
    var s' := Cow.Next(s, n);
    var tmp, key := Cow.Key(n.e, Cow.PFTEMP), Cow.Key(n.e, s.pc[n.e].v);
    assert Cow.EnvOk(s, n.e) && EnvOf(k, s, n.e);
    OwnId(k, s, n.e);
    assert s'.pt == Cow.PageMap(s, tmp, key, true, false).pt;
    MapStep(k, s, n, 0, tmp, 0, key, true, false, s', s'.pc[n.e]);
  }

  lemma HandlerUnmaps(k: Kernel, s: State, n: Step)
    requires Ready(k, s, n) && n.Handler? && (s.pc[n.e].stage == Cow.Drop || s.pc[n.e].stage == Cow.Finish)
    ensures Rel(KernelStep(k, s, n), Cow.Next(s, n))
  {
    var s' := Cow.Next(s, n);
    assert Cow.EnvOk(s, n.e) && EnvOf(k, s, n.e);
    OwnId(k, s, n.e);
    if s.pc[n.e].stage == Cow.Drop { UnmapStep(k, s, n, s.pc[n.e].v, s', s'.pc[n.e]); }
    else { UnmapStep(k, s, n, Cow.PFTEMP, s', s'.pc[n.e]); }
  }

  lemma HandlerIsFlat(k: Kernel, s: State, n: Step)
    requires Ready(k, s, n) && n.Handler?
    ensures Rel(KernelStep(k, s, n), Cow.Next(s, n))
  {
    match s.pc[n.e].stage
    case Alloc => HandlerAllocs(k, s, n);
    case Move => HandlerMaps(k, s, n);
    case Copy =>
      assert Cow.EnvOk(s, n.e) && EnvOf(k, s, n.e);
      NoCallMoves(k, s, n.e, Cow.Next(s, n), Cow.Next(s, n).pc[n.e]);
    case _ => HandlerUnmaps(k, s, n);
  }

  lemma NewPageIsFlat(k: Kernel, s: State, n: Step)
    requires Ready(k, s, n) && n.NewPage?
    ensures Rel(KernelStep(k, s, n), Cow.Next(s, n))
  {
    assert EnvOf(k, s, n.e);
    OwnId(k, s, n.e);
    AllocStep(k, s, n, 0, n.e, n.v, n.w, Cow.Next(s, n), s.pc[n.e]);
  }

  lemma DropPageIsFlat(k: Kernel, s: State, n: Step)
    requires Ready(k, s, n) && n.DropPage?
    ensures Rel(KernelStep(k, s, n), Cow.Next(s, n))
  {
    assert EnvOf(k, s, n.e);
    OwnId(k, s, n.e);
    assert n.v * PAGE / PAGE == n.v;
    UnmapStep(k, s, n, n.v, Cow.Next(s, n), s.pc[n.e]);
  }

  lemma WriteStays(k: Kernel, s: State, n: Step)
    requires Ready(k, s, n) && n.Write? && CallOf(k, s, n) == Option.None
    ensures Rel(k, Cow.Next(s, n))
  {
    assert EnvOf(k, s, n.e);
    var s' := Cow.Next(s, n);
    assert s'.pc == s.pc[n.e := s'.pc[n.e]];
    NoCallMoves(k, s, n.e, s', s'.pc[n.e]);
  }

  /** A write that is no copy-on-write fault ends the environment. */
  lemma WriteDies(k: Kernel, s: State, n: Step)
    requires Ready(k, s, n) && n.Write? && CallOf(k, s, n) != Option.None
    ensures Rel(KernelStep(k, s, n), Cow.Next(s, n))
  {
    DestroyStep(k, s, n);
  }

  lemma WriteIsFlat(k: Kernel, s: State, n: Step)
    requires Ready(k, s, n) && n.Write?
    ensures Rel(KernelStep(k, s, n), Cow.Next(s, n))
  {
    if CallOf(k, s, n) == Option.None { WriteStays(k, s, n); } else { WriteDies(k, s, n); }
  }

  lemma ExitIsFlat(k: Kernel, s: State, n: Step)
    requires Ready(k, s, n) && n.Exit?
    ensures Rel(KernelStep(k, s, n), Cow.Next(s, n))
  {
    DestroyStep(k, s, n);
  }

  /** sys_exofork: a slot that was free, with an empty address space and the parent's id */
  lemma ExoforkIsFlat(k: Kernel, s: State, n: Step)
    requires Ready(k, s, n) && n.Exofork?
    ensures Rel(KernelStep(k, s, n), Cow.Next(s, n))
  {
    assert EnvOf(k, s, n.e);
    OwnId(k, s, n.e);
    NewChild(k, s, n.e, n.child);
  }

  lemma NewChild(k: Kernel, s: State, e: nat, child: nat)
    requires Ok(k) && Rel(k, s) && Cow.Inv(s) && e in s.pc && s.pc[e] == Cow.Running && e < NENV && child !in s.pc
    requires k.mem.free != [] && k.efree != [] && child == k.efree[0]
    ensures Rel(SysExofork(k, e).1, Cow.At(Cow.At(s, child, Cow.Unborn(e)), e, Cow.Forking(child, Cow.UTEXT)))
  {
    ExoforkOk(k, e);
    var k', s' := SysExofork(k, e).1, Cow.At(Cow.At(s, child, Cow.Unborn(e)), e, Cow.Forking(child, Cow.UTEXT));
    SameSlotsShow(k.mem, s, k'.mem, s', child);
    forall x: nat ensures EnvOf(k', s', x) { ChildKnown(k, s, e, child, x); }
  }

  lemma ChildKnown(k: Kernel, s: State, e: nat, child: nat, x: nat)
    requires Ok(k) && Rel(k, s) && Cow.Inv(s) && e in s.pc && s.pc[e] == Cow.Running && e < NENV && child !in s.pc
    requires k.mem.free != [] && k.efree != [] && child == k.efree[0]
    ensures EnvOf(SysExofork(k, e).1, Cow.At(Cow.At(s, child, Cow.Unborn(e)), e, Cow.Forking(child, Cow.UTEXT)), x)
  {
    OthersStay(k, e);
    assert EnvOf(k, s, x) && EnvOf(k, s, e) && Cow.EnvOk(s, x);
  }

  lemma OthersStay(k: Kernel, e: nat)
    requires Ok(k) && e < NENV && k.mem.free != [] && k.efree != []
    ensures var k' := SysExofork(k, e).1; var child := k.efree[0];
            && |k'.envs| == NENV && child < NENV && k'.envs[child].status == NOT_RUNNABLE && k'.envs[child].parent == k.envs[e].id
            && (forall x: nat :: x < NENV && x != child ==> k'.envs[x] == k.envs[x])
  {
    ExoforkOk(k, e);
  }

  lemma SameSlotsShow(m: Mem, s: State, m': Mem, s': State, e: nat)
    requires Shows(m, s) && SameButAt(m, m', Dir(e)) && s'.pt == s.pt
    ensures Shows(m', s')
  {
    forall key: Cow.Key ensures ShowsAt(m', s', key) {
      var d, t := key.v / NPTENTRIES, key.v % NPTENTRIES;
      assert ShowsAt(m, s, key);
      assert Slot(m', Page(key.e, d, t)) == Slot(m, Page(key.e, d, t));
    }
  }

  /** duppage's first mapping: also that the count does not wrap */
  lemma FirstMappingIsFlat(k: Kernel, s: State, n: Step)
    requires Ready(k, s, n) && n.Fork? && s.pc[n.e].Forking? && CallOf(k, s, n) != Option.None
    ensures Rel(KernelStep(k, s, n), Cow.Next(s, n))
  {
    var pc := s.pc[n.e];
    var key := Cow.Key(n.e, pc.pn);
    var s' := Cow.Next(s, n);
    assert Cow.EnvOk(s, n.e) && EnvOf(k, s, n.e);
    OwnId(k, s, n.e);
    ChildsId(k, s, n.e);
    MapStep(k, s, n, 0, key, ChildId(k, pc), Cow.Key(pc.child, pc.pn), false, s.pt[key].w || s.pt[key].cow, s', s'.pc[n.e]);
  }

  lemma SecondMappingIsFlat(k: Kernel, s: State, n: Step)
    requires Ready(k, s, n) && n.Fork? && s.pc[n.e].Marking?
    ensures Rel(KernelStep(k, s, n), Cow.Next(s, n))
  {
    var key := Cow.Key(n.e, s.pc[n.e].pn);
    var s' := Cow.Next(s, n);
    assert Cow.EnvOk(s, n.e) && EnvOf(k, s, n.e);
    OwnId(k, s, n.e);
    assert s' == Cow.DupSecond(s, n.e, s.pc[n.e].child, s.pc[n.e].pn);
    MapStep(k, s, n, 0, key, 0, key, false, true, s', s'.pc[n.e]);
  }

  lemma LoopIsFlat(k: Kernel, s: State, n: Step)
    requires Ready(k, s, n) && n.Fork? && s.pc[n.e].Forking? && CallOf(k, s, n) == Option.None
    ensures Rel(k, Cow.Next(s, n))
  {
    var s' := Cow.Next(s, n);
    assert Cow.EnvOk(s, n.e) && EnvOf(k, s, n.e);
    NoCallMoves(k, s, n.e, s', s'.pc[n.e]);
  }

  lemma StackAllocIsFlat(k: Kernel, s: State, n: Step)
    requires Ready(k, s, n) && n.Fork? && s.pc[n.e].Stack? && s.pc[n.e].turn == 0
    ensures Rel(KernelStep(k, s, n), Cow.Next(s, n))
  {
    var s' := Cow.Next(s, n);
    assert EnvOf(k, s, n.e);
    OwnId(k, s, n.e);
    ChildsId(k, s, n.e);
    AllocStep(k, s, n, ChildId(k, s.pc[n.e]), s.pc[n.e].child, Cow.UXSTACK, true, s', s'.pc[n.e]);
  }

  lemma StackMapIsFlat(k: Kernel, s: State, n: Step)
    requires Ready(k, s, n) && n.Fork? && s.pc[n.e].Stack? && s.pc[n.e].turn == 1
    ensures Rel(KernelStep(k, s, n), Cow.Next(s, n))
  {
    var pc := s.pc[n.e];
    var s' := Cow.Next(s, n);
    assert Cow.EnvOk(s, n.e) && EnvOf(k, s, n.e);
    OwnId(k, s, n.e);
    ChildsId(k, s, n.e);
    MapStep(k, s, n, ChildId(k, pc), Cow.Key(pc.child, Cow.UXSTACK), 0, Cow.Key(n.e, Cow.PFTEMP), true, false, s', s'.pc[n.e]);
  }

  lemma StackCopyIsFlat(k: Kernel, s: State, n: Step)
    requires Ready(k, s, n) && n.Fork? && s.pc[n.e].Stack? && s.pc[n.e].turn == 2
    ensures Rel(KernelStep(k, s, n), Cow.Next(s, n))
  {
    if Cow.CanCopyStack(s, n.e) { StackCopied(k, s, n); } else { StackDies(k, s, n); }
  }

  /** Without PFTEMP the copy faults, and the handler panics. */
  lemma StackDies(k: Kernel, s: State, n: Step)
    requires Ready(k, s, n) && n.Fork? && s.pc[n.e].Stack? && s.pc[n.e].turn == 2 && !Cow.CanCopyStack(s, n.e)
    ensures Rel(KernelStep(k, s, n), Cow.Next(s, n))
  {
    DestroyStep(k, s, n);
  }

  lemma StackCopied(k: Kernel, s: State, n: Step)
    requires Ready(k, s, n) && n.Fork? && s.pc[n.e].Stack? && s.pc[n.e].turn == 2 && Cow.CanCopyStack(s, n.e)
    ensures Rel(k, Cow.Next(s, n))
  {
    var s' := Cow.Next(s, n);
    assert EnvOf(k, s, n.e);
    NoCallMoves(k, s, n.e, s', s'.pc[n.e]);
  }

  lemma StackUnmapIsFlat(k: Kernel, s: State, n: Step)
    requires Ready(k, s, n) && n.Fork? && s.pc[n.e].Stack? && s.pc[n.e].turn == 3
    ensures Rel(KernelStep(k, s, n), Cow.Next(s, n))
  {
    var s' := Cow.Next(s, n);
    assert EnvOf(k, s, n.e);
    OwnId(k, s, n.e);
    assert s' == Cow.At(Cow.PageUnmap(s, Cow.Key(n.e, Cow.PFTEMP)), n.e, Cow.Stack(s.pc[n.e].child, 4));
    UnmapStep(k, s, n, Cow.PFTEMP, s', Cow.Stack(s.pc[n.e].child, 4));
  }

  lemma ChildStartIsFlat(k: Kernel, s: State, n: Step)
    requires Ready(k, s, n) && n.Fork? && s.pc[n.e].Stack? && s.pc[n.e].turn > 3
    ensures Rel(KernelStep(k, s, n), Cow.Next(s, n))
  {
    var s' := Cow.Next(s, n);
    StartCall(k, s, n);
    var k' := KernelStep(k, s, n);
    ShowsTable(k'.mem, s, s');
    ChildStarted(k, s, k', s', n.e, s.pc[n.e].child);
  }

  /** The call makes the child runnable, which was waiting to be started, and changes nothing else. */
  lemma StartCall(k: Kernel, s: State, n: Step)
    requires Ready(k, s, n) && n.Fork? && s.pc[n.e].Stack? && s.pc[n.e].turn > 3
    ensures var child := s.pc[n.e].child;
            && n.e < |k.envs| && child < |k.envs| && child in s.pc && s.pc[child] == Cow.Unborn(n.e) && k.envs[child].status == NOT_RUNNABLE
            && k.envs[n.e].status != FREE
            && KernelStep(k, s, n) == k.(envs := k.envs[child := k.envs[child].(status := RUNNABLE)])
  {
    OwnId(k, s, n.e);
    ChildsId(k, s, n.e);
    assert Cow.EnvOk(s, n.e) && EnvOf(k, s, s.pc[n.e].child);
  }

  lemma ChildStarted(k: Kernel, s: State, k': Kernel, s': State, e: nat, child: nat)
    requires Rel(k, s) && e in s.pc && child in s.pc && child < |k.envs| && !s.pc[e].Unborn? && s.pc[child].Unborn?
    requires k'.envs == k.envs[child := k.envs[child].(status := RUNNABLE)] && Shows(k'.mem, s')
    requires s'.pc == s.pc[child := Cow.Running][e := Cow.Running]
    ensures Rel(k', s')
  {
    forall x: nat ensures EnvOf(k', s', x) { assert EnvOf(k, s, x); }
  }

  lemma ForkIsFlat(k: Kernel, s: State, n: Step)
    requires Ready(k, s, n) && n.Fork?
    ensures Rel(KernelStep(k, s, n), Cow.Next(s, n))
  {
    match s.pc[n.e]
    case Forking(_, _) => if CallOf(k, s, n) == Option.None { LoopIsFlat(k, s, n); } else { FirstMappingIsFlat(k, s, n); }
    case Marking(_, _) => SecondMappingIsFlat(k, s, n);
    case Stack(_, turn) =>
      if turn == 0 { StackAllocIsFlat(k, s, n); }
      else if turn == 1 { StackMapIsFlat(k, s, n); }
      else if turn == 2 { StackCopyIsFlat(k, s, n); }
      else if turn == 3 { StackUnmapIsFlat(k, s, n); }
      else { ChildStartIsFlat(k, s, n); }
  }

  /** What a step of the flat machine does, the kernel's call does. */
  lemma StepIsFlat(k: Kernel, s: State, n: Step)
    requires Ready(k, s, n)
    ensures Rel(KernelStep(k, s, n), Cow.Next(s, n))
  {
    match n
    case Write(_, _, _, _) => WriteIsFlat(k, s, n);
    case Handler(_, _) => HandlerIsFlat(k, s, n);
    case NewPage(_, _, _, _) => NewPageIsFlat(k, s, n);
    case DropPage(_, _) => DropPageIsFlat(k, s, n);
    case Exit(_) => ExitIsFlat(k, s, n);
    case Exofork(_, _) => ExoforkIsFlat(k, s, n);
    case Fork(_, _) => ForkIsFlat(k, s, n);
  }

  // ----- no step of fork breaks the kernel -----

  lemma MapIsSafe(k: Kernel, s: State, e: nat, sid: int, src: Cow.Key, did: int, dst: Cow.Key, w: bool, cow: bool)
    requires Ok(k) && Rel(k, s) && e < NENV && KernelTheorems.Live(k, e)
    requires Envid2Env(k, e, sid, true) == Option.Some(src.e) && Envid2Env(k, e, did, true) == Option.Some(dst.e)
    requires src.v * PAGE < UTOP && dst.v * PAGE < UTOP && src in s.pt
    requires s.pt[src].ppn < |k.mem.ref| && (k.mem.ref[s.pt[src].ppn] + 1 < REF_MODULUS || src == dst)
    ensures KernelTheorems.Safe(k, KernelTheorems.Entry(e, KernelTheorems.Map(sid, src.v * PAGE, did, dst.v * PAGE, UserPerm(w, cow))))
  {
    assert src.v * PAGE / PAGE == src.v && dst.v * PAGE / PAGE == dst.v;
    PageNumber(src.v * PAGE);
    PageNumber(dst.v * PAGE);
    assert ShowsAt(k.mem, s, src) && ShowsAt(k.mem, s, dst);
  }

  lemma UnmapIsSafe(k: Kernel, s: State, e: nat, v: nat)
    requires Ok(k) && Rel(k, s) && e < NENV && KernelTheorems.Live(k, e) && v * PAGE < UTOP && Cow.Key(e, v) in s.pt
    ensures KernelTheorems.Safe(k, KernelTheorems.Entry(e, KernelTheorems.Unmap(0, v * PAGE)))
  {
    assert v * PAGE / PAGE == v;
    PageNumber(v * PAGE);
    assert ShowsAt(k.mem, s, Cow.Key(e, v));
  }

  lemma SlotsInUse(k: Kernel, s: State)
    requires Ok(k) && Rel(k, s)
    ensures forall e: nat :: e in s.pc ==> e < NENV
  {
    forall e: nat | e in s.pc ensures e < NENV { assert EnvOf(k, s, e); }
  }

  lemma HandlerIsSafe(k: Kernel, s: State, n: Step)
    requires Ready(k, s, n) && n.Handler? && CallOf(k, s, n) != Option.None
    ensures KernelTheorems.Safe(k, KernelTheorems.Entry(n.e, CallOf(k, s, n).value))
  {
    var tmp, key := Cow.Key(n.e, Cow.PFTEMP), Cow.Key(n.e, s.pc[n.e].v);
    assert Cow.EnvOk(s, n.e);
    OwnId(k, s, n.e);
    match s.pc[n.e].stage
    case Move =>
      SoloCount(k.mem, s, tmp);
      MapIsSafe(k, s, n.e, 0, tmp, 0, key, true, false);
    case Drop => UnmapIsSafe(k, s, n.e, key.v);
    case Finish => UnmapIsSafe(k, s, n.e, Cow.PFTEMP);
    case _ =>
  }

  lemma DuppageIsSafe(k: Kernel, s: State, n: Step)
    requires Ready(k, s, n) && n.Fork? && (s.pc[n.e].Forking? || s.pc[n.e].Marking?) && CallOf(k, s, n) != Option.None
    ensures KernelTheorems.Safe(k, KernelTheorems.Entry(n.e, CallOf(k, s, n).value))
  {
    var pc := s.pc[n.e];
    var key := Cow.Key(n.e, pc.pn);
    assert Cow.EnvOk(s, n.e);
    OwnId(k, s, n.e);
    ChildsId(k, s, n.e);
    SlotsInUse(k, s);
    CountIsSmall(k.mem, s, key);
    if pc.Marking? { MapIsSafe(k, s, n.e, 0, key, 0, key, false, true); }
    else { MapIsSafe(k, s, n.e, 0, key, ChildId(k, pc), Cow.Key(pc.child, pc.pn), false, s.pt[key].w || s.pt[key].cow); }
  }

  lemma StackIsSafe(k: Kernel, s: State, n: Step)
    requires Ready(k, s, n) && n.Fork? && s.pc[n.e].Stack? && CallOf(k, s, n) != Option.None
    ensures KernelTheorems.Safe(k, KernelTheorems.Entry(n.e, CallOf(k, s, n).value))
  {
    var pc := s.pc[n.e];
    assert Cow.EnvOk(s, n.e);
    OwnId(k, s, n.e);
    ChildsId(k, s, n.e);
    if pc.turn == 1 { MapIsSafe(k, s, n.e, ChildId(k, pc), Cow.Key(pc.child, Cow.UXSTACK), 0, Cow.Key(n.e, Cow.PFTEMP), true, false); }
    else if pc.turn == 3 { UnmapIsSafe(k, s, n.e, Cow.PFTEMP); }
  }

  lemma OthersAreSafe(k: Kernel, s: State, n: Step)
    requires Ready(k, s, n) && !n.Handler? && !n.Fork? && CallOf(k, s, n) != Option.None
    ensures KernelTheorems.Safe(k, KernelTheorems.Entry(n.e, CallOf(k, s, n).value))
  {
    OwnId(k, s, n.e);
    if n.DropPage? {
      assert n.v * PAGE / PAGE == n.v;
      UnmapIsSafe(k, s, n.e, n.v);
    }
  }

  lemma CallIsSafe(k: Kernel, s: State, n: Step)
    requires Ready(k, s, n) && CallOf(k, s, n) != Option.None
    ensures KernelTheorems.Safe(k, KernelTheorems.Entry(n.e, CallOf(k, s, n).value))
  {
    if n.Handler? { HandlerIsSafe(k, s, n); }
    else if n.Fork? {
      if s.pc[n.e].Stack? { StackIsSafe(k, s, n); } else { DuppageIsSafe(k, s, n); }
    } else { OthersAreSafe(k, s, n); }
  }

  /** The kernel's invariant survives every step, without an assumption on counts or unmaps beyond Resources; and
      every mapping stays one that a user may use. */
  lemma StepIsSafe(k: Kernel, s: State, n: Step)
    requires Ready(k, s, n)
    ensures Ok(KernelStep(k, s, n))
    ensures LeavesOk(k.mem) ==> LeavesOk(KernelStep(k, s, n).mem)
  {
    if CallOf(k, s, n) != Option.None {
      var entry := KernelTheorems.Entry(n.e, CallOf(k, s, n).value);
      CallIsSafe(k, s, n);
      KernelTheorems.StepOk(k, entry);
      if LeavesOk(k.mem) { StepLeaves(k, entry); }
    }
  }

  // ----- runs -----

  /** A step of the environment that runs, or a CPU that turns from one environment to another */
  datatype Move = Do(n: Step) | Switch(from: nat, to: nat)

  ghost predicate CanMove(k: Kernel, s: State, x: Move)
    requires Ok(k) && Rel(k, s) && Cow.Inv(s)
  {
    match x
    case Do(n) => Ready(k, s, n) && n.e < |k.envs| && k.envs[n.e].status == RUNNING && Cow.Inv(Cow.Next(s, n))
    case Switch(from, _) => KernelTheorems.Live(k, from)
  }

  ghost function KernelMove(k: Kernel, s: State, x: Move): Kernel
    requires Ok(k) && Rel(k, s) && Cow.Inv(s) && CanMove(k, s, x)
  {
    match x
    case Do(n) => KernelStep(k, s, n)
    case Switch(from, to) => KernelTheorems.SysSwitch(k, from, to)
  }

  ghost function FlatMove(k: Kernel, s: State, x: Move): State
    requires Ok(k) && Rel(k, s) && Cow.Inv(s) && CanMove(k, s, x)
  {
    if x.Do? then Cow.Next(s, x.n) else s
  }

  ghost function ActOf(k: Kernel, s: State, x: Move): Cow.Act
    requires Ok(k) && Rel(k, s) && Cow.Inv(s) && CanMove(k, s, x)
  {
    if x.Do? then Cow.Visible(s, x.n) else Cow.Skip
  }

  lemma SwitchIsSilent(k: Kernel, s: State, from: nat, to: nat)
    requires Ok(k) && Rel(k, s) && KernelTheorems.Live(k, from)
    ensures var k' := KernelTheorems.SysSwitch(k, from, to); Ok(k') && Rel(k', s) && k'.mem == k.mem
  {
    KernelTheorems.SwitchOk(k, from, to);
    var k' := KernelTheorems.SysSwitch(k, from, to);
    SwitchKeepsSlots(k, from, to);
    SameSlots(k, s, k');
  }

  /** The two slots are alike to a forking program. */
  predicate Alike(a: Env, b: Env) {
    a.id == b.id && a.parent == b.parent && a.recving == b.recving
    && (a.status == FREE <==> b.status == FREE) && (a.status == NOT_RUNNABLE <==> b.status == NOT_RUNNABLE)
  }

  lemma SwitchKeepsSlots(k: Kernel, from: nat, to: nat)
    requires Ok(k) && KernelTheorems.Live(k, from)
    ensures var k' := KernelTheorems.SysSwitch(k, from, to);
            |k'.envs| == |k.envs| && forall x: nat :: x < |k.envs| ==> Alike(k.envs[x], k'.envs[x])
  {
  }

  lemma SameSlots(k: Kernel, s: State, k': Kernel)
    requires Rel(k, s) && k'.mem == k.mem && |k'.envs| == |k.envs| && forall x: nat :: x < |k.envs| ==> Alike(k.envs[x], k'.envs[x])
    ensures Rel(k', s)
  {
    forall x: nat ensures EnvOf(k', s, x) { assert EnvOf(k, s, x); }
  }

  lemma MoveKeeps(k: Kernel, s: State, x: Move)
    requires Ok(k) && Rel(k, s) && Cow.Inv(s) && CanMove(k, s, x)
    ensures Ok(KernelMove(k, s, x)) && Rel(KernelMove(k, s, x), FlatMove(k, s, x)) && Cow.Inv(FlatMove(k, s, x))
    ensures LeavesOk(k.mem) ==> LeavesOk(KernelMove(k, s, x).mem)
  {
    match x
    case Do(n) =>
      StepIsSafe(k, s, n);
      StepIsFlat(k, s, n);
    case Switch(from, to) => SwitchIsSilent(k, s, from, to);
  }

  /** The run of the flat machine from s to s', whose calls take the kernel from k to k'. Only the environment a CPU runs
      takes a step. */
  ghost predicate RunsTo(k: Kernel, s: State, run: seq<Move>, acts: seq<Cow.Act>, k': Kernel, s': State)
    requires Ok(k) && Rel(k, s) && Cow.Inv(s)
    decreases |run|
  {
    if run == [] then k' == k && s' == s && acts == []
    else
      && CanMove(k, s, run[0])
      && acts != [] && acts[0] == ActOf(k, s, run[0])
      && (MoveKeeps(k, s, run[0]);
          RunsTo(KernelMove(k, s, run[0]), FlatMove(k, s, run[0]), run[1..], acts[1..], k', s'))
  }

  lemma MoveRefines(k: Kernel, s: State, g: map<Cow.Key, Cow.Cell>, x: Move)
    requires Ok(k) && Rel(k, s) && Cow.Good(s, g) && CanMove(k, s, x)
    ensures Cow.Good(FlatMove(k, s, x), Cow.Eager(g, ActOf(k, s, x)))
  {
    if x.Do? { CowForkRuns.StepKeeps(s, g, x.n); }
  }

  /** Every run of forking programs on the kernel keeps the kernel's invariant, and leaves in its page tables what
      copying eagerly would have left: the flat machine's pages, which agree with the eager machine's. */
  lemma {:induction false} KernelForkRefinesEager(k: Kernel, s: State, g: map<Cow.Key, Cow.Cell>, run: seq<Move>, acts: seq<Cow.Act>,
                                                 k': Kernel, s': State)
    requires Ok(k) && Rel(k, s) && LeavesOk(k.mem) && Cow.Good(s, g) && RunsTo(k, s, run, acts, k', s')
    ensures Ok(k') && Rel(k', s') && LeavesOk(k'.mem) && Cow.Good(s', CowForkRuns.EagerRun(g, acts))
    decreases |run|
  {
    if run != [] {
      MoveKeeps(k, s, run[0]);
      MoveRefines(k, s, g, run[0]);
      KernelForkRefinesEager(KernelMove(k, s, run[0]), FlatMove(k, s, run[0]), Cow.Eager(g, acts[0]), run[1..], acts[1..], k', s');
    }
  }

  /** Over every run: a child is not runnable as long as its parent has not finished fork, and from then on it is, or runs,
      or waits in a receive of its own; so is every other environment. */
  lemma ChildRunsOnceForked(k: Kernel, s: State, g: map<Cow.Key, Cow.Cell>, run: seq<Move>, acts: seq<Cow.Act>, k': Kernel, s': State, e: nat)
    requires Ok(k) && Rel(k, s) && LeavesOk(k.mem) && Cow.Good(s, g) && RunsTo(k, s, run, acts, k', s') && e in s'.pc
    ensures e < |k'.envs| && k'.envs[e].status != FREE
    ensures s'.pc[e].Unborn? ==> k'.envs[e].status == NOT_RUNNABLE
    ensures !s'.pc[e].Unborn? && !k'.envs[e].recving ==> k'.envs[e].status in {RUNNABLE, RUNNING, DYING}
  {
    KernelForkRefinesEager(k, s, g, run, acts, k', s');
    assert EnvOf(k', s', e);
  }

  /** The last step of fork makes the child runnable and changes no other environment; a CPU that turns to it runs it. */
  lemma ForkStartsChild(k: Kernel, s: State, n: Step)
    requires Ready(k, s, n) && n.Fork? && s.pc[n.e].Stack? && s.pc[n.e].turn > 3
    ensures var child := s.pc[n.e].child; var k' := KernelStep(k, s, n);
            && child < |k.envs| && k.envs[child].status == NOT_RUNNABLE
            && k' == k.(envs := k.envs[child := k.envs[child].(status := RUNNABLE)])
            && Cow.Next(s, n).pc == s.pc[child := Cow.Running][n.e := Cow.Running]
            && Ok(k') && KernelTheorems.Live(k', n.e) && KernelTheorems.SysSwitch(k', n.e, child).envs[child].status == RUNNING
  {
    StartCall(k, s, n);
    StepIsSafe(k, s, n);
    TurnedTo(KernelStep(k, s, n), n.e, s.pc[n.e].child);
  }

  lemma TurnedTo(k: Kernel, from: nat, to: nat)
    requires Ok(k) && KernelTheorems.Live(k, from) && to < |k.envs| && k.envs[to].status == RUNNABLE
    ensures KernelTheorems.SysSwitch(k, from, to).envs[to].status == RUNNING
  {
  }

  /** In the processor's terms: an environment outside its handler can read page v if and only if the eager machine has the
      page, and finds its bytes there; it can write, at once or after a fault, if and only if it may there. */
  lemma KernelShowsEagerPages(k: Kernel, s: State, g: map<Cow.Key, Cow.Cell>, e: nat, v: nat)
    requires Ok(k) && Rel(k, s) && LeavesOk(k.mem) && Cow.Good(s, g) && Cow.InRange(v) && (e in s.pc ==> Cow.Active(s.pc[e]))
    ensures var m := k.mem; var key := Cow.Key(e, v); var pte := PteOf(m, e, v / NPTENTRIES, v % NPTENTRIES);
            if e in m.dirs then
              && (UserAccess(m, m.dirs[e], v, false) <==> key in g)
              && (key in g ==> Cow.Data(s, pte.ppn) == g[key].page && (UserAccess(m, m.dirs[e], v, true) || pte.perm.cow <==> g[key].writable))
              && (UserAccess(m, m.dirs[e], v, true) ==> key in g && g[key].writable)
            else key !in g
  {
    assert ShowsAt(k.mem, s, Cow.Key(e, v));
    CowForkRuns.SeesTheEagerPages(s, g, e, v);
    if e in k.mem.dirs {
      AccessNow(k, e, v, false);
      AccessNow(k, e, v, true);
    }
  }
}
