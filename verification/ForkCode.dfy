/** lib/fork.c as code: pgfault, duppage and fork issue their system calls in order on a
    shared machine state, and are proved against the eager machine. */
module CowForkCode {
  import opened CowFork
  import opened CowForkRuns

  class Machine {
    var pt: map<Key, Mapping>
    var data: map<nat, Page>
    /** Where each environment's program is */
    var pc: map<nat, Pc>
    /** What the eager machine holds */
    ghost var g: map<Key, Cell>

    ghost function View(): State
      reads this
    {
      State(pt, data, pc)
    }

    /** A page nobody maps: the model's memory does not run out. */
    method FreePage() returns (p: nat)
      ensures Fresh(View(), p)
    {
      p := 0;
      var rest := pt;
      while rest.Keys != {}
        invariant rest.Keys <= pt.Keys
        invariant forall k :: k in rest ==> rest[k] == pt[k]
        invariant forall k :: k in pt && k !in rest ==> pt[k].ppn < p
        decreases rest.Keys
      {
        var k :| k in rest;
        if pt[k].ppn >= p { p := pt[k].ppn + 1; }
        rest := rest - {k};
      }
    }

    // ----- system calls -----

    /** sys_page_alloc with P|U|W */
    method SysPageAlloc(e: nat, v: nat) returns (ghost p: nat)
      modifies this`pt, this`data
      ensures old(Fresh(View(), p)) && View() == PageAlloc(old(View()), Key(e, v), true, p)
    {
      var q := FreePage();
      pt := pt[Key(e, v) := Mapping(q, true, false)];
      data := data[q := ZeroPage()];
      p := q;
    }

    /** sys_page_map: the source must be mapped, and writable for a writable mapping */
    method SysPageMap(srcE: nat, srcV: nat, dstE: nat, dstV: nat, w: bool, cow: bool) returns (ok: bool)
      modifies this`pt
      ensures ok == (Key(srcE, srcV) in old(pt) && (w ==> old(pt)[Key(srcE, srcV)].w))
      ensures View() == if ok then PageMap(old(View()), Key(srcE, srcV), Key(dstE, dstV), w, cow) else old(View())
    {
      var src := Key(srcE, srcV);
      if src !in pt || (w && !pt[src].w) { return false; }
      pt := pt[Key(dstE, dstV) := Mapping(pt[src].ppn, w, cow)];
      ok := true;
    }

    method SysPageUnmap(e: nat, v: nat)
      modifies this`pt
      ensures View() == PageUnmap(old(View()), Key(e, v))
    {
      pt := pt - {Key(e, v)};
    }

    /** memmove of a page between two mapped pages of e */
    method CopyTo(e: nat, dst: nat, src: nat)
      requires Key(e, dst) in pt && Key(e, src) in pt
      modifies this`data
      ensures View() == CopyPage(old(View()), Key(e, src), Key(e, dst))
    {
      data := data[pt[Key(e, dst)].ppn := if pt[Key(e, src)].ppn in data then data[pt[Key(e, src)].ppn] else ZeroPage()];
    }

    // ----- the handler -----

    /** pgfault with the error word of its frame: gives e its own writable copy of page v, on a page p that
        nobody had; every other mapping stays, and no environment's bytes change. false is a panic. The kernel
        puts the trap number into the frame, and 14 has the write bit. */
    method Pgfault(e: nat, v: nat, err: nat) returns (ok: bool, ghost p: nat)
      requires Good(View(), g) && e in pc && pc[e].Fault? && pc[e].v == v && pc[e].stage == Alloc
      modifies this`pt, this`data, this`pc
      ensures ok == (err / 2 % 2 == 1) && (err == 14 ==> ok)
      ensures ok ==> Good(View(), g) && pc == old(pc[e := pc[e].back]) && old(Fresh(View(), p))
      ensures ok ==> pt == old(pt)[Key(e, v) := Mapping(p, true, false)] - {Key(e, PFTEMP)}
      ensures !ok ==> View() == old(View())
    {
      assert EnvOk(View(), e);
      p := 0;
      if err / FEC_WR % 2 == 0 || !pt[Key(e, v)].cow { return false, 0; }
      var back := pc[e].back;
      p := FaultBegin(e, v, back);
      FaultEnd(e, v, back);
      ok := true;
    }

    /** sys_page_alloc at PFTEMP and the copy */
    method FaultBegin(e: nat, v: nat, ghost back: Pc) returns (ghost p: nat)
      requires Good(View(), g) && e in pc && pc[e] == Fault(v, Alloc, back)
      modifies this`pt, this`data, this`pc
      ensures Good(View(), g) && pc == old(pc)[e := Fault(v, Drop, back)]
      ensures old(Fresh(View(), p)) && pt == old(pt)[Key(e, PFTEMP) := Mapping(p, true, false)]
    {
      ghost var s := View();
      p := SysPageAlloc(e, PFTEMP);
      pc := pc[e := Fault(v, Copy, pc[e].back)];
      StepKeeps(s, g, Handler(e, p));
      ghost var s1 := View();
      assert EnvOk(s1, e);
      CopyTo(e, PFTEMP, v);
      pc := pc[e := Fault(v, Drop, pc[e].back)];
      StepKeeps(s1, g, Handler(e, 0));
    }

    /** The unmap, map and unmap */
    method FaultEnd(e: nat, v: nat, ghost back: Pc)
      requires Good(View(), g) && e in pc && pc[e] == Fault(v, Drop, back)
      modifies this`pt, this`data, this`pc
      ensures Good(View(), g) && pc == old(pc)[e := back] && Key(e, PFTEMP) in old(pt)
      ensures pt == old(pt)[Key(e, v) := Mapping(old(pt)[Key(e, PFTEMP)].ppn, true, false)] - {Key(e, PFTEMP)}
    {
      ghost var s := View();
      assert EnvOk(s, e);
      SysPageUnmap(e, v);
      pc := pc[e := Fault(v, Move, pc[e].back)];
      StepKeeps(s, g, Handler(e, 0));
      ghost var s1 := View();
      assert EnvOk(s1, e);
      var ok := SysPageMap(e, PFTEMP, e, v, true, false);
      pc := pc[e := Fault(v, Finish, pc[e].back)];
      StepKeeps(s1, g, Handler(e, 0));
      ghost var s2 := View();
      SysPageUnmap(e, PFTEMP);
      pc := pc[e := pc[e].back];
      StepKeeps(s2, g, Handler(e, 0));
    }

    // ----- memory writes -----

    /** A store by e to a page it may write: at once, or after pgfault has made the page its own. */
    method Write(e: nat, s: Poke)
      requires Good(View(), g) && e in pc && Active(pc[e]) && MayWrite(g, e, s.v)
      modifies this
      ensures Good(View(), g) && pc == old(pc) && g == Eager(old(g), Put(e, s.v, s.off, s.b))
      ensures (old(HasStack(e)) ==> HasStack(e)) && forall k: Key :: Pending(View(), k) == old(Pending(View(), k))
      ensures OwnPage(e, s.v)
      ensures forall v: nat :: old(OwnPage(e, v)) ==> OwnPage(e, v)
    {
      var k := Key(e, s.v);
      assert MatchesAt(View(), g, k);
      if !pt[k].w { Trap(e, s); }
      StoreOne(e, s);
    }

    /** The store traps on a copy-on-write page. */
    method Trap(e: nat, s: Poke)
      requires Good(View(), g) && e in pc && Active(pc[e]) && InRange(s.v)
      requires Key(e, s.v) in pt && !pt[Key(e, s.v)].w && pt[Key(e, s.v)].cow
      modifies this`pt, this`data, this`pc
      ensures Good(View(), g) && pc == old(pc) && OwnPage(e, s.v)
      ensures forall v: nat :: old(OwnPage(e, v)) ==> OwnPage(e, v)
      ensures (old(HasStack(e)) ==> HasStack(e)) && forall k: Key :: Pending(View(), k) == old(Pending(View(), k))
    {
      ghost var s0 := View();
      pc := pc[e := Fault(s.v, Alloc, pc[e])];
      StepKeeps(s0, g, CowFork.Write(e, s.v, s.off, s.b));
      var ok, p := Pgfault(e, s.v, T_PGFLT);
      forall k: Key ensures Pending(View(), k) == Pending(s0, k) {
        PendingStays(s0, View(), e, s.v, p, k);
      }
    }

    /** The stores that e's own calls and locals make on the way */
    method WriteAll(e: nat, pushes: seq<Poke>)
      requires Good(View(), g) && e in pc && Active(pc[e]) && forall s :: s in pushes ==> MayWrite(g, e, s.v)
      modifies this
      ensures Good(View(), g) && pc == old(pc) && g == EagerRun(old(g), Puts(e, pushes))
      ensures (old(HasStack(e)) ==> HasStack(e)) && forall k: Key :: Pending(View(), k) == old(Pending(View(), k))
      ensures forall s :: s in pushes ==> OwnPage(e, s.v)
      ensures forall v: nat :: old(OwnPage(e, v)) ==> OwnPage(e, v)
    {
      var i := 0;
      while i < |pushes|
        invariant 0 <= i <= |pushes|
        invariant Good(View(), g) && pc == old(pc) && EagerRun(g, Puts(e, pushes[i..])) == EagerRun(old(g), Puts(e, pushes))
        invariant forall s :: s in pushes ==> MayWrite(g, e, s.v)
        invariant forall j :: 0 <= j < i ==> OwnPage(e, pushes[j].v)
        invariant forall v: nat :: old(OwnPage(e, v)) ==> OwnPage(e, v)
        invariant (old(HasStack(e)) ==> HasStack(e)) && forall k: Key :: Pending(View(), k) == old(Pending(View(), k))
      {
        assert pushes[i..][0] == pushes[i] && pushes[i..][1..] == pushes[i + 1..];
        Write(e, pushes[i]);
        i := i + 1;
      }
    }

    /** A page of e's in the range that takes a store at once */
    predicate OwnPage(e: nat, v: nat)
      reads this`pt
    {
      InRange(v) && Key(e, v) in pt && pt[Key(e, v)].w
    }

    /** Stores to pages that are e's own already */
    method StoreAll(e: nat, pushes: seq<Poke>)
      requires Good(View(), g) && e in pc && Active(pc[e]) && forall s :: s in pushes ==> OwnPage(e, s.v)
      modifies this`data, this`g
      ensures Good(View(), g) && g == EagerRun(old(g), Puts(e, pushes))
    {
      var i := 0;
      while i < |pushes|
        invariant 0 <= i <= |pushes|
        invariant Good(View(), g) && EagerRun(g, Puts(e, pushes[i..])) == EagerRun(old(g), Puts(e, pushes))
      {
        assert pushes[i..][0] == pushes[i] && pushes[i..][1..] == pushes[i + 1..];
        StoreOne(e, pushes[i]);
        i := i + 1;
      }
    }

    method StoreOne(e: nat, s: Poke)
      requires Good(View(), g) && e in pc && Active(pc[e]) && OwnPage(e, s.v)
      modifies this`data, this`g
      ensures Good(View(), g) && g == Eager(old(g), Put(e, s.v, s.off, s.b))
    {
      var k := Key(e, s.v);
      ghost var s1 := View();
      var page := if pt[k].ppn in data then data[pt[k].ppn] else ZeroPage();
      data := data[pt[k].ppn := Store(page, s.off, s.b)];
      StepKeeps(s1, g, CowFork.Write(e, s.v, s.off, s.b));
      g := Eager(g, Put(e, s.v, s.off, s.b));
    }

    // ----- fork -----

    predicate HasStack(e: nat)
      reads this`pt
    {
      Key(e, UXSTACK) in pt && pt[Key(e, UXSTACK)].w
    }

    /** duppage on a page that is present, the parent storing on its stack between the two calls: to the
        eager machine, a copy and those stores; the copy comes last if the page was writable. */
    method Duppage(e: nat, child: nat, pn: nat, pushes: seq<Poke>)
      requires Good(View(), g) && e in pc && pc[e] == Forking(child, pn) && InRange(pn) && Key(e, pn) in pt
      requires forall s :: s in pushes ==> MayWrite(g, e, s.v)
      modifies this
      ensures Good(View(), g) && pc == old(pc)[e := Forking(child, pn + 1)]
      ensures g == EagerRun(old(g), Duped(e, child, pn, pushes, old(pt)[Key(e, pn)].w))
      ensures old(HasStack(e)) ==> HasStack(e)
    {
      assert EnvOk(View(), e);
      var w, cow := MapToChild(e, child, pn);
      WriteAll(e, pushes);
      DupedRun(old(g), e, child, pn, pushes, w);
      if cow { MarkOwn(e, child, pn); }
    }

    /** The first mapping */
    method MapToChild(e: nat, child: nat, pn: nat) returns (w: bool, cow: bool)
      requires Good(View(), g) && e in pc && pc[e] == Forking(child, pn) && InRange(pn) && Key(e, pn) in pt
      modifies this
      ensures w == old(pt)[Key(e, pn)].w && cow == (w || old(pt)[Key(e, pn)].cow)
      ensures Good(View(), g) && pc == old(pc)[e := if cow then Marking(child, pn) else Forking(child, pn + 1)]
      ensures g == if w then old(g) else Eager(old(g), Copied(e, child, pn))
      ensures (old(HasStack(e)) ==> HasStack(e)) && Pending(View(), Key(child, pn)) == w
    {
      ghost var s, n := View(), Fork(e, 0);
      assert EnvOk(s, e) && EnvOk(s, child);
      w := pt[Key(e, pn)].w;
      cow := w || pt[Key(e, pn)].cow;
      var ok := SysPageMap(e, pn, child, pn, false, cow);
      pc := pc[e := if cow then Marking(child, pn) else Forking(child, pn + 1)];
      StepKeeps(s, g, n);
      if !w { g := Eager(g, Copied(e, child, pn)); }
    }

    /** The second mapping */
    method MarkOwn(e: nat, child: nat, pn: nat)
      requires Good(View(), g) && e in pc && pc[e] == Marking(child, pn)
      modifies this
      ensures Good(View(), g) && pc == old(pc)[e := Forking(child, pn + 1)]
      ensures g == if old(Pending(View(), Key(child, pn))) then Eager(old(g), Copied(e, child, pn)) else old(g)
      ensures old(HasStack(e)) ==> HasStack(e)
    {
      ghost var s, n := View(), Fork(e, 0);
      assert EnvOk(s, e) && EnvOk(s, child);
      var ok := SysPageMap(e, pn, e, pn, false, true);
      pc := pc[e := Forking(child, pn + 1)];
      StepKeeps(s, g, n);
      if Pending(s, Key(child, pn)) { g := Eager(g, Copied(e, child, pn)); }
    }

    /** The loop of fork. `pushes` are the stores that the parent makes on its own pages, such as its stack,
        at each page; `acts` is what the loop is to the eager machine. */
    method CopySpace(e: nat, child: nat, pushes: nat -> seq<Poke>, ghost own: set<nat>) returns (ghost acts: seq<Act>)
      requires Good(View(), g) && e in pc && pc[e] == Forking(child, UTEXT) && forall v: nat :: Key(child, v) !in g
      requires Owns(g, e, own) && forall pn: nat, s :: s in pushes(pn) ==> s.v in own
      modifies this
      ensures Good(View(), g) && pc == old(pc)[e := Forking(child, UXSTACK)]
      ensures g == EagerRun(old(g), acts) && Copies(acts, e, child, UTEXT, UXSTACK, own) && ByFork(acts, e, child)
      ensures child != e && (old(HasStack(e)) ==> HasStack(e))
    {
      var pn := UTEXT;
      assert EnvOk(View(), e);
      acts := [];
      while pn < UXSTACK
        invariant UTEXT <= pn <= UXSTACK && pc == old(pc)[e := Forking(child, pn)]
        invariant Good(View(), g) && g == EagerRun(old(g), acts) && Copies(acts, e, child, UTEXT, pn, own)
        invariant Owns(g, e, own) && ByFork(acts, e, child)
        invariant old(HasStack(e)) ==> HasStack(e)
      {
        ghost var g1, w := g, Key(e, pn) in pt && pt[Key(e, pn)].w;
        CopyOne(e, child, pn, pushes(pn));
        ghost var turn := Duped(e, child, pn, pushes(pn), w);
        OneTurn(g1, e, child, pn, pushes(pn), own, turn, w);
        Joined(acts, turn, e, child, UTEXT, pn, pn + 1, own);
        RunJoin(old(g), acts, turn);
        acts := acts + turn;
        pn := pn + 1;
      }
    }

    /** One turn of the loop */
    method CopyOne(e: nat, child: nat, pn: nat, pushes: seq<Poke>)
      requires Good(View(), g) && e in pc && pc[e] == Forking(child, pn) && InRange(pn)
      requires forall s :: s in pushes ==> MayWrite(g, e, s.v)
      modifies this
      ensures Good(View(), g) && pc == old(pc)[e := Forking(child, pn + 1)]
      ensures g == EagerRun(old(g), Duped(e, child, pn, pushes, Key(e, pn) in old(pt) && old(pt)[Key(e, pn)].w))
      ensures old(HasStack(e)) ==> HasStack(e)
    {
      if Key(e, pn) in pt {
        Duppage(e, child, pn, pushes);
      } else {
        ghost var s := View();
        assert MatchesAt(s, g, Key(e, pn));
        pc := pc[e := Forking(child, pn + 1)];
        StepKeeps(s, g, Fork(e, 0));
        WriteAll(e, pushes);
        DupedRun(old(g), e, child, pn, pushes, false);
      }
    }

    /** The child's exception stack, the parent storing on its stack at every call: `late(i)` before call i. The memmove
        goes from PFTEMP to our own exception stack. */
    method CopyStack(e: nat, child: nat, late: nat -> seq<Poke>)
      requires Good(View(), g) && e in pc && pc[e] == Forking(child, UXSTACK) && HasStack(e)
      requires child != e && forall i: nat, s :: s in late(i) ==> OwnPage(e, s.v)
      modifies this
      ensures Good(View(), g) && pc == old(pc)[e := Stack(child, 3)]
      ensures forall v: nat :: old(OwnPage(e, v)) ==> OwnPage(e, v)
      ensures g == EagerRun(EagerRun(EagerRun(old(g), Puts(e, late(0))), Puts(e, late(1))), Puts(e, late(2)))
    {
      NewStack(e, child, late(0));
      MapStack(e, child, late(1));
      CopyOver(e, child, late(2));
    }

    method CopyOver(e: nat, child: nat, late: seq<Poke>)
      requires Good(View(), g) && e in pc && pc[e] == Stack(child, 2) && HasStack(e) && Key(e, PFTEMP) in pt
      requires forall s :: s in late ==> OwnPage(e, s.v)
      modifies this`data, this`pc, this`g
      ensures Good(View(), g) && pc == old(pc)[e := Stack(child, 3)] && g == EagerRun(old(g), Puts(e, late))
    {
      StoreAll(e, late);
      ghost var s2 := View();
      CopyTo(e, UXSTACK, PFTEMP);
      pc := pc[e := Stack(child, 3)];
      StepKeeps(s2, g, Fork(e, 0));
    }

    method MapStack(e: nat, child: nat, late: seq<Poke>)
      requires Good(View(), g) && e in pc && pc[e] == Stack(child, 1) && HasStack(e)
      requires forall s :: s in late ==> OwnPage(e, s.v)
      modifies this
      ensures Good(View(), g) && pc == old(pc)[e := Stack(child, 2)] && HasStack(e) && Key(e, PFTEMP) in pt
      ensures g == EagerRun(old(g), Puts(e, late))
      ensures forall v: nat :: old(OwnPage(e, v)) ==> OwnPage(e, v)
    {
      StoreAll(e, late);
      ghost var s1 := View();
      assert EnvOk(s1, e);
      var ok := SysPageMap(child, UXSTACK, e, PFTEMP, true, false);
      pc := pc[e := Stack(child, 2)];
      StepKeeps(s1, g, Fork(e, 0));
    }

    method NewStack(e: nat, child: nat, late: seq<Poke>)
      requires Good(View(), g) && e in pc && pc[e] == Forking(child, UXSTACK) && HasStack(e)
      requires child != e && forall s :: s in late ==> OwnPage(e, s.v)
      modifies this
      ensures Good(View(), g) && pc == old(pc)[e := Stack(child, 1)] && HasStack(e) && g == EagerRun(old(g), Puts(e, late))
      ensures forall v: nat :: old(OwnPage(e, v)) ==> OwnPage(e, v)
    {
      ghost var s := View();
      pc := pc[e := Stack(child, 0)];
      StepKeeps(s, g, Fork(e, 0));
      StoreAll(e, late);
      ghost var s0 := View();
      ghost var p := SysPageAlloc(child, UXSTACK);
      pc := pc[e := Stack(child, 1)];
      StepKeeps(s0, g, Fork(e, p));
    }

    /** The end of fork: unmap PFTEMP and make the child runnable. */
    method StartChild(e: nat, child: nat, late: nat -> seq<Poke>)
      requires Good(View(), g) && e in pc && pc[e] == Stack(child, 3) && forall i: nat, s :: s in late(i) ==> OwnPage(e, s.v)
      modifies this
      ensures Good(View(), g) && pc == old(pc)[e := Running][child := Running]
      ensures g == EagerRun(EagerRun(old(g), Puts(e, late(3))), Puts(e, late(4)))
    {
      StoreAll(e, late(3));
      ghost var s := View();
      assert EnvOk(s, e);
      SysPageUnmap(e, PFTEMP);
      pc := pc[e := Stack(child, 4)];
      StepKeeps(s, g, Fork(e, 0));
      StoreAll(e, late(4));
      ghost var s1 := View();
      pc := pc[child := Running];
      pc := pc[e := Running];
      StepKeeps(s1, g, Fork(e, 0));
    }

    /** After the loop: a first store to each page the parent will store to makes it the parent's own. */
    method AfterLoop(e: nat, child: nat, pushes: seq<Poke>, late: nat -> seq<Poke>, ghost own: set<nat>) returns (ghost acts: seq<Act>)
      requires Good(View(), g) && e in pc && pc[e] == Forking(child, UXSTACK) && HasStack(e) && child != e
      requires Owns(g, e, own) && (forall s :: s in pushes ==> s.v in own)
      requires OnPagesOf(late, pushes)
      modifies this
      ensures Good(View(), g) && pc == old(pc)[e := Running][child := Running]
      ensures g == EagerRun(old(g), acts) && Copies(acts, e, child, UXSTACK, UXSTACK, own) && ByFork(acts, e, child)
    {
      assert forall s :: s in pushes ==> MayWrite(g, e, s.v);
      WriteAll(e, pushes);
      assert forall i: nat, s :: s in late(i) ==> OwnPage(e, s.v);
      CopyStack(e, child, late);
      StartChild(e, child, late);
      acts := LateActs(e, pushes, late);
      LateRun(old(g), e, child, pushes, late, own);
    }

    /** sys_exofork: an environment number not in use, and an environment with no pages */
    method SysExofork(e: nat) returns (child: nat)
      requires Good(View(), g) && e in pc && pc[e] == Running
      modifies this`pc
      ensures child !in old(pc) && Good(View(), g) && pc == old(pc)[child := Unborn(e)][e := Forking(child, UTEXT)]
      ensures forall v: nat :: Key(child, v) !in g
    {
      child := 0;
      var rest := pc.Keys;
      while rest != {}
        invariant rest <= pc.Keys && forall k :: k in pc && k !in rest ==> k < child
        decreases rest
      {
        var k :| k in rest;
        if k >= child { child := k + 1; }
        rest := rest - {k};
      }
      ghost var s := View();
      forall v: nat ensures Key(child, v) !in g {
        assert MatchesAt(s, g, Key(child, v)) && KeyOk(s, Key(child, v));
      }
      pc := pc[child := Unborn(e)][e := Forking(child, UTEXT)];
      StepKeeps(s, g, Exofork(e, child));
    }

    /** set_pgfault_handler: the first time, an exception stack */
    method SetHandler(e: nat, installed: bool)
      requires Good(View(), g) && e in pc && pc[e] == Running
      requires installed ==> HasStack(e)
      modifies this`pt, this`data
      ensures Good(View(), g) && HasStack(e)
    {
      if !installed {
        ghost var s := View();
        ghost var p := SysPageAlloc(e, UXSTACK);
        StepKeeps(s, g, NewPage(e, UXSTACK, true, p));
      }
    }

    /** fork run to its end, the parent storing on its own pages as it goes: `pushes` at each page of the loop and at its
        end, `late` around the calls that follow, on pages stored to at the loop's end, as its stack is. The child's other pages in the range
        are exactly the parent's at the call, and every environment outside its handler sees what it saw. */
    method ForkAll(e: nat, installed: bool, pushes: nat -> seq<Poke>, late: nat -> seq<Poke>, ghost own: set<nat>) returns (child: nat)
      requires Good(View(), g) && e in pc && pc[e] == Running
      requires installed ==> HasStack(e)
      requires Owns(g, e, own) && forall pn: nat, s :: s in pushes(pn) ==> s.v in own
      requires OnPagesOf(late, pushes(UXSTACK))
      modifies this
      ensures child !in old(pc) && pc == old(pc)[child := Running] && Good(View(), g)
      ensures forall v: nat :: InRange(v) && v !in own ==> SamePage(old(View()), Key(e, v), View(), Key(child, v))
      ensures forall x: nat, v: nat :: InRange(v) && x in old(pc) && Active(old(pc[x])) && (x != e || v !in own) ==>
                                         SamePage(old(View()), Key(x, v), View(), Key(x, v))
    {
      ghost var s0, g0 := View(), g;
      SetHandler(e, installed);
      child := SysExofork(e);
      ghost var acts := CopySpace(e, child, pushes, own);
      OwnsAfter(g0, acts, e, child, UTEXT, UXSTACK, own);
      ghost var more := AfterLoop(e, child, pushes(UXSTACK), late, own);
      Joined(acts, more, e, child, UTEXT, UXSTACK, UXSTACK, own);
      RunJoin(g0, acts, more);
      PagesShow(s0, g0, View(), g, e, child, acts + more, own);
    }
  }

  /** Two keys show the same page: the same bytes, and both or neither may be written. */
  predicate SamePage(s: State, a: Key, s': State, b: Key) {
    && (a in s.pt <==> b in s'.pt)
    && (a in s.pt ==> Data(s, s.pt[a].ppn) == Data(s', s'.pt[b].ppn) && ((s.pt[a].w || s.pt[a].cow) <==> (s'.pt[b].w || s'.pt[b].cow)))
  }

  lemma PagesShow(s: State, g: map<Key, Cell>, s': State, g': map<Key, Cell>, e: nat, child: nat, acts: seq<Act>, own: set<nat>)
    requires Good(s, g) && Good(s', g') && g' == EagerRun(g, acts) && Copies(acts, e, child, UTEXT, UXSTACK, own) && Owns(g, e, own)
    requires ByFork(acts, e, child) && e in s.pc && s.pc[e] == Running && child !in s.pc && s'.pc == s.pc[child := Running]
    ensures forall v: nat :: InRange(v) && v !in own ==> SamePage(s, Key(e, v), s', Key(child, v))
    ensures forall x: nat, v: nat :: InRange(v) && x in s.pc && Active(s.pc[x]) && (x != e || v !in own) ==> SamePage(s, Key(x, v), s', Key(x, v))
  {
    forall v: nat ensures Key(child, v) !in g {
      assert MatchesAt(s, g, Key(child, v)) && KeyOk(s, Key(child, v));
    }
    EagerForkIsASnapshot(g, acts, e, child, UTEXT, UXSTACK, own);
    forall v: nat | InRange(v) && v !in own ensures SamePage(s, Key(e, v), s', Key(child, v)) {
      assert SameCell(g, Key(e, v), g', Key(child, v));
      assert MatchesAt(s, g, Key(e, v)) && MatchesAt(s', g', Key(child, v));
    }
    forall x: nat, v: nat | InRange(v) && x in s.pc && Active(s.pc[x]) && (x != e || v !in own) ensures SamePage(s, Key(x, v), s', Key(x, v)) {
      if x != e { OthersKeep(g, acts, e, child, UTEXT, UXSTACK, own, Key(x, v)); }
      assert SameCell(g, Key(x, v), g', Key(x, v));
      assert MatchesAt(s, g, Key(x, v)) && MatchesAt(s', g', Key(x, v));
    }
  }

  // ----- a run of fork on the eager machine -----

  const T_PGFLT: nat := 14
  const FEC_WR: nat := 2

  datatype Poke = Poke(v: nat, off: nat, b: nat)

  predicate MayWrite(g: map<Key, Cell>, e: nat, v: nat) {
    Key(e, v) in g && g[Key(e, v)].writable
  }

  function Puts(e: nat, pushes: seq<Poke>): seq<Act> {
    if pushes == [] then [] else [Put(e, pushes[0].v, pushes[0].off, pushes[0].b)] + Puts(e, pushes[1..])
  }

  /** One page: the copy and the stores, the copy last if the page was writable */
  function Duped(e: nat, child: nat, pn: nat, pushes: seq<Poke>, w: bool): seq<Act> {
    if w then Puts(e, pushes) + [Copied(e, child, pn)] else [Copied(e, child, pn)] + Puts(e, pushes)
  }

  lemma DupedRun(g: map<Key, Cell>, e: nat, child: nat, pn: nat, pushes: seq<Poke>, w: bool)
    ensures EagerRun(g, Duped(e, child, pn, pushes, w))
         == if w then Eager(EagerRun(g, Puts(e, pushes)), Copied(e, child, pn)) else EagerRun(Eager(g, Copied(e, child, pn)), Puts(e, pushes))
  {
    var puts, copy := Puts(e, pushes), [Copied(e, child, pn)];
    RunJoin(g, if w then puts else copy, if w then copy else puts);
    var g1 := EagerRun(g, if w then puts else []);
    assert copy[1..] == [] && EagerRun(g1, copy) == Eager(g1, Copied(e, child, pn));
  }

  /** A fault of e's makes no page pending and settles none. */
  lemma PendingStays(s: State, s': State, e: nat, v: nat, p: nat, k: Key)
    requires Inv(s) && e in s.pc && Active(s.pc[e]) && s'.pc == s.pc && Fresh(s, p) && InRange(v)
    requires Key(e, v) in s.pt && !s.pt[Key(e, v)].w
    requires s'.pt == s.pt[Key(e, v) := Mapping(p, true, false)] - {Key(e, PFTEMP)}
    ensures Pending(s', k) == Pending(s, k)
  {
    if k.e in s.pc && s.pc[k.e].Unborn? {
      var a := Key(s.pc[k.e].parent, k.v);
      assert EnvOk(s, a.e);
      assert k.e != e;
    }
  }

  /** Every late store is to a page of an earlier one. */
  ghost predicate OnPagesOf(late: nat -> seq<Poke>, pushes: seq<Poke>) {
    forall i: nat, s :: s in late(i) ==> exists p :: p in pushes && p.v == s.v
  }

  /** The stores after the loop */
  function LateActs(e: nat, pushes: seq<Poke>, late: nat -> seq<Poke>): seq<Act> {
    Puts(e, pushes) + (Puts(e, late(0)) + (Puts(e, late(1)) + (Puts(e, late(2)) + (Puts(e, late(3)) + Puts(e, late(4))))))
  }

  lemma LateRun(g: map<Key, Cell>, e: nat, child: nat, pushes: seq<Poke>, late: nat -> seq<Poke>, own: set<nat>)
    requires forall s :: s in pushes ==> s.v in own
    requires OnPagesOf(late, pushes)
    ensures var acts := LateActs(e, pushes, late); Copies(acts, e, child, UXSTACK, UXSTACK, own) && ByFork(acts, e, child)
    ensures EagerRun(g, LateActs(e, pushes, late))
         == var g0 := EagerRun(g, Puts(e, pushes));
            var g3 := EagerRun(EagerRun(EagerRun(g0, Puts(e, late(0))), Puts(e, late(1))), Puts(e, late(2)));
            EagerRun(EagerRun(g3, Puts(e, late(3))), Puts(e, late(4)))
  {
    var a, a0, a1, a2, a3, a4 := Puts(e, pushes), Puts(e, late(0)), Puts(e, late(1)), Puts(e, late(2)), Puts(e, late(3)), Puts(e, late(4));
    PutsCopy(e, child, pushes, UXSTACK, own);
    PutsCopy(e, child, late(0), UXSTACK, own);
    PutsCopy(e, child, late(1), UXSTACK, own);
    PutsCopy(e, child, late(2), UXSTACK, own);
    PutsCopy(e, child, late(3), UXSTACK, own);
    PutsCopy(e, child, late(4), UXSTACK, own);
    Joined(a3, a4, e, child, UXSTACK, UXSTACK, UXSTACK, own);
    Joined(a2, a3 + a4, e, child, UXSTACK, UXSTACK, UXSTACK, own);
    Joined(a1, a2 + (a3 + a4), e, child, UXSTACK, UXSTACK, UXSTACK, own);
    Joined(a0, a1 + (a2 + (a3 + a4)), e, child, UXSTACK, UXSTACK, UXSTACK, own);
    Joined(a, a0 + (a1 + (a2 + (a3 + a4))), e, child, UXSTACK, UXSTACK, UXSTACK, own);
    var g0 := EagerRun(g, a);
    var g1 := EagerRun(g0, a0);
    var g2 := EagerRun(g1, a1);
    var g3 := EagerRun(g2, a2);
    RunJoin(g, a, a0 + (a1 + (a2 + (a3 + a4))));
    RunJoin(g0, a0, a1 + (a2 + (a3 + a4)));
    RunJoin(g1, a1, a2 + (a3 + a4));
    RunJoin(g2, a2, a3 + a4);
    RunJoin(g3, a3, a4);
  }

  /** Nobody but e acts. */
  predicate ByFork(acts: seq<Act>, e: nat, child: nat) {
    forall a :: a in acts ==> (a.Put? && a.e == e) || (a.Copied? && a.parent == e && a.child == child)
  }

  lemma {:induction false} PutsCopy(e: nat, child: nat, pushes: seq<Poke>, lo: nat, own: set<nat>)
    requires forall s :: s in pushes ==> s.v in own
    ensures Copies(Puts(e, pushes), e, child, lo, lo, own) && ByFork(Puts(e, pushes), e, child)
  {
    if pushes != [] {
      PutsCopy(e, child, pushes[1..], lo, own);
      assert Puts(e, pushes)[1..] == Puts(e, pushes[1..]);
    }
  }

  lemma {:induction false} Joined(a: seq<Act>, b: seq<Act>, e: nat, child: nat, lo: nat, mid: nat, hi: nat, own: set<nat>)
    requires Copies(a, e, child, lo, mid, own) && Copies(b, e, child, mid, hi, own) && mid <= hi
    ensures Copies(a + b, e, child, lo, hi, own)
    decreases |a|
  {
    if a == [] {
      assert a + b == b;
    } else {
      assert (a + b)[0] == a[0] && (a + b)[1..] == a[1..] + b;
      Joined(a[1..], b, e, child, if a[0] == Copied(e, child, lo) then lo + 1 else lo, mid, hi, own);
    }
  }

  lemma {:induction false} OwnsAfter(g: map<Key, Cell>, acts: seq<Act>, e: nat, child: nat, lo: nat, hi: nat, own: set<nat>)
    requires e != child && Copies(acts, e, child, lo, hi, own) && Owns(g, e, own)
    ensures Owns(EagerRun(g, acts), e, own)
    decreases |acts|
  {
    if acts != [] {
      OneAct(g, acts[0], e, child, lo, own);
      OwnsAfter(Eager(g, acts[0]), acts[1..], e, child, if acts[0] == Copied(e, child, lo) then lo + 1 else lo, hi, own);
    }
  }

  /** A fork of e's touches nobody else's cells. */
  lemma {:induction false} OthersKeep(g: map<Key, Cell>, acts: seq<Act>, e: nat, child: nat, lo: nat, hi: nat, own: set<nat>, k: Key)
    requires e != child && Copies(acts, e, child, lo, hi, own) && Owns(g, e, own) && ByFork(acts, e, child)
    requires k.e != e && k.e != child
    ensures SameCell(g, k, EagerRun(g, acts), k)
    decreases |acts|
  {
    if acts != [] {
      OneAct(g, acts[0], e, child, lo, own);
      OthersKeep(Eager(g, acts[0]), acts[1..], e, child, if acts[0] == Copied(e, child, lo) then lo + 1 else lo, hi, own, k);
    }
  }

  lemma OneTurn(g: map<Key, Cell>, e: nat, child: nat, pn: nat, pushes: seq<Poke>, own: set<nat>, turn: seq<Act>, w: bool)
    requires e != child && turn == Duped(e, child, pn, pushes, w) && Owns(g, e, own) && forall s :: s in pushes ==> s.v in own
    ensures Copies(turn, e, child, pn, pn + 1, own) && ByFork(turn, e, child) && Owns(EagerRun(g, turn), e, own)
  {
    var puts, copy := Puts(e, pushes), [Copied(e, child, pn)];
    assert copy[1..] == [] && Copies(copy, e, child, pn, pn + 1, own);
    if w {
      PutsCopy(e, child, pushes, pn, own);
      Joined(puts, copy, e, child, pn, pn, pn + 1, own);
    } else {
      PutsCopy(e, child, pushes, pn + 1, own);
      Joined(copy, puts, e, child, pn, pn + 1, pn + 1, own);
    }
    OwnsAfter(g, turn, e, child, pn, pn + 1, own);
  }

  lemma {:induction false} RunJoin(g: map<Key, Cell>, a: seq<Act>, b: seq<Act>)
    ensures EagerRun(g, a + b) == EagerRun(EagerRun(g, a), b)
    decreases |a|
  {
    if a == [] {
      assert a + b == b;
    } else {
      assert (a + b)[0] == a[0] && (a + b)[1..] == a[1..] + b;
      RunJoin(Eager(g, a[0]), a[1..], b);
    }
  }
}
