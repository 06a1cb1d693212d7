/** The part of every address space at and above UTOP: the kernel's own tables,
    shared by all environments, and the self-map entry (kern/env.c:196-206). */
module KernelHalfOfSpaces {
  import opened Paging
  import opened PagingInvariant
  import opened PagingOps
  import opened AddressSpaceTeardown

  function UpperEntry(m: Mem, e: nat, d: nat): Pte
    requires e in m.dirs
  {
    if d == UVPTX then Pte(m.dirs[e], SELF_PERM) else At(m, m.kdir, d)
  }

  predicate ClosedAt(m: Mem, d: nat, t: nat) {
    var pde := At(m, m.kdir, d);
    UTOPX <= d < NPTENTRIES && d != UVPTX && pde.perm.p ==>
      Opens(pde.perm) && pde.ppn in m.kern && !(At(m, pde.ppn, t).perm.u && At(m, pde.ppn, t).perm.w)
  }

  /** The kernel's tables leave a page's rights to its entry, and no entry lets a user write. */
  ghost predicate KernelClosed(m: Mem) {
    forall d: nat, t: nat :: ClosedAt(m, d, t)
  }

  lemma StaysClosed(m: Mem, m': Mem)
    requires KernelClosed(m) && m'.kdir == m.kdir && m.kdir in m.kern && m.kern <= m'.kern
    requires forall p: nat, i: nat :: p in m.kern ==> At(m', p, i) == At(m, p, i)
    ensures KernelClosed(m')
  {
    forall d: nat, t: nat ensures ClosedAt(m', d, t) { assert ClosedAt(m, d, t); }
  }

  /** Above UTOP all directories agree with the kernel's, except that the UVPT
      entry names the directory itself; UENVS is mapped, to a boot page. */
  ghost predicate SharedAboveUtop(m: Mem) {
    && (forall e: nat, d: nat :: e in m.dirs && UTOPX <= d < NPTENTRIES ==> At(m, m.dirs[e], d) == UpperEntry(m, e, d))
    && KernelClosed(m)
    && var pde := At(m, m.kdir, UTOPX);
    && pde.perm.p && pde.ppn in m.kern && pde.ppn < |m.frame|
    && At(m, pde.ppn, 0).perm.p && At(m, pde.ppn, 0).ppn in m.kern && 0 < At(m, pde.ppn, 0).ppn < |m.frame|
  }

  /** Frames of boot pages and the upper halves of directories are as before. */
  ghost predicate UpperSame(m: Mem, m': Mem) {
    && |m'.frame| == |m.frame| && m'.kern == m.kern && m'.kdir == m.kdir
    && (forall p: nat, i: nat :: p in m.kern ==> At(m', p, i) == At(m, p, i))
    && (forall e: nat :: e in m'.dirs ==> e in m.dirs && m'.dirs[e] == m.dirs[e])
    && (forall e: nat, d: nat :: e in m'.dirs && UTOPX <= d ==> At(m', m.dirs[e], d) == At(m, m.dirs[e], d))
  }

  lemma UpperKeeps(m: Mem, m': Mem)
    requires Tidy(m) && SharedAboveUtop(m) && UpperSame(m, m')
    ensures SharedAboveUtop(m')
  {
    StaysClosed(m, m');
    forall e: nat, d: nat | e in m'.dirs && UTOPX <= d < NPTENTRIES
      ensures At(m', m'.dirs[e], d) == UpperEntry(m', e, d)
    {
      assert At(m', m.dirs[e], d) == At(m, m.dirs[e], d) == UpperEntry(m, e, d);
      assert At(m', m.kdir, d) == At(m, m.kdir, d);
    }
  }

  /** A store into a user table, or into a user entry of a directory. */
  lemma UserStore(m: Mem, p: nat, i: nat, x: Pte)
    requires Dims(m) && p < |m.frame| && i < NPTENTRIES && p !in m.kern
    requires forall e: nat :: e in m.dirs && m.dirs[e] == p ==> i < UTOPX
    ensures UpperSame(m, SetEntry(m, p, i, x))
  {
  }

  lemma FreshStore(m: Mem, p: nat, f: seq<Pte>)
    requires Dims(m) && p < |m.frame| && |f| == NPTENTRIES && p !in m.kern
    requires forall e: nat :: e in m.dirs ==> m.dirs[e] != p
    ensures UpperSame(m, m.(frame := m.frame[p := f]))
  {
  }

  /** A table of e is neither a boot page nor a directory. */
  lemma TableIsPlain(m: Mem, e: nat, d: nat)
    requires Inv(m) && Pde(m, e, d).perm.p
    ensures var p := Pde(m, e, d).ppn;
            p < |m.frame| && p !in m.kern && forall e': nat :: e' in m.dirs ==> m.dirs[e'] != p
  {
    var p := Pde(m, e, d).ppn;
    assert Target(m, Table(e, d)) == p;
    forall e': nat | e' in m.dirs ensures m.dirs[e'] != p { assert Target(m, Dir(e')) == m.dirs[e']; }
  }

  lemma DirIsPlain(m: Mem, e: nat)
    requires Inv(m) && e in m.dirs
    ensures m.dirs[e] < |m.frame| && m.dirs[e] !in m.kern
  {
    assert Target(m, Dir(e)) == m.dirs[e];
  }

  lemma RemoveUpper(m: Mem, e: nat, d: nat, t: nat)
    requires Inv(m) && e in m.dirs && d < UTOPX && t < NPTENTRIES
    ensures InRange(m, m.dirs[e], d, t) && UpperSame(m, PageRemove(m, m.dirs[e], d, t))
  {
    RangeOk(m, e, d, t);
    assert m.frame[m.dirs[e]][d] == Pde(m, e, d);
    if Pde(m, e, d).perm.p {
      TableIsPlain(m, e, d);
      UserStore(m, Pde(m, e, d).ppn, t, PTE0);
    }
  }

  lemma AllocUpper(m: Mem)
    requires Inv(m) && m.free != []
    ensures UpperSame(m, PageAlloc(m).1)
  {
    var p := m.free[0];
    assert p in m.free;
    Unreferenced(m, p);
    forall e: nat | e in m.dirs ensures m.dirs[e] != p { assert Target(m, Dir(e)) == m.dirs[e]; }
    FreshStore(m, p, ZeroFrame());
  }

  lemma WalkUpper(m: Mem, e: nat, d: nat)
    requires Inv(m) && e in m.dirs && d < UTOPX
    ensures m.dirs[e] < |m.frame| && UpperSame(m, Walk(m, m.dirs[e], d, true).1)
  {
    DirIsPlain(m, e);
    if !m.frame[m.dirs[e]][d].perm.p && m.free != [] {
      AllocUpper(m);
      var m1 := Incref(PageAlloc(m).1, m.free[0]);
      UserStore(m1, m.dirs[e], d, Pte(m.free[0], DIR_PERM));
    }
  }

  lemma InsertInTableUpper(m: Mem, e: nat, d: nat, t: nat, pp: nat, perm: Perm)
    requires Inv(m) && Pde(m, e, d).perm.p && t < NPTENTRIES && pp < |m.ref|
    ensures InRange(m, m.dirs[e], d, t)
    ensures UpperSame(m, PageInsert(m, m.dirs[e], pp, d, t, perm).1)
  {
    RangeOk(m, e, d, t);
    var tab := Pde(m, e, d).ppn;
    TableIsPlain(m, e, d);
    assert m.frame[m.dirs[e]][d] == Pde(m, e, d);
    RemoveUpper(m, e, d, t);
    UserStore(m, tab, t, Entry(pp, perm));
    UserStore(PageRemove(m, m.dirs[e], d, t), tab, t, Entry(pp, perm));
  }

  lemma InsertUpper(m: Mem, e: nat, d: nat, t: nat, pp: nat, perm: Perm)
    requires Inv(m) && e in m.dirs && d < UTOPX && t < NPTENTRIES && Mappable(m, pp)
    ensures InRange(m, m.dirs[e], d, t)
    ensures UpperSame(m, PageInsert(m, m.dirs[e], pp, d, t, perm).1)
  {
    RangeOk(m, e, d, t);
    assert m.frame[m.dirs[e]][d] == Pde(m, e, d);
    if Pde(m, e, d).perm.p {
      InsertInTableUpper(m, e, d, t, pp, perm);
    } else if m.free != [] {
      NewTable(m, e, d, t, pp);
      WalkUpper(m, e, d);
      var m1 := Walk(m, m.dirs[e], d, true).1;
      InsertInTableUpper(m1, e, d, t, pp, perm);
      assert PageInsert(m, m.dirs[e], pp, d, t, perm) == PageInsert(m1, m1.dirs[e], pp, d, t, perm);
      UpperTwice(m, m1, PageInsert(m1, m1.dirs[e], pp, d, t, perm).1);
    }
  }

  lemma UpperTwice(a: Mem, b: Mem, c: Mem)
    requires UpperSame(a, b) && UpperSame(b, c)
    ensures UpperSame(a, c)
  {
    forall e: nat, d: nat | e in c.dirs && UTOPX <= d ensures At(c, a.dirs[e], d) == At(a, a.dirs[e], d) {
      assert At(c, b.dirs[e], d) == At(b, b.dirs[e], d);
    }
  }

  /** A new environment starts with the kernel's upper half and nothing below UTOP. */
  lemma SetupShared(m: Mem, e: nat)
    requires Inv(m) && SharedAboveUtop(m) && e !in m.dirs && m.free != []
    ensures m.kdir < |m.frame| && SharedAboveUtop(EnvSetupVm(m, e).1)
  {
    var p := m.free[0];
    AllocUpper(m);
    AddDir(m, e);
    assert p in m.free;
    Unreferenced(m, p);
    var m1 := PageAlloc(m).1;
    UpperKeeps(m, m1);
    var m' := EnvSetupVm(m, e).1;
    StaysClosed(m1, m');
    forall e': nat | e' in m.dirs ensures m.dirs[e'] != p && m.dirs[e'] < |m.frame| {
      assert Target(m, Dir(e')) == m.dirs[e'];
    }
    forall e': nat, d: nat | e' in m'.dirs && UTOPX <= d < NPTENTRIES
      ensures At(m', m'.dirs[e'], d) == UpperEntry(m', e', d)
    {
      assert At(m', m'.kdir, d) == At(m, m.kdir, d);
      if e' != e { assert At(m', m'.dirs[e'], d) == At(m, m.dirs[e'], d) == UpperEntry(m, e', d); }
    }
  }

  lemma EntryUpper(m: Mem, e: nat, pgdir: nat, d: nat, tab: nat, t: nat)
    requires Inv(m) && HasTable(m, e, pgdir, d, tab) && t < NPTENTRIES
    ensures UpperSame(m, FreeEntry(m, pgdir, d, tab, t))
  {
    RemoveUpper(m, e, d, t);
  }

  lemma {:induction false} FreeEntriesUpper(m: Mem, e: nat, pgdir: nat, d: nat, tab: nat, t: nat)
    requires Inv(m) && HasTable(m, e, pgdir, d, tab) && t <= NPTENTRIES
    ensures UpperSame(m, FreeEntries(m, pgdir, d, tab, t))
    decreases NPTENTRIES - t
  {
    if t < NPTENTRIES {
      var m1 := FreeEntry(m, pgdir, d, tab, t);
      EntryUpper(m, e, pgdir, d, tab, t);
      FreeEntryClears(m, e, pgdir, d, tab, t);
      FreeEntriesUpper(m1, e, pgdir, d, tab, t + 1);
      UpperTwice(m, m1, FreeEntries(m1, pgdir, d, tab, t + 1));
    }
  }

  lemma FreeTableUpper(m: Mem, e: nat, pgdir: nat, d: nat)
    requires Inv(m) && e in m.dirs && m.dirs[e] == pgdir && d < UTOPX
    ensures UpperSame(m, FreeTable(m, pgdir, d))
  {
    RangeOk(m, e, d, 0);
    assert At(m, pgdir, d) == Pde(m, e, d);
    if Pde(m, e, d).perm.p {
      var tab := Pde(m, e, d).ppn;
      FreeEntriesUpper(m, e, pgdir, d, tab, 0);
      DirIsPlain(m, e);
      var m1 := FreeEntries(m, pgdir, d, tab, 0);
      UserStore(m1, pgdir, d, PTE0);
      UpperTwice(m, m1, FreeTable(m, pgdir, d));
    }
  }

  lemma {:induction false} FreeTablesUpper(m: Mem, e: nat, pgdir: nat, d: nat)
    requires Inv(m) && e in m.dirs && m.dirs[e] == pgdir && d <= UTOPX
    ensures UpperSame(m, FreeTables(m, pgdir, d))
    decreases UTOPX - d
  {
    if d < UTOPX {
      var m1 := FreeTable(m, pgdir, d);
      FreeTableUpper(m, e, pgdir, d);
      FreeTableClears(m, e, pgdir, d);
      FreeTablesUpper(m1, e, pgdir, d + 1);
      UpperTwice(m, m1, FreeTables(m1, pgdir, d + 1));
    }
  }

  lemma ForgetDir(m: Mem, m1: Mem, m': Mem, e: nat)
    requires UpperSame(m, m1) && m'.frame == m1.frame && m'.kern == m1.kern && m'.kdir == m1.kdir
    requires m1.dirs == m.dirs && m'.dirs == m.dirs - {e}
    ensures UpperSame(m, m')
  {
    forall p: nat, i: nat ensures At(m', p, i) == At(m1, p, i) {}
  }

  lemma EnvFreeShared(m: Mem, e: nat)
    requires Inv(m) && SharedAboveUtop(m) && e in m.dirs
    ensures m.dirs[e] < |m.ref| && SharedAboveUtop(EnvFree(m, e))
  {
    DirInRange(m, e);
    var pgdir := m.dirs[e];
    FreeTablesUpper(m, e, pgdir, 0);
    FreeTablesClears(m, e, pgdir, 0);
    ForgetDir(m, FreeTables(m, pgdir, 0), EnvFree(m, e), e);
    UpperKeeps(m, EnvFree(m, e));
  }
}
