/** Tearing down an address space (env_free, kern/env.c:445-493). */
module AddressSpaceTeardown {
  import opened Paging
  import opened PagingInvariant
  import opened PagingOps

  /** One turn of the inner loop: unmap entry t of table tab if it is present.
      (Where the entry cannot be followed pa2page panics; memory stays as it is.) */
  function FreeEntry(m: Mem, pgdir: nat, d: nat, tab: nat, t: nat): (r: Mem)
    requires Dims(m)
    ensures Dims(r) && |r.frame| == |m.frame|
  {
    if At(m, tab, t).perm.p && InRange(m, pgdir, d, t) then PageRemove(m, pgdir, d, t) else m
  }

  /** The inner loop of env_free from entry t on. */
  function FreeEntries(m: Mem, pgdir: nat, d: nat, tab: nat, t: nat): (r: Mem)
    requires Dims(m) && t <= NPTENTRIES
    ensures Dims(r) && |r.frame| == |m.frame|
    decreases NPTENTRIES - t, m
  {
    if t == NPTENTRIES then m else FreeEntries(FreeEntry(m, pgdir, d, tab, t), pgdir, d, tab, t + 1)
  }

  /** One turn of the outer loop: empty and give back the table of directory index d, if there is one. */
  function FreeTable(m: Mem, pgdir: nat, d: nat): (r: Mem)
    requires Dims(m)
    ensures Dims(r) && |r.frame| == |m.frame|
  {
    var tab := At(m, pgdir, d).ppn;
    if At(m, pgdir, d).perm.p && InRange(m, pgdir, d, 0)
    then ClearTable(FreeEntries(m, pgdir, d, tab, 0), pgdir, d, tab)
    else m
  }

  /** The outer loop of env_free from directory index d on. */
  function FreeTables(m: Mem, pgdir: nat, d: nat): (r: Mem)
    requires Dims(m) && d <= UTOPX
    ensures Dims(r) && |r.frame| == |m.frame|
    decreases UTOPX - d, m
  {
    if d == UTOPX then m else FreeTables(FreeTable(m, pgdir, d), pgdir, d + 1)
  }

  /** env_free, as far as memory goes */
  function EnvFree(m: Mem, e: nat): (r: Mem)
    requires Dims(m) && e in m.dirs && m.dirs[e] < |m.ref|
    ensures Dims(r)
  {
    var pgdir := m.dirs[e];
    Decref(FreeTables(m, pgdir, 0), pgdir).(dirs := m.dirs - {e})
  }

  lemma DirInRange(m: Mem, e: nat)
    requires Inv(m) && e in m.dirs
    ensures m.dirs[e] < |m.ref|
  {
    assert Target(m, Dir(e)) == m.dirs[e];
  }

  /** m' is m with the sites of S cleared: same environments, boot pages and lost pages. */
  ghost predicate Cleared(m: Mem, m': Mem, S: Site -> bool) {
    && Inv(m') && m'.dirs == m.dirs && m'.kern == m.kern && m'.lost == m.lost
    && (forall s :: Slot(m', s) == if S(s) then PTE0 else Slot(m, s))
  }

  /** Environment e has directory pgdir, whose entry d names table tab. */
  predicate HasTable(m: Mem, e: nat, pgdir: nat, d: nat, tab: nat) {
    e in m.dirs && m.dirs[e] == pgdir && Pde(m, e, d).perm.p && Pde(m, e, d).ppn == tab
  }

  lemma FreeEntryClears(m: Mem, e: nat, pgdir: nat, d: nat, tab: nat, t: nat)
    requires Inv(m) && HasTable(m, e, pgdir, d, tab) && t < NPTENTRIES
    ensures Cleared(m, FreeEntry(m, pgdir, d, tab, t), (s: Site) => s == Page(e, d, t))
    ensures HasTable(FreeEntry(m, pgdir, d, tab, t), e, pgdir, d, tab)
  {
    RangeOk(m, e, d, t);
    assert At(m, tab, t) == PteOf(m, e, d, t) == Slot(m, Page(e, d, t));
    if PteOf(m, e, d, t).perm.p { DropPage(m, e, d, t); }
    assert Slot(FreeEntry(m, pgdir, d, tab, t), Table(e, d)) == Slot(m, Table(e, d));
  }

  lemma {:induction false} FreeEntriesClears(m: Mem, e: nat, pgdir: nat, d: nat, tab: nat, t: nat)
    requires Inv(m) && HasTable(m, e, pgdir, d, tab) && t <= NPTENTRIES
    ensures Cleared(m, FreeEntries(m, pgdir, d, tab, t), (s: Site) => s.Page? && s.e == e && s.d == d && s.t >= t)
    decreases NPTENTRIES - t
  {
    if t < NPTENTRIES {
      FreeEntryClears(m, e, pgdir, d, tab, t);
      FreeEntriesClears(FreeEntry(m, pgdir, d, tab, t), e, pgdir, d, tab, t + 1);
    }
  }

  lemma FreeTableClears(m: Mem, e: nat, pgdir: nat, d: nat)
    requires Inv(m) && e in m.dirs && m.dirs[e] == pgdir && d < UTOPX
    ensures Cleared(m, FreeTable(m, pgdir, d), (s: Site) => (s.Page? || s.Table?) && s.e == e && s.d == d)
  {
    var tab := Pde(m, e, d).ppn;
    RangeOk(m, e, d, 0);
    assert At(m, pgdir, d) == Pde(m, e, d) == Slot(m, Table(e, d));
    if Pde(m, e, d).perm.p {
      FreeEntriesClears(m, e, pgdir, d, tab, 0);
      var m1 := FreeEntries(m, pgdir, d, tab, 0);
      assert Slot(m1, Table(e, d)) == Slot(m, Table(e, d));
      forall t: nat ensures !PteOf(m1, e, d, t).perm.p {
        assert PteOf(m1, e, d, t) == Slot(m1, Page(e, d, t)) == PTE0;
      }
      DropTable(m1, e, d);
    } else {
      forall t: nat ensures Slot(m, Page(e, d, t)) == PTE0 {}
    }
  }

  lemma {:induction false} FreeTablesClears(m: Mem, e: nat, pgdir: nat, d: nat)
    requires Inv(m) && e in m.dirs && m.dirs[e] == pgdir && d <= UTOPX
    ensures Cleared(m, FreeTables(m, pgdir, d), (s: Site) => (s.Page? || s.Table?) && s.e == e && s.d >= d)
    decreases UTOPX - d
  {
    if d < UTOPX {
      FreeTableClears(m, e, pgdir, d);
      FreeTablesClears(FreeTable(m, pgdir, d), e, pgdir, d + 1);
    } else {
      forall s: Site | (s.Page? || s.Table?) && s.d >= d ensures Slot(m, s) == PTE0 {}
    }
  }

  // ----- the main result -----

  /** The references environment e holds to page p. */
  function Held(m: Mem, e: nat, p: nat): set<Site> {
    set s | s in Refs(m, p) && s.e == e
  }

  /** env_free gives back exactly what e held: each count drops by e's references
      to the page, a page held by e alone ends on the free list, and no other
      environment's translation changes. */
  lemma EnvFreeConserves(m: Mem, e: nat)
    requires Inv(m) && e in m.dirs
    ensures m.dirs[e] < |m.ref|
    ensures var m' := EnvFree(m, e);
            && Inv(m') && m'.dirs == m.dirs - {e} && m'.lost == m.lost && m'.kern == m.kern
            && (forall s :: Slot(m', s) == if s.e == e then PTE0 else Slot(m, s))
            && (forall p: nat :: p < |m.ref| ==>
                  && m'.ref[p] == m.ref[p] - |Held(m, e, p)|
                  && (p in m'.free <==> p in m.free || (Held(m, e, p) != {} && Held(m, e, p) == Refs(m, p) && p !in m.kern)))
  {
    DirInRange(m, e);
    FreeTablesClears(m, e, m.dirs[e], 0);
    var m1 := FreeTables(m, m.dirs[e], 0);
    forall d: nat ensures !Pde(m1, e, d).perm.p {
      assert Pde(m1, e, d) == Slot(m1, Table(e, d)) == PTE0;
    }
    DropDir(m1, e);
    var m' := EnvFree(m, e);
    assert m' == ClearDir(m1, e);
    forall s ensures Slot(m', s) == if s.e == e then PTE0 else Slot(m, s) {}
    forall p: nat | p < |m.ref|
      ensures m'.ref[p] == m.ref[p] - |Held(m, e, p)|
      ensures p in m'.free <==> p in m.free || (Held(m, e, p) != {} && Held(m, e, p) == Refs(m, p) && p !in m.kern)
    {
      HeldDiffers(m, m', e, p);
    }
  }

  lemma HeldDiffers(m: Mem, m': Mem, e: nat, p: nat)
    requires Inv(m) && Inv(m') && m'.lost == m.lost && m'.kern == m.kern && |m'.ref| == |m.ref| && p < |m.ref|
    requires forall s :: Slot(m', s) == if s.e == e then PTE0 else Slot(m, s)
    ensures m'.ref[p] == m.ref[p] - |Held(m, e, p)|
    ensures p in m'.free <==> p in m.free || (Held(m, e, p) != {} && Held(m, e, p) == Refs(m, p) && p !in m.kern)
  {
    var before, after, held := Refs(m, p), Refs(m', p), Held(m, e, p);
    forall s ensures s in before <==> Target(m, s) == p { InRefs(m, p, s); }
    forall s ensures s in after <==> s in before && s.e != e { InRefs(m', p, s); }
    assert held !! after && before == held + after;
    assert |before| == |held| + |after|;
  }
}
