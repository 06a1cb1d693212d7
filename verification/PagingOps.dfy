/** page_insert, page_remove and env_free as changes of the flat translation,
    with exact reference counts (kern/pmap.c:552-630, kern/env.c:445-493). */
module PagingOps {
  import opened Paging
  import opened PagingInvariant

  /** m' translates every user address as m does, except page (d, t) of e. */
  ghost predicate OnlyPage(m: Mem, m': Mem, e: nat, d: nat, t: nat, pte: Pte) {
    && m'.dirs == m.dirs
    && (forall e': nat, d': nat, t': nat ::
          PteOf(m', e', d', t') == if (e', d', t') == (e, d, t) then pte else PteOf(m, e', d', t'))
  }

  lemma SlotsGivePages(m: Mem, m': Mem, e: nat, d: nat, t: nat)
    requires SameButAt(m, m', Page(e, d, t)) && m'.dirs == m.dirs
    ensures OnlyPage(m, m', e, d, t, Slot(m', Page(e, d, t)))
  {
    forall e': nat, d': nat, t': nat
      ensures PteOf(m', e', d', t') == if (e', d', t') == (e, d, t) then Slot(m', Page(e, d, t)) else PteOf(m, e', d', t')
    {
      assert Slot(m', Page(e', d', t')) == PteOf(m', e', d', t');
      assert Slot(m, Page(e', d', t')) == PteOf(m, e', d', t');
    }
  }

  lemma RangeOk(m: Mem, e: nat, d: nat, t: nat)
    requires Inv(m) && e in m.dirs && d < UTOPX && t < NPTENTRIES
    ensures InRange(m, m.dirs[e], d, t)
  {
    assert Target(m, Dir(e)) == m.dirs[e];
    if Pde(m, e, d).perm.p {
      assert Target(m, Table(e, d)) == Pde(m, e, d).ppn;
      assert Slot(m, Page(e, d, t)) == At(m, Pde(m, e, d).ppn, t);
      assert Target(m, Page(e, d, t)) < |m.ref|;
    }
  }

  // ----- page_remove -----

  /** Removing where no page is mapped but the table exists decrements page 0. */
  ghost predicate RemoveIsSound(m: Mem, e: nat, d: nat, t: nat) {
    Pde(m, e, d).perm.p ==> PteOf(m, e, d, t).perm.p
  }

  /** page_remove unmaps exactly its page and keeps every count exact, if and only if
      it is not aimed at an empty entry of an existing table. */
  lemma RemoveCorrect(m: Mem, e: nat, d: nat, t: nat)
    requires Inv(m) && e in m.dirs && d < UTOPX && t < NPTENTRIES
    ensures InRange(m, m.dirs[e], d, t)
    ensures var m' := PageRemove(m, m.dirs[e], d, t);
            && (Inv(m') <==> RemoveIsSound(m, e, d, t))
            && OnlyPage(m, m', e, d, t, PTE0)
            && m'.lost == m.lost && m'.kern == m.kern
  {
    RangeOk(m, e, d, t);
    var m' := PageRemove(m, m.dirs[e], d, t);
    assert m.frame[m.dirs[e]][d] == Pde(m, e, d);
    if PteOf(m, e, d, t).perm.p {
      DropPage(m, e, d, t);
      SlotsGivePages(m, m', e, d, t);
    } else if Pde(m, e, d).perm.p {
      RemoveNothing(m, e, d, t);
      SlotsGivePages(m, m', e, d, t);
    } else {
      assert PteOf(m, e, d, t) == PTE0;
    }
  }

  lemma RemoveNothingShape(m: Mem, e: nat, d: nat, t: nat)
    requires Inv(m) && Pde(m, e, d).perm.p && !PteOf(m, e, d, t).perm.p && t < NPTENTRIES
    ensures InRange(m, m.dirs[e], d, t)
    ensures var m' := PageRemove(m, m.dirs[e], d, t);
            && m'.ref == m.ref[0 := Dec16(m.ref[0])] && m'.kern == m.kern
            && (forall s :: Slot(m', s) == Slot(m, s))
  {
    RangeOk(m, e, d, t);
    var m' := PageRemove(m, m.dirs[e], d, t);
    assert m.frame[m.dirs[e]][d] == Pde(m, e, d);
    assert Slot(m, Page(e, d, t)) == PTE0;
    StorePte(m, e, d, t, PTE0);
    forall s ensures Slot(m', s) == Slot(m, s) {
      assert Slot(m', s) == Slot(SetEntry(m, Pde(m, e, d).ppn, t, PTE0), s);
    }
  }

  /** Aimed at an empty entry, page_remove takes a reference from page 0. */
  lemma RemoveNothing(m: Mem, e: nat, d: nat, t: nat)
    requires Inv(m) && Pde(m, e, d).perm.p && !PteOf(m, e, d, t).perm.p && t < NPTENTRIES
    ensures InRange(m, m.dirs[e], d, t)
    ensures var m' := PageRemove(m, m.dirs[e], d, t);
            && m'.ref == m.ref[0 := m.ref[0] - 1] && !Inv(m')
            && (forall s :: Slot(m', s) == Slot(m, s))
  {
    RemoveNothingShape(m, e, d, t);
    ZeroMoved(m, PageRemove(m, m.dirs[e], d, t));
  }

  lemma ZeroMoved(m: Mem, m': Mem)
    requires Inv(m) && Dims(m') && m'.kern == m.kern && m'.ref == m.ref[0 := Dec16(m.ref[0])]
    requires forall s :: Slot(m', s) == Slot(m, s)
    ensures m'.ref == m.ref[0 := m.ref[0] - 1] && !Inv(m')
  {
    BootCounted(m);
    CountMoved(m, m', 0);
  }

  lemma BootCounted(m: Mem)
    requires Inv(m)
    ensures forall p: nat :: p in m.kern && p < |m.ref| ==> 0 < m.ref[p] < REF_MODULUS
  {
    forall p: nat | p in m.kern && p < |m.ref| ensures 0 < m.ref[p] < REF_MODULUS {
      assert m.ref[p] == |Refs(m, p)| + Base(m, p);
    }
  }

  /** Counts that moved although no reference did are no longer exact. */
  lemma CountMoved(m: Mem, m': Mem, p: nat)
    requires Inv(m) && Dims(m') && m'.kern == m.kern && p < |m.ref| == |m'.ref| && m'.ref[p] != m.ref[p]
    requires forall s :: Slot(m', s) == Slot(m, s)
    ensures !Exact(m')
  {
    assert forall s :: Target(m', s) == Target(m, s);
    RefsSame(m, m');
    assert m.ref[p] == |Refs(m, p)| + Base(m, p);
    assert Base(m', p) == Base(m, p);
  }

  // ----- page_insert -----

  /** The 16-bit count has room for the new reference, or none is added. */
  ghost predicate CountFits(m: Mem, e: nat, d: nat, t: nat, pp: nat)
    requires pp < |m.ref|
  {
    m.ref[pp] + 1 < REF_MODULUS || (PteOf(m, e, d, t).perm.p && PteOf(m, e, d, t).ppn == pp)
  }

  /** page_insert maps exactly its page, or changes nothing for want of a page table;
      the counts stay exact if and only if the page's 16-bit count does not overflow. */
  lemma InsertCorrect(m: Mem, e: nat, d: nat, t: nat, pp: nat, perm: Perm)
    requires Inv(m) && e in m.dirs && d < UTOPX && t < NPTENTRIES && Mappable(m, pp)
    ensures InRange(m, m.dirs[e], d, t)
    ensures var (ok, m') := PageInsert(m, m.dirs[e], pp, d, t, perm);
            && (ok <==> Pde(m, e, d).perm.p || m.free != [])
            && (!ok ==> m' == m)
            && m'.kern == m.kern && m'.lost == m.lost
            && (ok ==> OnlyPage(m, m', e, d, t, Entry(pp, perm))
                       && (Inv(Settle(m', pp)) <==> CountFits(m, e, d, t, pp)))
  {
    RangeOk(m, e, d, t);
    assert m.frame[m.dirs[e]][d] == Pde(m, e, d);
    if Pde(m, e, d).perm.p {
      InsertInTable(m, e, d, t, pp, perm);
    } else if m.free != [] {
      NewTable(m, e, d, t, pp);
      var m1 := Walk(m, m.dirs[e], d, true).1;
      InsertInTable(m1, e, d, t, pp, perm);
      assert PageInsert(m, m.dirs[e], pp, d, t, perm) == PageInsert(m1, m1.dirs[e], pp, d, t, perm);
      assert PteOf(m1, e, d, t) == PteOf(m, e, d, t);
    }
  }

  /** The walk that adds a table leaves the translation alone and pp mappable. */
  lemma NewTable(m: Mem, e: nat, d: nat, t: nat, pp: nat)
    requires Inv(m) && e in m.dirs && d < UTOPX && t < NPTENTRIES && Mappable(m, pp)
    requires !Pde(m, e, d).perm.p && m.free != []
    ensures m.dirs[e] < |m.frame|
    ensures var (o, m1) := Walk(m, m.dirs[e], d, true);
            && Inv(m1) && m1.dirs == m.dirs && m1.kern == m.kern && m1.lost == m.lost
            && Pde(m1, e, d).perm.p && o == Some(Pde(m1, e, d).ppn)
            && m1.frame[m1.dirs[e]][d] == Pde(m1, e, d)
            && Mappable(m1, pp) && m1.ref[pp] == m.ref[pp] && InRange(m1, m1.dirs[e], d, t)
            && (forall e': nat, d': nat, t': nat :: PteOf(m1, e', d', t') == PteOf(m, e', d', t'))
  {
    AddTable(m, e, d);
    var m1 := Walk(m, m.dirs[e], d, true).1;
    var p := m.free[0];
    assert p in m.free;
    TableHangs(m, m1, e, d, t, p);
    StillMappable(m, m1, Table(e, d), p, pp);
  }

  lemma TableHangs(m: Mem, m1: Mem, e: nat, d: nat, t: nat, p: nat)
    requires e in m.dirs && d < UTOPX && t < NPTENTRIES && Inv(m1) && m1.dirs == m.dirs
    requires SameButAt(m, m1, Table(e, d)) && Slot(m1, Table(e, d)) == Pte(p, DIR_PERM)
    ensures Pde(m1, e, d) == Pte(p, DIR_PERM)
    ensures m1.dirs[e] < |m1.frame| && m1.frame[m1.dirs[e]][d] == Pde(m1, e, d)
    ensures InRange(m1, m1.dirs[e], d, t)
    ensures forall e': nat, d': nat, t': nat :: PteOf(m1, e', d', t') == PteOf(m, e', d', t')
  {
    assert Slot(m1, Table(e, d)) == Pde(m1, e, d);
    RangeOk(m1, e, d, t);
    SamePages(m, m1);
  }

  lemma SamePages(m: Mem, m1: Mem)
    requires forall e: nat, d: nat, t: nat :: Slot(m1, Page(e, d, t)) == Slot(m, Page(e, d, t))
    ensures forall e: nat, d: nat, t: nat :: PteOf(m1, e, d, t) == PteOf(m, e, d, t)
  {
    forall e: nat, d: nat, t: nat ensures PteOf(m1, e, d, t) == PteOf(m, e, d, t) {
      assert Slot(m1, Page(e, d, t)) == Slot(m, Page(e, d, t));
    }
  }

  lemma StillMappable(m: Mem, m1: Mem, x: Site, p: nat, pp: nat)
    requires Mappable(m, pp) && SameButAt(m, m1, x) && m1.kern == m.kern && m1.lost == m.lost
    requires Target(m1, x) == p && p != pp && p < |m.ref| && m1.ref == m.ref[p := 1]
    ensures Mappable(m1, pp)
  {
    forall s ensures Target(m1, s) == if s == x then p else Target(m, s) {}
  }

  lemma InsertEmptyIs(m: Mem, e: nat, d: nat, t: nat, pp: nat, perm: Perm)
    requires Dims(m) && Pde(m, e, d).perm.p && t < NPTENTRIES && pp < |m.ref|
    requires InRange(m, m.dirs[e], d, t) && !PteOf(m, e, d, t).perm.p
    ensures PageInsert(m, m.dirs[e], pp, d, t, perm)
         == (true, Incref(SetEntry(m, Pde(m, e, d).ppn, t, Entry(pp, perm)), pp))
  {
    assert m.frame[m.dirs[e]][d] == Pde(m, e, d);
    assert m.frame[Pde(m, e, d).ppn][t] == PteOf(m, e, d, t);
  }

  lemma LostHidesNoSlot(m: Mem, p: nat)
    ensures forall s :: Slot(Settle(m, p), s) == Slot(m, s)
  {
  }

  lemma InsertEmpty(m: Mem, e: nat, d: nat, t: nat, pp: nat, perm: Perm)
    requires Inv(m) && e in m.dirs && Pde(m, e, d).perm.p && t < NPTENTRIES && Mappable(m, pp)
    requires !PteOf(m, e, d, t).perm.p
    ensures InRange(m, m.dirs[e], d, t)
    ensures var (ok, m') := PageInsert(m, m.dirs[e], pp, d, t, perm);
            && ok && m'.kern == m.kern && m'.lost == m.lost && m'.dirs == m.dirs
            && SameButAt(m, m', Page(e, d, t)) && Slot(m', Page(e, d, t)) == Entry(pp, perm)
            && (Inv(Settle(m', pp)) <==> m.ref[pp] + 1 < REF_MODULUS)
  {
    RangeOk(m, e, d, t);
    InsertEmptyIs(m, e, d, t, pp, perm);
    AddPage(m, e, d, t, pp, perm);
    LostHidesNoSlot(PageInsert(m, m.dirs[e], pp, d, t, perm).1, pp);
  }

  /** In the place of another page: removed first */
  lemma ReplacePage(m: Mem, e: nat, d: nat, t: nat, pp: nat, perm: Perm)
    requires Inv(m) && PteOf(m, e, d, t).perm.p && PteOf(m, e, d, t).ppn != pp && Mappable(m, pp)
    ensures e in m.dirs && InRange(m, m.dirs[e], d, t)
    ensures var (ok, m') := PageInsert(m, m.dirs[e], pp, d, t, perm);
            && ok && m'.kern == m.kern && m'.lost == m.lost && m'.dirs == m.dirs
            && SameButAt(m, m', Page(e, d, t)) && Slot(m', Page(e, d, t)) == Entry(pp, perm)
            && (Inv(Settle(m', pp)) <==> m.ref[pp] + 1 < REF_MODULUS)
  {
    DropPage(m, e, d, t);
    var x, pgdir := Page(e, d, t), m.dirs[e];
    assert m.frame[pgdir][d] == Pde(m, e, d) && m.frame[Pde(m, e, d).ppn][t] == PteOf(m, e, d, t);
    var m2 := PageRemove(m, pgdir, d, t);
    assert Slot(m2, Table(e, d)) == Slot(m, Table(e, d));
    forall s ensures Target(m2, s) == if s == x then -1 else Target(m, s) {}
    InsertEmpty(m2, e, d, t, pp, perm);
    assert PageInsert(m, pgdir, pp, d, t, perm) == PageInsert(m2, pgdir, pp, d, t, perm);
  }

  lemma InsertInTable(m: Mem, e: nat, d: nat, t: nat, pp: nat, perm: Perm)
    requires Inv(m) && e in m.dirs && Pde(m, e, d).perm.p && t < NPTENTRIES && Mappable(m, pp)
    ensures InRange(m, m.dirs[e], d, t)
    ensures var (ok, m') := PageInsert(m, m.dirs[e], pp, d, t, perm);
            && ok && m'.kern == m.kern && m'.lost == m.lost
            && OnlyPage(m, m', e, d, t, Entry(pp, perm))
            && (Inv(Settle(m', pp)) <==> CountFits(m, e, d, t, pp))
  {
    RangeOk(m, e, d, t);
    var x, pgdir := Page(e, d, t), m.dirs[e];
    var pte := PteOf(m, e, d, t);
    var m' := PageInsert(m, pgdir, pp, d, t, perm).1;
    assert m.frame[pgdir][d] == Pde(m, e, d) && m.frame[Pde(m, e, d).ppn][t] == pte;
    if !pte.perm.p {
      InsertEmpty(m, e, d, t, pp, perm);
    } else if pte.ppn == pp {
      ChangePerm(m, e, d, t, perm);
      Referenced(m, x);
      assert Settle(m', pp).lost == m.lost;
      assert Settle(m', pp) == m';
    } else {
      ReplacePage(m, e, d, t, pp, perm);
    }
    SlotsGivePages(m, m', e, d, t);
  }

  /** All counts and the free list after a page_insert that succeeds: a page table made for it is counted once and leaves
      the free list; mapping the same page again moves nothing; otherwise pp gains one, and the page it
      replaces loses one and is freed at zero. */
  ghost predicate Counted(m: Mem, m': Mem, e: nat, d: nat, t: nat, pp: nat)
    requires pp < |m.ref| && (!Pde(m, e, d).perm.p ==> m.free != [] && m.free[0] < |m.ref|)
  {
    var pte := PteOf(m, e, d, t);
    if !Pde(m, e, d).perm.p then
      m'.ref == m.ref[m.free[0] := 1][pp := Inc16(m.ref[pp])] && m'.free == m.free[1..]
    else if !pte.perm.p then m'.ref == m.ref[pp := Inc16(m.ref[pp])] && m'.free == m.free
    else if pte.ppn == pp then m'.ref == m.ref && m'.free == m.free
    else
      && pte.ppn < |m.ref| && m.ref[pte.ppn] > 0
      && m'.ref == m.ref[pte.ppn := m.ref[pte.ppn] - 1][pp := Inc16(m.ref[pp])]
      && m'.free == if m.ref[pte.ppn] == 1 then [pte.ppn] + m.free else m.free
  }

  lemma InsertCounts(m: Mem, e: nat, d: nat, t: nat, pp: nat, perm: Perm)
    requires Inv(m) && e in m.dirs && d < UTOPX && t < NPTENTRIES && Mappable(m, pp)
    requires Pde(m, e, d).perm.p || m.free != []
    ensures InRange(m, m.dirs[e], d, t) && (m.free != [] ==> m.free[0] < |m.ref| && m.free[0] != pp)
    ensures Counted(m, PageInsert(m, m.dirs[e], pp, d, t, perm).1, e, d, t, pp)
  {
    RangeOk(m, e, d, t);
    assert m.frame[m.dirs[e]][d] == Pde(m, e, d);
    if m.free != [] { assert m.free[0] in m.free; }
    if Pde(m, e, d).perm.p {
      CountsInTable(m, e, d, t, pp, perm);
    } else {
      NewTableEmpty(m, e, d, t, pp);
      var m1 := Walk(m, m.dirs[e], d, true).1;
      CountsInTable(m1, e, d, t, pp, perm);
      assert PageInsert(m, m.dirs[e], pp, d, t, perm) == PageInsert(m1, m1.dirs[e], pp, d, t, perm);
    }
  }

  lemma NewTableEmpty(m: Mem, e: nat, d: nat, t: nat, pp: nat)
    requires Inv(m) && e in m.dirs && d < UTOPX && t < NPTENTRIES && Mappable(m, pp)
    requires !Pde(m, e, d).perm.p && m.free != []
    ensures m.dirs[e] < |m.frame| && m.free[0] < |m.ref| && m.free[0] != pp
    ensures var m1 := Walk(m, m.dirs[e], d, true).1;
            && Inv(m1) && m1.dirs == m.dirs && Pde(m1, e, d).perm.p && Mappable(m1, pp) && InRange(m1, m1.dirs[e], d, t)
            && m1.frame[m1.dirs[e]][d] == Pde(m1, e, d) && PteOf(m1, e, d, t) == PTE0
            && m1.ref == m.ref[m.free[0] := 1] && m1.free == m.free[1..]
  {
    AddTable(m, e, d);
    assert m.free[0] in m.free;
    NewTable(m, e, d, t, pp);
  }

  lemma CountsInTable(m: Mem, e: nat, d: nat, t: nat, pp: nat, perm: Perm)
    requires Inv(m) && e in m.dirs && Pde(m, e, d).perm.p && t < NPTENTRIES && Mappable(m, pp)
    ensures InRange(m, m.dirs[e], d, t)
    ensures Counted(m, PageInsert(m, m.dirs[e], pp, d, t, perm).1, e, d, t, pp)
  {
    RangeOk(m, e, d, t);
    assert m.frame[m.dirs[e]][d] == Pde(m, e, d) && m.frame[Pde(m, e, d).ppn][t] == PteOf(m, e, d, t);
    if PteOf(m, e, d, t).perm.p { DropPage(m, e, d, t); }
  }
}
