/** What every page operation keeps: exact reference counts, a sound free list
    and the separation of page kinds (kern/pmap.c:401-630). */
module PagingInvariant {
  import opened Paging

  ghost predicate NoDup<T(!new)>(q: seq<T>) {
    forall i, j :: 0 <= i < j < |q| ==> q[i] != q[j]
  }

  /** A page referred to twice is referred to only by page-table entries: no
      table or directory is ever shared, nor mapped as a page. */
  ghost predicate Separate(m: Mem) {
    && (forall s, s' :: s != s' && Target(m, s) >= 0 && Target(m, s) == Target(m, s') ==> s.Page? && s'.Page?)
    && (forall s :: Target(m, s) in m.kern ==> Target(m, s) == 0 && s.Page?)
  }

  /** A directory entry that leaves a page's rights to its page-table entry: the processor grants what both do. */
  predicate Opens(perm: Perm) { perm.p && perm.w && perm.u }

  ghost predicate Tidy(m: Mem) {
    && Dims(m)
    && (forall s: Site :: s.Table? && Slot(m, s).perm.p ==> Opens(Slot(m, s).perm))
    && (forall s :: Target(m, s) < |m.ref|)
    && (forall s :: Slot(m, s).perm.p || Slot(m, s) == PTE0)
    && m.kdir < |m.frame| && m.kdir in m.kern && 0 in m.kern
    && (forall d :: 0 <= d < UTOPX ==> m.frame[m.kdir][d] == PTE0)
  }

  ghost function Base(m: Mem, p: nat): nat {
    if p in m.kern then 1 else 0
  }

  /** pp_ref counts the references, plus one for pages taken at boot. */
  ghost predicate Exact(m: Mem)
    requires Dims(m)
  {
    forall p :: 0 <= p < |m.ref| ==> m.ref[p] == |Refs(m, p)| + Base(m, p) < REF_MODULUS
  }

  /** A page is on the free list, once, iff nothing refers to it and it was not lost. */
  ghost predicate FreeOk(m: Mem)
    requires Dims(m)
  {
    && NoDup(m.free)
    && (forall p :: 0 <= p < |m.ref| ==> (p in m.free <==> m.ref[p] == 0 && p !in m.lost))
    && (forall p :: p in m.lost ==> p < |m.ref| && m.ref[p] == 0)
  }

  ghost predicate Inv(m: Mem) {
    Tidy(m) && Separate(m) && Exact(m) && FreeOk(m)
  }

  // ----- how a change of slots moves the reference sets -----

  lemma OneElement<T>(a: set<T>, b: set<T>, x: T)
    requires forall y :: y != x ==> (y in a <==> y in b)
    ensures |b| == |a| - (if x in a then 1 else 0) + (if x in b then 1 else 0)
  {
    assert a - {x} == b - {x};
    assert x in a ==> a == (a - {x}) + {x};
    assert x in b ==> b == (b - {x}) + {x};
    assert x !in a ==> a - {x} == a;
    assert x !in b ==> b - {x} == b;
  }

  lemma RefsUpdate(m: Mem, m': Mem, x: Site, p: nat)
    requires forall s :: s != x ==> Target(m', s) == Target(m, s)
    ensures |Refs(m', p)| == |Refs(m, p)|
                             - (if Target(m, x) == p then 1 else 0)
                             + (if Target(m', x) == p then 1 else 0)
  {
    forall s ensures s in Refs(m, p) <==> Target(m, s) == p { InRefs(m, p, s); }
    forall s ensures s in Refs(m', p) <==> Target(m', s) == p { InRefs(m', p, s); }
    OneElement(Refs(m, p), Refs(m', p), x);
  }

  lemma RefsSame(m: Mem, m': Mem)
    requires forall s :: Target(m', s) == Target(m, s)
    ensures forall p: nat :: |Refs(m', p)| == |Refs(m, p)|
  {
    forall p: nat ensures |Refs(m', p)| == |Refs(m, p)| { RefsUpdate(m, m', Dir(0), p); }
  }

  // ----- primitive stores -----

  /** Storing an entry of the table at (e, d) changes the slot of one page site only. */
  lemma StorePte(m: Mem, e: nat, d: nat, t: nat, x: Pte)
    requires Tidy(m) && Separate(m)
    requires Pde(m, e, d).perm.p && t < NPTENTRIES
    ensures var tab := Pde(m, e, d).ppn;
            && tab < |m.frame| && tab != m.kdir
            && var m' := SetEntry(m, tab, t, x);
            && Slot(m', Page(e, d, t)) == x
            && (forall s :: s != Page(e, d, t) ==> Slot(m', s) == Slot(m, s))
  {
    var tab := Pde(m, e, d).ppn;
    assert Target(m, Table(e, d)) == tab;
    var m' := SetEntry(m, tab, t, x);
    forall e': nat | e' in m.dirs ensures m.dirs[e'] != tab {
      assert Target(m, Dir(e')) == m.dirs[e'];
    }
    forall e': nat, d': nat ensures Pde(m', e', d') == Pde(m, e', d') {}
    forall e': nat, d': nat | Pde(m, e', d').perm.p && (e', d') != (e, d) ensures Pde(m, e', d').ppn != tab {
      assert Target(m, Table(e', d')) == Pde(m, e', d').ppn;
    }
    forall s | s != Page(e, d, t) ensures Slot(m', s) == Slot(m, s) {}
  }

  /** Storing a directory entry of e changes slots under (e, d) only. */
  lemma StorePde(m: Mem, e: nat, d: nat, x: Pte)
    requires Tidy(m) && Separate(m)
    requires e in m.dirs && d < UTOPX
    ensures m.dirs[e] < |m.frame| && m.dirs[e] != m.kdir
    ensures var m' := SetEntry(m, m.dirs[e], d, x);
            && Slot(m', Table(e, d)) == x
            && (forall s :: s != Table(e, d) && !(s.Page? && s.e == e && s.d == d) ==> Slot(m', s) == Slot(m, s))
            && (x.perm.p && x.ppn != m.dirs[e] ==> forall t: nat :: Slot(m', Page(e, d, t)) == if t < NPTENTRIES then At(m, x.ppn, t) else PTE0)
  {
    var pd := m.dirs[e];
    assert Target(m, Dir(e)) == pd;
    var m' := SetEntry(m, pd, d, x);
    forall e': nat, d': nat | (e', d') != (e, d) ensures Pde(m', e', d') == Pde(m, e', d') {
      if e' in m.dirs && e' != e { assert Target(m, Dir(e')) == m.dirs[e']; }
    }
    forall e': nat, d': nat | Pde(m, e', d').perm.p ensures Pde(m, e', d').ppn != pd {
      assert Target(m, Table(e', d')) == Pde(m, e', d').ppn;
    }
    forall s | s != Table(e, d) && !(s.Page? && s.e == e && s.d == d) ensures Slot(m', s) == Slot(m, s) {}
  }

  /** Overwriting a frame that is neither a table nor a directory changes no slot. */
  lemma StoreFrame(m: Mem, p: nat, f: seq<Pte>)
    requires Tidy(m) && p < |m.frame| && |f| == NPTENTRIES
    requires forall s :: Target(m, s) == p ==> s.Page?
    ensures var m' := m.(frame := m.frame[p := f]);
            forall s :: Slot(m', s) == Slot(m, s)
  {
    var m' := m.(frame := m.frame[p := f]);
    forall e: nat | e in m.dirs ensures m.dirs[e] != p {
      assert Target(m, Dir(e)) == m.dirs[e];
    }
    forall e: nat, d: nat | Pde(m, e, d).perm.p ensures Pde(m, e, d).ppn != p {
      assert Target(m, Table(e, d)) == Pde(m, e, d).ppn;
    }
    forall e: nat, d: nat ensures Pde(m', e, d) == Pde(m, e, d) {}
    forall s ensures Slot(m', s) == Slot(m, s) {}
  }

  // ----- one reference more, one reference less -----

  ghost predicate SameButAt(m: Mem, m': Mem, x: Site) {
    forall s :: s != x ==> Slot(m', s) == Slot(m, s)
  }

  lemma ExactAdd(m: Mem, m': Mem, x: Site, q: nat)
    requires Dims(m) && Dims(m') && Exact(m) && m'.kern == m.kern
    requires q < |m.ref| && m.ref[q] + 1 < REF_MODULUS && m'.ref == m.ref[q := m.ref[q] + 1]
    requires SameButAt(m, m', x) && Target(m, x) == -1 && Target(m', x) == q
    ensures Exact(m')
  {
    forall p: nat | p < |m'.ref| ensures m'.ref[p] == |Refs(m', p)| + Base(m', p) {
      RefsUpdate(m, m', x, p);
    }
  }

  lemma ExactDrop(m: Mem, m': Mem, x: Site, q: nat)
    requires Dims(m) && Dims(m') && Exact(m) && m'.kern == m.kern
    requires q < |m.ref|
    requires SameButAt(m, m', x) && Target(m, x) == q && Target(m', x) == -1
    ensures m.ref[q] > 0 && (q in m.kern ==> m.ref[q] > 1) && Dec16(m.ref[q]) == m.ref[q] - 1
    ensures m'.ref == m.ref[q := m.ref[q] - 1] ==> Exact(m')
  {
    InRefs(m, q, x);
    assert x in Refs(m, q);
    if m'.ref == m.ref[q := m.ref[q] - 1] {
      forall p: nat | p < |m'.ref| ensures m'.ref[p] == |Refs(m', p)| + Base(m', p) {
        RefsUpdate(m, m', x, p);
      }
    }
  }

  lemma ExactSame(m: Mem, m': Mem)
    requires Dims(m) && Dims(m') && Exact(m) && m'.kern == m.kern && m'.ref == m.ref
    requires forall s :: Target(m', s) == Target(m, s)
    ensures Exact(m')
  {
    RefsSame(m, m');
  }

  /** Nothing refers to a page whose count is zero. */
  lemma Unreferenced(m: Mem, p: nat)
    requires Inv(m) && p < |m.ref| && m.ref[p] == 0
    ensures p !in m.kern && forall s :: Target(m, s) != p
  {
    forall s ensures Target(m, s) != p { InRefs(m, p, s); }
  }

  /** A page that something refers to is neither free nor lost. */
  lemma Referenced(m: Mem, s: Site)
    requires Inv(m) && Slot(m, s).perm.p
    ensures var p := Slot(m, s).ppn; p < |m.ref| && m.ref[p] > 0 && p !in m.free && p !in m.lost
    ensures s.Dir? || s.Table? ==> Slot(m, s).ppn !in m.kern
  {
    var p := Slot(m, s).ppn;
    assert Target(m, s) == p;
    InRefs(m, p, s);
    assert s in Refs(m, p);
  }

  /** Adding or dropping one reference keeps the page kinds apart. */
  lemma SeparateAdd(m: Mem, m': Mem, x: Site, q: nat)
    requires Separate(m) && m'.kern == m.kern
    requires forall s :: Target(m', s) == if s == x then q else Target(m, s)
    requires q in m.kern ==> q == 0 && x.Page?
    requires if x.Page? then forall s :: Target(m, s) == q ==> s.Page? else forall s :: Target(m, s) != q
    ensures Separate(m')
  {
  }

  lemma SeparateDrop(m: Mem, m': Mem, x: Site)
    requires Separate(m) && m'.kern == m.kern
    requires forall s :: Target(m', s) == if s == x then -1 else Target(m, s)
    ensures Separate(m')
  {
  }

  lemma FreeAfterAdd(m: Mem, m': Mem, q: nat)
    requires Inv(m) && Dims(m') && q < |m.ref| && (m.ref[q] > 0 || q in m.lost) && m'.lost == m.lost - {q}
    requires m'.free == m.free && m.ref[q] + 1 < REF_MODULUS && m'.ref == m.ref[q := m.ref[q] + 1]
    ensures FreeOk(m')
  {
  }

  /** pp may gain a page reference: it is held by nobody yet, or only by page entries. */
  ghost predicate Mappable(m: Mem, pp: nat) {
    && pp < |m.ref|
    && (m.ref[pp] > 0 || pp in m.lost)
    && (pp in m.kern ==> pp == 0)
    && (forall s :: Target(m, s) == pp ==> s.Page?)
  }

  lemma FreeAfterDrop(m: Mem, m': Mem, q: nat)
    requires Inv(m) && Dims(m') && q < |m.ref| && m.ref[q] > 0 && m'.lost == m.lost
    requires m'.ref == m.ref[q := m.ref[q] - 1]
    requires m'.free == if m.ref[q] == 1 then [q] + m.free else m.free
    ensures FreeOk(m')
  {
    assert q !in m.free && q !in m.lost;
    if m.ref[q] == 1 {
      forall p: nat ensures p in m'.free <==> p == q || p in m.free {}
    }
  }

  /** Same memory but for entries outside the kernel's directory. */
  ghost predicate SameBoot(m: Mem, m': Mem) {
    && Dims(m') && |m'.frame| == |m.frame| && m'.kern == m.kern && m'.kdir == m.kdir
    && m.kdir < |m.frame| && m'.frame[m.kdir] == m.frame[m.kdir]
  }

  /** A change that adds the one reference x to page q and counts it. */
  lemma InvAdd(m: Mem, m': Mem, x: Site, q: nat)
    requires Inv(m) && SameBoot(m, m') && SameButAt(m, m', x)
    requires !Slot(m, x).perm.p && Slot(m', x).perm.p && Slot(m', x).ppn == q
    requires Mappable(m, q) && (x.Page? || q in m.lost) && (x.Table? ==> Opens(Slot(m', x).perm))
    requires m'.ref == m.ref[q := Inc16(m.ref[q])] && m'.free == m.free && m'.lost == m.lost - {q}
    ensures Inv(m') <==> m.ref[q] + 1 < REF_MODULUS
  {
    forall s ensures Target(m', s) == if s == x then q else Target(m, s) {}
    if q in m.lost { Unreferenced(m, q); }
    if m.ref[q] + 1 < REF_MODULUS {
      ExactAdd(m, m', x, q);
      SeparateAdd(m, m', x, q);
      FreeAfterAdd(m, m', q);
    } else {
      RefsUpdate(m, m', x, q);
    }
  }

  /** A change that drops the one reference x to page q and discounts it. */
  lemma InvDrop(m: Mem, m': Mem, x: Site, q: nat)
    requires Inv(m) && SameBoot(m, m') && SameButAt(m, m', x) && q < |m.ref|
    requires Slot(m, x).perm.p && Slot(m, x).ppn == q && Slot(m', x) == PTE0
    requires m'.ref == m.ref[q := Dec16(m.ref[q])] && m'.lost == m.lost
    requires m'.free == if Dec16(m.ref[q]) == 0 then [q] + m.free else m.free
    ensures Inv(m') && m.ref[q] > 0 && Dec16(m.ref[q]) == m.ref[q] - 1
  {
    forall s ensures Target(m', s) == if s == x then -1 else Target(m, s) {}
    ExactDrop(m, m', x, q);
    SeparateDrop(m, m', x);
    FreeAfterDrop(m, m', q);
  }

  // ----- page_alloc -----

  /** m with page p held by nobody yet */
  function Transit(m: Mem, p: nat): Mem {
    m.(lost := m.lost + {p})
  }

  function Settle(m: Mem, p: nat): Mem {
    m.(lost := m.lost - {p})
  }

  lemma AllocKeeps(m: Mem)
    requires Inv(m) && m.free != []
    ensures var p := m.free[0]; var m' := Transit(PageAlloc(m).1, p);
            && PageAlloc(m).0 == Some(p)
            && p < |m.ref| && m.ref[p] == 0 && p !in m.kern && p !in m.lost
            && Inv(m')
            && m'.ref == m.ref && m'.free == m.free[1..]
            && (forall i: nat :: At(m', p, i) == PTE0)
            && (forall s :: Slot(m', s) == Slot(m, s))
  {
    var p := m.free[0];
    assert p in m.free;
    Unreferenced(m, p);
    StoreFrame(m, p, ZeroFrame());
    var m' := Transit(PageAlloc(m).1, p);
    forall s ensures Slot(m', s) == Slot(m, s) && Target(m', s) == Target(m, s) {
      assert Slot(PageAlloc(m).1, s) == Slot(m.(frame := m.frame[p := ZeroFrame()]), s);
    }
    ExactSame(m, m');
    assert m.free == [p] + m'.free;
    assert p !in m'.free;
  }

  // ----- page-table entries -----

  lemma AddPage(m: Mem, e: nat, d: nat, t: nat, pp: nat, perm: Perm)
    requires Inv(m) && Pde(m, e, d).perm.p && t < NPTENTRIES
    requires !PteOf(m, e, d, t).perm.p && Mappable(m, pp)
    ensures Pde(m, e, d).ppn < |m.frame|
    ensures var m' := Settle(Incref(SetEntry(m, Pde(m, e, d).ppn, t, Entry(pp, perm)), pp), pp);
            && SameButAt(m, m', Page(e, d, t)) && Slot(m', Page(e, d, t)) == Entry(pp, perm)
            && (Inv(m') <==> m.ref[pp] + 1 < REF_MODULUS)
  {
    var x := Page(e, d, t);
    StorePte(m, e, d, t, Entry(pp, perm));
    var m1 := SetEntry(m, Pde(m, e, d).ppn, t, Entry(pp, perm));
    var m' := Settle(Incref(m1, pp), pp);
    forall s ensures Slot(m', s) == Slot(m1, s) {}
    InvAdd(m, m', x, pp);
  }

  lemma ChangePerm(m: Mem, e: nat, d: nat, t: nat, perm: Perm)
    requires Inv(m) && PteOf(m, e, d, t).perm.p
    ensures Pde(m, e, d).ppn < |m.frame|
    ensures var pte := Entry(PteOf(m, e, d, t).ppn, perm);
            var m' := SetEntry(m, Pde(m, e, d).ppn, t, pte);
            Inv(m') && SameButAt(m, m', Page(e, d, t)) && Slot(m', Page(e, d, t)) == pte
  {
    var pte := Entry(PteOf(m, e, d, t).ppn, perm);
    StorePte(m, e, d, t, pte);
    var m' := SetEntry(m, Pde(m, e, d).ppn, t, pte);
    forall s ensures Target(m', s) == Target(m, s) {}
    ExactSame(m, m');
  }

  lemma RemoveShape(m: Mem, e: nat, d: nat, t: nat)
    requires Inv(m) && PteOf(m, e, d, t).perm.p
    ensures e in m.dirs && InRange(m, m.dirs[e], d, t)
    ensures var q := PteOf(m, e, d, t).ppn; var m' := PageRemove(m, m.dirs[e], d, t);
            && q < |m.ref| && m'.ref == m.ref[q := Dec16(m.ref[q])] && m'.lost == m.lost
            && m'.free == (if Dec16(m.ref[q]) == 0 then [q] + m.free else m.free)
            && SameBoot(m, m') && SameButAt(m, m', Page(e, d, t)) && Slot(m', Page(e, d, t)) == PTE0
  {
    var q, tab := PteOf(m, e, d, t).ppn, Pde(m, e, d).ppn;
    assert Target(m, Dir(e)) == m.dirs[e] && Target(m, Page(e, d, t)) == q;
    StorePte(m, e, d, t, PTE0);
    var m' := PageRemove(m, m.dirs[e], d, t);
    assert m.frame[m.dirs[e]][d] == Pde(m, e, d) && m.frame[tab][t] == PteOf(m, e, d, t);
    SlotsOfFrames(m', SetEntry(m, tab, t, PTE0));
  }

  /** References do not depend on counts and lists. */
  lemma SlotsOfFrames(m: Mem, m': Mem)
    requires m'.frame == m.frame && m'.dirs == m.dirs
    ensures forall s :: Slot(m', s) == Slot(m, s)
  {
  }

  lemma DropPage(m: Mem, e: nat, d: nat, t: nat)
    requires Inv(m) && PteOf(m, e, d, t).perm.p
    ensures e in m.dirs && InRange(m, m.dirs[e], d, t)
    ensures var q := PteOf(m, e, d, t).ppn; var m' := PageRemove(m, m.dirs[e], d, t);
            && Inv(m') && SameButAt(m, m', Page(e, d, t)) && Slot(m', Page(e, d, t)) == PTE0
            && q < |m.ref| && m.ref[q] > 0 && m'.ref == m.ref[q := m.ref[q] - 1]
            && m'.free == if m.ref[q] == 1 then [q] + m.free else m.free
  {
    RemoveShape(m, e, d, t);
    PageDropped(m, PageRemove(m, m.dirs[e], d, t), e, d, t, PteOf(m, e, d, t).ppn);
  }

  lemma PageDropped(m: Mem, m': Mem, e: nat, d: nat, t: nat, q: nat)
    requires Inv(m) && PteOf(m, e, d, t).perm.p && q == PteOf(m, e, d, t).ppn && q < |m.ref|
    requires m'.ref == m.ref[q := Dec16(m.ref[q])] && m'.lost == m.lost && m'.free == if Dec16(m.ref[q]) == 0 then [q] + m.free else m.free
    requires SameBoot(m, m') && SameButAt(m, m', Page(e, d, t)) && Slot(m', Page(e, d, t)) == PTE0
    ensures Inv(m') && m.ref[q] > 0 && m'.ref == m.ref[q := m.ref[q] - 1]
    ensures m'.free == if m.ref[q] == 1 then [q] + m.free else m.free
  {
    assert Slot(m, Page(e, d, t)) == PteOf(m, e, d, t);
    InvDrop(m, m', Page(e, d, t), q);
  }

  // ----- page tables -----

  /** Hang the zeroed page p, held by nobody yet, under directory entry d of e. */
  lemma LinkTable(m: Mem, e: nat, d: nat, p: nat)
    requires Inv(m) && e in m.dirs && d < UTOPX && !Pde(m, e, d).perm.p
    requires p in m.lost && forall i: nat :: At(m, p, i) == PTE0
    ensures m.dirs[e] < |m.frame| && p < |m.ref| && m.ref[p] == 0
    ensures var m' := Settle(Incref(SetEntry(m, m.dirs[e], d, Pte(p, DIR_PERM)), p), p);
            Inv(m') && SameButAt(m, m', Table(e, d)) && Slot(m', Table(e, d)) == Pte(p, DIR_PERM)
  {
    var x := Table(e, d);
    assert Target(m, Dir(e)) == m.dirs[e];
    Unreferenced(m, p);
    StorePde(m, e, d, Pte(p, DIR_PERM));
    var m1 := SetEntry(m, m.dirs[e], d, Pte(p, DIR_PERM));
    var m' := Settle(Incref(m1, p), p);
    forall s ensures Slot(m', s) == Slot(m1, s) {}
    forall t: nat ensures Slot(m', Page(e, d, t)) == Slot(m, Page(e, d, t)) {}
    InvAdd(m, m', x, p);
  }

  /** pgdir_walk with create on a missing table */
  lemma AddTable(m: Mem, e: nat, d: nat)
    requires Inv(m) && e in m.dirs && d < UTOPX && !Pde(m, e, d).perm.p && m.free != []
    ensures m.dirs[e] < |m.frame|
    ensures var p := m.free[0]; var (o, m') := Walk(m, m.dirs[e], d, true);
            && o == Some(p) && p < |m.ref|
            && Inv(m') && SameButAt(m, m', Table(e, d)) && Slot(m', Table(e, d)) == Pte(p, DIR_PERM)
            && m.ref[p] == 0 && m'.ref == m.ref[p := 1] && m'.free == m.free[1..] && m'.lost == m.lost
  {
    var p := m.free[0];
    assert Target(m, Dir(e)) == m.dirs[e];
    AllocKeeps(m);
    Unreferenced(m, p);
    var m1 := Transit(PageAlloc(m).1, p);
    assert Slot(m1, Table(e, d)) == Slot(m, Table(e, d));
    LinkTable(m1, e, d, p);
    var m2 := Settle(Incref(SetEntry(m1, m1.dirs[e], d, Pte(p, DIR_PERM)), p), p);
    var m' := Walk(m, m.dirs[e], d, true).1;
    assert m.frame[m.dirs[e]][d] == Pde(m, e, d);
    assert m'.lost == m2.lost;
    assert m' == m2;
  }

  /** Clear directory entry d and give back its table, once the table is empty (kern/env.c:479-481). */
  function ClearTable(m: Mem, pgdir: nat, d: nat, tab: nat): (r: Mem)
    requires Dims(m) && pgdir < |m.frame| && d < NPTENTRIES && tab < |m.ref|
    ensures Dims(r)
  {
    Decref(SetEntry(m, pgdir, d, PTE0), tab)
  }

  lemma DropTable(m: Mem, e: nat, d: nat)
    requires Inv(m) && Pde(m, e, d).perm.p
    requires forall t: nat :: !PteOf(m, e, d, t).perm.p
    ensures m.dirs[e] < |m.frame| && Pde(m, e, d).ppn < |m.ref|
    ensures var q := Pde(m, e, d).ppn; var m' := ClearTable(m, m.dirs[e], d, q);
            && Inv(m') && SameButAt(m, m', Table(e, d)) && Slot(m', Table(e, d)) == PTE0
            && m.ref[q] == 1 && m'.free == [q] + m.free
  {
    var x, q := Table(e, d), Pde(m, e, d).ppn;
    assert Target(m, Dir(e)) == m.dirs[e] && Target(m, x) == q;
    assert m.frame[m.dirs[e]][d] == Pde(m, e, d);
    StorePde(m, e, d, PTE0);
    var m1 := SetEntry(m, m.dirs[e], d, PTE0);
    var m' := ClearTable(m, m.dirs[e], d, q);
    forall s ensures Slot(m', s) == Slot(m1, s) {}
    forall t: nat ensures Slot(m', Page(e, d, t)) == Slot(m, Page(e, d, t)) {
      assert Slot(m, Page(e, d, t)) == PTE0;
    }
    OnlyReference(m, x);
    InvDrop(m, m', x, q);
  }

  /** A table or directory is referred to exactly once. */
  lemma OnlyReference(m: Mem, x: Site)
    requires Inv(m) && Slot(m, x).perm.p && !x.Page?
    ensures var p := Slot(m, x).ppn; p < |m.ref| && m.ref[p] == 1
  {
    var p := Slot(m, x).ppn;
    assert Target(m, x) == p;
    forall s ensures s in Refs(m, p) <==> s == x { InRefs(m, p, s); }
    assert Refs(m, p) == {x};
  }

  // ----- page directories -----

  /** env_setup_vm: a zeroed page receives the kernel's directory and the self-map entry. */
  function EnvSetupVm(m: Mem, e: nat): (r: (bool, Mem))
    requires Dims(m) && m.kdir < |m.frame|
    ensures Dims(r.1)
  {
    var (o, m1) := PageAlloc(m);
    match o
    case None => (false, m1)
    case Some(p) =>
      var m2 := Incref(m1.(frame := m1.frame[p := m1.frame[m1.kdir]]), p);
      var m3 := SetEntry(m2, p, UVPTX, Pte(p, SELF_PERM));
      (true, m3.(dirs := m3.dirs[e := p]))
  }

  /** The last step of env_free on memory: forget the directory pointer and drop its reference. */
  function ClearDir(m: Mem, e: nat): (r: Mem)
    requires Dims(m) && e in m.dirs && m.dirs[e] < |m.ref|
    ensures Dims(r)
  {
    Decref(m.(dirs := m.dirs - {e}), m.dirs[e])
  }

  lemma DropDir(m: Mem, e: nat)
    requires Inv(m) && e in m.dirs
    requires forall d: nat :: !Pde(m, e, d).perm.p
    ensures var p := m.dirs[e];
            && p < |m.ref| && m.ref[p] == 1
            && var m' := ClearDir(m, e);
            && Inv(m') && SameButAt(m, m', Dir(e)) && Slot(m', Dir(e)) == PTE0
            && m'.free == [p] + m.free
  {
    var x, p := Dir(e), m.dirs[e];
    OnlyReference(m, x);
    var m' := ClearDir(m, e);
    assert Target(m, x) == p;
    assert m'.frame == m.frame && m'.dirs == m.dirs - {e};
    forall d: nat ensures Pde(m', e, d) == Pde(m, e, d) {
      assert Slot(m, Table(e, d)) == PTE0;
    }
    forall e': nat, d: nat ensures Pde(m', e', d) == Pde(m, e', d) {}
    forall s | s != x ensures Slot(m', s) == Slot(m, s) {}
    InvDrop(m, m', x, p);
  }

  lemma AddDir(m: Mem, e: nat)
    requires Inv(m) && e !in m.dirs && m.free != []
    ensures m.kdir < |m.frame|
    ensures var p := m.free[0]; var (ok, m') := EnvSetupVm(m, e);
            && ok && p < |m.ref| && m.ref[p] == 0
            && Inv(m') && SameButAt(m, m', Dir(e)) && m'.dirs == m.dirs[e := p]
            && m'.ref == m.ref[p := 1] && m'.free == m.free[1..] && m'.lost == m.lost
  {
    var p := m.free[0];
    AllocKeeps(m);
    var m1 := Transit(PageAlloc(m).1, p);
    Unreferenced(m1, p);
    LinkDir(m1, e, p);
    var f := m1.frame[m1.kdir][UVPTX := Pte(p, SELF_PERM)];
    var m2 := Settle(Incref(m1.(frame := m1.frame[p := f], dirs := m1.dirs[e := p]), p), p);
    var m' := EnvSetupVm(m, e).1;
    assert p != m.kdir;
    assert m'.lost == m2.lost;
    assert m'.frame == m2.frame;
    assert m' == m2;
  }

  lemma LinkDir(m: Mem, e: nat, p: nat)
    requires Inv(m) && e !in m.dirs && p in m.lost
    ensures p < |m.ref| && m.ref[p] == 0 && p !in m.kern && p != m.kdir
    ensures var f := m.frame[m.kdir][UVPTX := Pte(p, SELF_PERM)];
            var m' := Settle(Incref(m.(frame := m.frame[p := f], dirs := m.dirs[e := p]), p), p);
            Inv(m') && SameButAt(m, m', Dir(e)) && m'.dirs == m.dirs[e := p]
  {
    var x := Dir(e);
    Unreferenced(m, p);
    var f := m.frame[m.kdir][UVPTX := Pte(p, SELF_PERM)];
    StoreFrame(m, p, f);
    var m1 := m.(frame := m.frame[p := f]);
    var m' := Settle(Incref(m1.(dirs := m1.dirs[e := p]), p), p);
    forall e': nat, d: nat ensures Pde(m', e', d) == Pde(m1, e', d) {
      if e' == e && d < UTOPX { assert m'.frame[p][d] == m.frame[m.kdir][d]; }
    }
    forall s | s != x ensures Slot(m', s) == Slot(m1, s) {}
    assert Slot(m, x) == PTE0 && Slot(m', x) == Pte(p, DIR_PERM);
    InvAdd(m, m', x, p);
  }
}
