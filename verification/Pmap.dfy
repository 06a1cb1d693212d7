/** kern/pmap.c on arrays: the pages array with its linked free list, and physical
    memory holding the page tables, changed in place. Each operation is proved
    against the function of the same name in Paging. */
module Pmap {
  import opened Paging
  import opened PagingInvariant
  import opened PagingOps
  import opened AddressSpaceTeardown

  const NULL: int := -1

  function Next(list: seq<nat>, i: nat): int {
    if i + 1 < |list| then list[i + 1] else NULL
  }

  /** The list starting at head runs through exactly these pages. */
  ghost predicate Linked(head: int, link: seq<int>, list: seq<nat>) {
    && head == (if list == [] then NULL else list[0])
    && NoDup(list)
    && (forall i :: 0 <= i < |list| ==> list[i] < |link|)
    && (forall i :: 0 <= i < |list| ==> link[list[i]] == Next(list, i))
    && (forall p :: 0 <= p < |link| && p !in list ==> link[p] == NULL)
  }

  lemma Pop(head: int, link: seq<int>, list: seq<nat>)
    requires Linked(head, link, list) && list != []
    ensures 0 <= head < |link| && Linked(link[head], link[head := NULL], list[1..])
    ensures forall p: nat :: p in list <==> p == head || p in list[1..]
  {
    var rest := list[1..];
    assert list == [list[0]] + rest;
    assert link[list[0]] == Next(list, 0);
    forall i | 0 <= i < |rest| ensures link[head := NULL][rest[i]] == Next(rest, i) {
      assert link[list[i + 1]] == Next(list, i + 1) && list[0] != list[i + 1];
    }
    forall p | 0 <= p < |link| && p !in rest ensures link[head := NULL][p] == NULL {
      assert p in list ==> p == list[0];
    }
  }

  lemma Push(head: int, link: seq<int>, list: seq<nat>, p: nat)
    requires Linked(head, link, list) && p < |link| && p !in list
    ensures Linked(p, link[p := head], [p] + list)
  {
    var all := [p] + list;
    forall i | 0 <= i < |all| ensures link[p := head][all[i]] == Next(all, i) {
      if i > 0 {
        assert all[i] == list[i - 1] && list[i - 1] in list;
        assert link[list[i - 1]] == Next(list, i - 1);
      }
    }
    forall q | 0 <= q < |link| && q !in all ensures link[p := head][q] == NULL {
      assert all[0] == p;
      assert q in list ==> q in all;
    }
  }

  /** The page mapped at (d, t), if any, is not on the free list. */
  ghost predicate MappedInUse(m: Mem, pgdir: nat, d: nat, t: nat) {
    var pde := At(m, pgdir, d);
    pde.perm.p && At(m, pde.ppn, t).perm.p ==> At(m, pde.ppn, t).ppn !in m.free
  }

  class Memory {
    const npages: nat
    const pp_ref: array<nat>
    const pp_link: array<int>
    const ram: array<seq<Pte>>
    const kern_pgdir: nat
    var page_free_list: int
    /** env_pgdir of each live environment slot */
    var env_pgdir: map<nat, nat>

    ghost var free: seq<nat>
    ghost var kern: set<nat>
    ghost var lost: set<nat>

    ghost predicate Valid()
      reads this, pp_ref, pp_link, ram
    {
      && pp_ref.Length == pp_link.Length == ram.Length == npages
      && (pp_ref as object) != pp_link
      && (forall p :: 0 <= p < npages ==> |ram[p]| == NPTENTRIES)
      && Linked(page_free_list, pp_link[..], free)
      && (forall i :: 0 <= i < |free| ==> pp_ref[free[i]] == 0)
    }

    ghost function View(): Mem
      reads this, pp_ref, pp_link, ram
    {
      Mem(pp_ref[..], free, ram[..], env_pgdir, kern_pgdir, kern, lost)
    }

    ghost function Footprint(): set<object>
      reads this
    {
      {this, pp_ref, pp_link, ram}
    }

    method PageAlloc(zero: bool) returns (pp: int)
      requires Valid() && Dims(View())
      modifies this`page_free_list, this`free, pp_link, ram
      ensures Valid() && Dims(View())
      ensures pp == NULL <==> old(free) == []
      ensures pp == NULL ==> View() == old(View())
      ensures pp != NULL ==> pp == old(free)[0]
      ensures pp != NULL && zero ==> View() == Paging.PageAlloc(old(View())).1
      ensures pp != NULL && !zero ==> View() == old(View()).(free := old(free)[1..])
    {
      if page_free_list == NULL { return NULL; }
      Pop(page_free_list, pp_link[..], free);
      pp := page_free_list;
      page_free_list := pp_link[pp];
      pp_link[pp] := NULL;
      free := free[1..];
      if zero { ram[pp] := ZeroFrame(); }
    }

    /** page_free panics on a page that is referenced or linked. */
    method PageFree(pp: nat)
      requires Valid() && pp < npages && pp_ref[pp] == 0 && pp_link[pp] == NULL && pp !in free
      modifies this`page_free_list, this`free, pp_link
      ensures Valid() && View() == old(View()).(free := [pp] + old(free))
    {
      Push(page_free_list, pp_link[..], free, pp);
      pp_link[pp] := page_free_list;
      page_free_list := pp;
      free := [pp] + free;
    }

    method PageDecref(pp: nat)
      requires Valid() && Dims(View()) && pp < npages && pp !in free
      modifies this`page_free_list, this`free, pp_link, pp_ref
      ensures Valid() && View() == Decref(old(View()), pp)
    {
      assert forall i :: 0 <= i < |free| ==> free[i] in free;
      pp_ref[pp] := Dec16(pp_ref[pp]);
      if pp_ref[pp] == 0 { PageFree(pp); }
    }

    /** The page that holds the entry of directory index d: the C code returns a pointer into it. */
    method PgdirWalk(pgdir: nat, d: nat, create: bool) returns (pt: int)
      requires Valid() && Dims(View()) && pgdir < npages && d < NPTENTRIES && pgdir !in free
      modifies Footprint()
      ensures Valid() && Dims(View())
      ensures var (o, m) := Walk(old(View()), pgdir, d, create);
              View() == m && pt == (if o == Option.None then NULL else o.value)
    {
      if ram[pgdir][d].perm.p { return ram[pgdir][d].ppn; }
      if !create { return NULL; }
      pt := PageAlloc(true);
      if pt == NULL { return; }
      assert pt in old(free);
      pp_ref[pt] := Inc16(pp_ref[pt]);
      ram[pgdir] := ram[pgdir][d := Pte(pt, DIR_PERM)];
    }

    /** page_lookup: (page, page table) of the entry, or NULL without a table. PTE_P is not tested. */
    method PageLookup(pgdir: nat, d: nat, t: nat) returns (pp: int, pt: int)
      requires Valid() && Dims(View()) && InRange(View(), pgdir, d, t) && pgdir !in free
      modifies Footprint()
      ensures Valid() && View() == old(View())
      ensures pt == NULL <==> !old(At(View(), pgdir, d)).perm.p
      ensures pt == NULL ==> pp == NULL
      ensures pt != NULL ==> pt == old(At(View(), pgdir, d)).ppn && pp == old(At(View(), At(View(), pgdir, d).ppn, t)).ppn
    {
      pt := PgdirWalk(pgdir, d, false);
      if pt == NULL { return NULL, NULL; }
      pp := ram[pt][t].ppn;
    }

    method PageRemove(pgdir: nat, d: nat, t: nat)
      requires Valid() && Dims(View()) && InRange(View(), pgdir, d, t) && pgdir !in free
      requires At(View(), pgdir, d).perm.p ==> At(View(), At(View(), pgdir, d).ppn, t).ppn !in free
      modifies Footprint()
      ensures Valid() && View() == Paging.PageRemove(old(View()), pgdir, d, t)
    {
      var page, pt := PageLookup(pgdir, d, t);
      if page == NULL { return; }
      PageDecref(page);
      ram[pt] := ram[pt][t := PTE0];
    }

    /** page_insert once the page table pt is there */
    method MapInTable(pgdir: nat, pt: nat, pp: nat, d: nat, t: nat, perm: Perm)
      requires Valid() && Dims(View()) && InRange(View(), pgdir, d, t) && pgdir !in free
      requires At(View(), pgdir, d).perm.p && At(View(), pgdir, d).ppn == pt
      requires pp < npages && pp !in free && (At(View(), pt, t).perm.p ==> At(View(), pt, t).ppn !in free)
      modifies Footprint()
      ensures Valid() && (true, View()) == Paging.PageInsert(old(View()), pgdir, pp, d, t, perm)
    {
      if ram[pt][t].perm.p {
        if ram[pt][t].ppn == pp {
          ram[pt] := ram[pt][t := Entry(pp, perm)];
          return;
        }
        PageRemove(pgdir, d, t);
      }
      ram[pt] := ram[pt][t := Entry(pp, perm)];
      assert pp !in free;
      pp_ref[pp] := Inc16(pp_ref[pp]);
    }

    method PageInsert(pgdir: nat, pp: nat, d: nat, t: nat, perm: Perm) returns (ok: bool)
      requires Valid() && Dims(View()) && InRange(View(), pgdir, d, t) && pgdir !in free
      requires pp < npages && pp !in free && MappedInUse(View(), pgdir, d, t)
      modifies Footprint()
      ensures Valid() && (ok, View()) == Paging.PageInsert(old(View()), pgdir, pp, d, t, perm)
    {
      ghost var v := View();
      var pt := PgdirWalk(pgdir, d, true);
      if pt == NULL { return false; }
      ghost var v1 := View();
      WalkedReady(v, pgdir, pp, d, t, perm);
      MapInTable(pgdir, pt, pp, d, t, perm);
      ok := true;
    }

    /** env_setup_vm for slot e; false is -E_NO_MEM */
    method EnvSetupVm(e: nat) returns (ok: bool)
      requires Valid() && Dims(View()) && kern_pgdir < npages && kern_pgdir !in free
      modifies Footprint()
      ensures Valid() && (ok, View()) == PagingInvariant.EnvSetupVm(old(View()), e)
    {
      var p := PageAlloc(true);
      if p == NULL { return false; }
      ram[p] := ram[kern_pgdir];
      assert p in old(free) && p !in free;
      pp_ref[p] := Inc16(pp_ref[p]);
      ram[p] := ram[p][UVPTX := Pte(p, SELF_PERM)];
      env_pgdir := env_pgdir[e := p];
      ok := true;
    }

    /** One turn of the inner loop of env_free */
    method UnmapEntry(ghost e: nat, pgdir: nat, pdeno: nat, pt: nat, pteno: nat)
      requires Valid() && Inv(View()) && HasTable(View(), e, pgdir, pdeno, pt) && pteno < NPTENTRIES
      modifies Footprint()
      ensures Valid() && View() == FreeEntry(old(View()), pgdir, pdeno, pt, pteno)
    {
      EntryReady(View(), e, pgdir, pdeno, pt, pteno);
      if ram[pt][pteno].perm.p { PageRemove(pgdir, pdeno, pteno); }
    }

    /** The inner loop of env_free: unmap every present entry of one table. */
    method UnmapTable(ghost e: nat, pgdir: nat, pdeno: nat, pt: nat)
      requires Valid() && Inv(View()) && HasTable(View(), e, pgdir, pdeno, pt)
      modifies Footprint()
      ensures Valid() && View() == FreeEntries(old(View()), pgdir, pdeno, pt, 0)
    {
      ghost var v := View();
      ghost var m := v;
      for pteno := 0 to NPTENTRIES
        invariant Valid() && View() == m
        invariant Inv(m) && HasTable(m, e, pgdir, pdeno, pt)
        invariant FreeEntries(m, pgdir, pdeno, pt, pteno) == FreeEntries(v, pgdir, pdeno, pt, 0)
      {
        FreeEntryClears(m, e, pgdir, pdeno, pt, pteno);
        m := FreeEntry(m, pgdir, pdeno, pt, pteno);
        UnmapEntry(e, pgdir, pdeno, pt, pteno);
      }
    }

    /** One turn of the outer loop of env_free */
    method DropTable(ghost e: nat, pgdir: nat, pdeno: nat)
      requires Valid() && Inv(View()) && e in env_pgdir && env_pgdir[e] == pgdir && pdeno < UTOPX
      modifies Footprint()
      ensures Valid() && View() == FreeTable(old(View()), pgdir, pdeno)
    {
      TableReady(View(), e, pgdir, pdeno);
      var pde := ram[pgdir][pdeno];
      if pde.perm.p {
        UnmapTable(e, pgdir, pdeno, pde.ppn);
        GiveTableBack(pgdir, pdeno, pde.ppn);
      }
    }

    /** The emptied table leaves the directory. */
    method GiveTableBack(pgdir: nat, pdeno: nat, pt: nat)
      requires Valid() && Dims(View()) && pgdir < npages && pdeno < NPTENTRIES && pt < npages && pt !in free
      modifies this`page_free_list, this`free, pp_link, pp_ref, ram
      ensures Valid() && View() == ClearTable(old(View()), pgdir, pdeno, pt)
    {
      ram[pgdir] := ram[pgdir][pdeno := PTE0];
      PageDecref(pt);
    }

    /** The outer loop of env_free */
    method DropTables(ghost e: nat, pgdir: nat)
      requires Valid() && Inv(View()) && e in env_pgdir && env_pgdir[e] == pgdir
      modifies Footprint()
      ensures Valid() && View() == FreeTables(old(View()), pgdir, 0)
      ensures env_pgdir == old(env_pgdir) && pgdir < npages && pgdir !in free
    {
      ghost var v := View();
      ghost var m := v;
      for pdeno := 0 to UTOPX
        invariant Valid() && View() == m
        invariant Inv(m) && m.dirs == v.dirs
        invariant FreeTables(m, pgdir, pdeno) == FreeTables(v, pgdir, 0)
      {
        FreeTableClears(m, e, pgdir, pdeno);
        m := FreeTable(m, pgdir, pdeno);
        DropTable(e, pgdir, pdeno);
      }
      Referenced(m, Dir(e));
    }

    method EnvFree(e: nat)
      requires Valid() && Inv(View()) && e in env_pgdir && env_pgdir[e] < npages
      modifies Footprint()
      ensures Valid() && View() == AddressSpaceTeardown.EnvFree(old(View()), e)
    {
      var pgdir := env_pgdir[e];
      DropTables(e, pgdir);
      GiveDirectoryBack(e, pgdir);
    }

    method GiveDirectoryBack(e: nat, pgdir: nat)
      requires Valid() && Dims(View()) && pgdir < npages && pgdir !in free
      modifies this`page_free_list, this`free, this`env_pgdir, pp_link, pp_ref
      ensures Valid() && View() == Decref(old(View()), pgdir).(dirs := old(View()).dirs - {e})
    {
      env_pgdir := env_pgdir - {e};
      PageDecref(pgdir);
    }
  }

  /** After a successful pgdir_walk, page_insert goes on in an existing table. */
  lemma WalkedReady(m: Mem, pgdir: nat, pp: nat, d: nat, t: nat, perm: Perm)
    requires Dims(m) && InRange(m, pgdir, d, t) && pp < |m.ref| && pgdir !in m.free && pp !in m.free
    requires MappedInUse(m, pgdir, d, t) && NoDup(m.free)
    ensures var (o, m1) := Walk(m, pgdir, d, true);
            o != Option.None ==>
              && InRange(m1, pgdir, d, t) && pgdir !in m1.free && pp !in m1.free
              && At(m1, pgdir, d).perm.p && At(m1, pgdir, d).ppn == o.value
              && (At(m1, o.value, t).perm.p ==> At(m1, o.value, t).ppn !in m1.free)
              && Paging.PageInsert(m, pgdir, pp, d, t, perm) == Paging.PageInsert(m1, pgdir, pp, d, t, perm)
  {
  }

  /** What one turn of the inner loop needs, on values */
  lemma EntryReady(m: Mem, e: nat, pgdir: nat, d: nat, tab: nat, t: nat)
    requires Inv(m) && HasTable(m, e, pgdir, d, tab) && t < NPTENTRIES
    ensures InRange(m, pgdir, d, t) && pgdir !in m.free && tab < |m.frame|
    ensures At(m, pgdir, d).perm.p && At(m, pgdir, d).ppn == tab
    ensures At(m, tab, t).perm.p ==> At(m, tab, t).ppn !in m.free
  {
    RangeOk(m, e, d, t);
    Referenced(m, Dir(e));
    assert Slot(m, Page(e, d, t)) == At(m, tab, t);
    if Slot(m, Page(e, d, t)).perm.p { Referenced(m, Page(e, d, t)); }
  }

  /** What one turn of the outer loop needs, on values */
  lemma TableReady(m: Mem, e: nat, pgdir: nat, d: nat)
    requires Inv(m) && e in m.dirs && m.dirs[e] == pgdir && d < UTOPX
    ensures InRange(m, pgdir, d, 0)
    ensures At(m, pgdir, d).perm.p ==>
              var tab := At(m, pgdir, d).ppn; var m1 := FreeEntries(m, pgdir, d, tab, 0);
              HasTable(m, e, pgdir, d, tab) && tab < |m1.ref| && tab !in m1.free
  {
    RangeOk(m, e, d, 0);
    var tab := At(m, pgdir, d).ppn;
    if At(m, pgdir, d).perm.p {
      FreeEntriesClears(m, e, pgdir, d, tab, 0);
      var m1 := FreeEntries(m, pgdir, d, tab, 0);
      assert Slot(m1, Table(e, d)) == Slot(m, Table(e, d));
      Referenced(m1, Table(e, d));
    }
  }
}
