/** user_mem_check (kern/pmap.c:713-735): may an environment touch a range of memory? */
module UserMemory {
  import opened Paging
  import opened Pmap

  const PGSIZE: nat := 4096
  const WORD: nat := 0x1_0000_0000
  const ULIM: nat := 0xEF800000
  const E_FAULT: int := 6

  /** (have & want) == want, with P and U added to want */
  predicate Grants(have: Perm, want: Perm) {
    && have.p && have.u
    && (want.w ==> have.w) && (want.a9 ==> have.a9) && (want.a10 ==> have.a10) && (want.cow ==> have.cow)
    && want.other <= have.other
  }

  /** Bit i of the word, as inc/mmu.h numbers them */
  predicate Bit(p: Perm, i: nat) {
    if i == 0 then p.p else if i == 1 then p.w else if i == 2 then p.u
    else if i == 9 then p.a9 else if i == 10 then p.a10 else if i == 11 then p.cow
    else i in p.other
  }

  predicate BitKept(have: Perm, want: Perm, i: nat) {
    Bit(want, i) || i == 0 || i == 2 ==> Bit(have, i)
  }

  /** The test is the mask test on the wanted word with P and U added. */
  lemma GrantsIsMask(have: Perm, want: Perm)
    requires want.other !! {0, 1, 2, 9, 10, 11}
    ensures Grants(have, want) <==> forall i: nat :: BitKept(have, want, i)
  {
    if Grants(have, want) {
      forall i: nat ensures BitKept(have, want, i) {}
    } else if forall i: nat :: BitKept(have, want, i) {
      assert BitKept(have, want, 0) && BitKept(have, want, 1) && BitKept(have, want, 2);
      assert BitKept(have, want, 9) && BitKept(have, want, 10) && BitKept(have, want, 11);
      forall i | i in want.other ensures i in have.other { assert BitKept(have, want, i); }
    }
  }

  /** The environment may touch address a. */
  predicate May(m: Mem, pgdir: nat, a: nat, perm: Perm) {
    var v := a / PGSIZE;
    var pde := At(m, pgdir, v / NPTENTRIES);
    a < ULIM && pde.perm.p && Grants(At(m, pde.ppn, v % NPTENTRIES).perm, perm)
  }

  /** ROUNDUP(va + len, PGSIZE) in 32 bits */
  function End(va: nat, len: nat): nat {
    var last := (va + len) % WORD + PGSIZE - 1;
    (last - last % PGSIZE) % WORD
  }

  function RoundDown(a: nat): (r: nat)
    ensures r <= a < r + PGSIZE && r % PGSIZE == 0
  {
    a - a % PGSIZE
  }

  lemma WholePage(m: Mem, pgdir: nat, a: nat, perm: Perm)
    ensures May(m, pgdir, a, perm) == May(m, pgdir, RoundDown(a), perm)
  {
    assert RoundDown(a) / PGSIZE == a / PGSIZE;
  }

  lemma EndIsRounded(va: nat, len: nat)
    requires 0 < len && va + len + PGSIZE <= WORD
    ensures va + len <= End(va, len) < va + len + PGSIZE
    ensures forall addr: nat :: addr < End(va, len) && addr % PGSIZE == 0 ==> addr < va + len
  {
    var end := End(va, len);
    assert end % PGSIZE == 0;
    forall addr: nat | addr < end && addr % PGSIZE == 0 ensures addr < va + len {
      assert addr == PGSIZE * (addr / PGSIZE) && end == PGSIZE * (end / PGSIZE);
    }
  }

  /** A page that is refused gives the first address of the range refused in it. */
  lemma FirstBad(m: Mem, pgdir: nat, va: nat, addr: nat, perm: Perm)
    requires addr % PGSIZE == 0 && RoundDown(va) <= addr && !May(m, pgdir, addr, perm)
    ensures var bad := if addr < va then va else addr;
            va <= bad && !May(m, pgdir, bad, perm) && (addr < va ==> addr == RoundDown(va))
  {
    WholePage(m, pgdir, va, perm);
    if addr < va { assert addr / PGSIZE == va / PGSIZE; }
  }

  lemma Refused(m: Mem, pgdir: nat, va: nat, len: nat, addr: nat, perm: Perm, bad: nat)
    requires addr % PGSIZE == 0 && RoundDown(va) <= addr < End(va, len) && !May(m, pgdir, addr, perm)
    requires bad == if addr < va then va else addr
    requires forall a: nat :: va <= a < addr ==> May(m, pgdir, a, perm)
    ensures va <= bad && !May(m, pgdir, bad, perm) && !PagesAllowed(m, pgdir, va, len, perm)
    ensures forall a: nat :: va <= a < bad ==> May(m, pgdir, a, perm)
    ensures 0 < len && va + len + PGSIZE <= WORD ==> bad < va + len
  {
    FirstBad(m, pgdir, va, addr, perm);
    if 0 < len && va + len + PGSIZE <= WORD { EndIsRounded(va, len); }
  }

  lemma SamePage(addr: nat, a: nat)
    requires addr % PGSIZE == 0 && addr <= a < addr + PGSIZE
    ensures a / PGSIZE == addr / PGSIZE && (addr + PGSIZE) % PGSIZE == 0 && (addr < ULIM ==> a < ULIM)
  {
  }

  lemma WholePages(m: Mem, pgdir: nat, addr: nat, perm: Perm)
    requires addr % PGSIZE == 0 && May(m, pgdir, addr, perm)
    ensures forall a: nat :: addr <= a < addr + PGSIZE ==> May(m, pgdir, a, perm)
    ensures (addr + PGSIZE) % PGSIZE == 0
  {
    SamePage(addr, addr);
    forall a: nat | addr <= a < addr + PGSIZE ensures May(m, pgdir, a, perm) { SamePage(addr, a); }
  }

  /** The range as the code sees it, in whole pages and 32 bits, is allowed. */
  ghost predicate PagesAllowed(m: Mem, pgdir: nat, va: nat, len: nat, perm: Perm) {
    forall a: nat :: RoundDown(va) <= a < End(va, len) ==> May(m, pgdir, a, perm)
  }

  ghost predicate RangeAllowed(m: Mem, pgdir: nat, va: nat, len: nat, perm: Perm) {
    forall a: nat :: va <= a < va + len ==> May(m, pgdir, a, perm)
  }

  /** A range that reaches into the last page of the address space has the rounded end 0: no page is looked
      at, though its last byte is forbidden. */
  lemma WrappedEnd(m: Mem, pgdir: nat, va: nat, len: nat, perm: Perm)
    requires 0 < len && va + len <= WORD < va + len + PGSIZE
    ensures End(va, len) <= RoundDown(va) && !May(m, pgdir, va + len - 1, perm)
  {
  }

  /** The code's question has the right answer: the verdict on its pages is that on the range. */
  ghost predicate VerdictRight(m: Mem, pgdir: nat, va: nat, len: nat, perm: Perm) {
    PagesAllowed(m, pgdir, va, len, perm) <==> RangeAllowed(m, pgdir, va, len, perm)
  }

  /** When it is. A range within the address space must end before the last page. The empty range is right, but that
      an unaligned va below the last page must be allowed itself. A range past the end of the address space is never
      allowed: it is refused only if it comes round to va's own page, which is then the only page looked at. */
  predicate RightWhen(m: Mem, pgdir: nat, va: nat, len: nat, perm: Perm) {
    if len == 0 then va % PGSIZE == 0 || va + PGSIZE > WORD || May(m, pgdir, va, perm)
    else if va + len <= WORD then va + len + PGSIZE <= WORD
    else RoundDown(va) + WORD < va + len && RoundDown(va) + PGSIZE < WORD && !May(m, pgdir, va, perm)
  }

  lemma VerdictRightIff(m: Mem, pgdir: nat, va: nat, len: nat, perm: Perm)
    requires va < WORD && len < WORD
    ensures VerdictRight(m, pgdir, va, len, perm) <==> RightWhen(m, pgdir, va, len, perm)
  {
    if len == 0 { EmptyRange(m, pgdir, va, perm); }
    else if va + len > WORD { RangePastEnd(m, pgdir, va, len, perm); }
    else if va + len + PGSIZE <= WORD { BelowLastPage(m, pgdir, va, len, perm); }
    else { WrappedEnd(m, pgdir, va, len, perm); }
  }

  /** Of the empty range the page of an unaligned va is looked at, unless it is the last one. */
  lemma EmptyRange(m: Mem, pgdir: nat, va: nat, perm: Perm)
    requires va < WORD
    ensures RangeAllowed(m, pgdir, va, 0, perm)
    ensures PagesAllowed(m, pgdir, va, 0, perm) <==> RightWhen(m, pgdir, va, 0, perm)
  {
    assert va == PGSIZE * (va / PGSIZE) + va % PGSIZE;
    if va % PGSIZE != 0 && va + PGSIZE <= WORD {
      OnePage(m, pgdir, va, 0, perm);
    } else {
      NoPage(va, 0);
    }
  }

  /** A range past the end of the address space */
  lemma RangePastEnd(m: Mem, pgdir: nat, va: nat, len: nat, perm: Perm)
    requires va < WORD && len < WORD && va + len > WORD
    ensures !RangeAllowed(m, pgdir, va, len, perm)
    ensures PagesAllowed(m, pgdir, va, len, perm) <==> !RightWhen(m, pgdir, va, len, perm)
  {
    assert !May(m, pgdir, WORD - 1, perm);
    var rest := va + len - WORD;
    assert (va + len) % WORD == rest;
    if RoundDown(va) < rest && RoundDown(va) + PGSIZE < WORD {
      OnePage(m, pgdir, va, len, perm);
    } else {
      NoPage(va, len);
    }
  }

  /** An end in va's own page, at or below va: that page alone is looked at. */
  lemma OnePage(m: Mem, pgdir: nat, va: nat, len: nat, perm: Perm)
    requires RoundDown(va) < (va + len) % WORD <= va && RoundDown(va) + PGSIZE < WORD
    ensures PagesAllowed(m, pgdir, va, len, perm) <==> May(m, pgdir, va, perm)
  {
    RoundUp((va + len) % WORD, va / PGSIZE);
    assert RoundDown(va) == PGSIZE * (va / PGSIZE);
    assert End(va, len) == RoundDown(va) + PGSIZE;
    forall a: nat | RoundDown(va) <= a < End(va, len) ensures May(m, pgdir, a, perm) == May(m, pgdir, va, perm) {
      assert RoundDown(a) == RoundDown(va);
      WholePage(m, pgdir, a, perm);
      WholePage(m, pgdir, va, perm);
    }
  }

  /** An end at or below va's page: no page is looked at. */
  lemma NoPage(va: nat, len: nat)
    requires (va + len) % WORD <= RoundDown(va) || WORD <= RoundDown(va) + PGSIZE
    ensures End(va, len) <= RoundDown(va)
  {
    var x := (va + len) % WORD;
    assert RoundDown(va) == PGSIZE * (va / PGSIZE);
    if x > 0 { RoundUp(x, (x - 1) / PGSIZE); }
  }

  lemma RoundUp(x: nat, q: nat)
    requires PGSIZE * q < x <= PGSIZE * q + PGSIZE
    ensures var last := x + PGSIZE - 1; last - last % PGSIZE == PGSIZE * q + PGSIZE
  {
    var last := x + PGSIZE - 1;
    assert last / PGSIZE == q + 1;
  }

  lemma BelowLastPage(m: Mem, pgdir: nat, va: nat, len: nat, perm: Perm)
    requires 0 < len && va + len + PGSIZE <= WORD
    ensures VerdictRight(m, pgdir, va, len, perm)
  {
    EndIsRounded(va, len);
    forall a: nat | RangeAllowed(m, pgdir, va, len, perm) && RoundDown(va) <= a < End(va, len) ensures May(m, pgdir, a, perm) {
      TouchedPage(va, len, a);
      var b := if RoundDown(a) < va then va else RoundDown(a);
      WholePage(m, pgdir, a, perm);
      WholePage(m, pgdir, b, perm);
      assert RoundDown(b) == RoundDown(a);
    }
  }

  /** An address of the rounded range is on a page of the range. */
  lemma TouchedPage(va: nat, len: nat, a: nat)
    requires 0 < len && va + len + PGSIZE <= WORD && RoundDown(va) <= a < End(va, len)
    ensures RoundDown(a) < va + len && (RoundDown(a) < va ==> RoundDown(a) == RoundDown(va))
  {
    EndIsRounded(va, len);
    assert RoundDown(a) == PGSIZE * (a / PGSIZE) && RoundDown(va) == PGSIZE * (va / PGSIZE);
  }

  /** The verdict is that on the pages between the rounded ends, in 32 bits, for every range. For a range below the
      last page that is every address of the range, and on failure `bad` is the first refused. */
  method UserMemCheck(mem: Memory, pgdir: nat, va: nat, len: nat, perm: Perm) returns (r: int, bad: nat)
    requires mem.Valid() && Dims(mem.View()) && pgdir < mem.npages && pgdir !in mem.free
    requires forall d: nat :: At(mem.View(), pgdir, d).perm.p ==> At(mem.View(), pgdir, d).ppn < mem.npages
    requires va < WORD && len < WORD
    modifies mem.Footprint()
    ensures mem.Valid() && mem.View() == old(mem.View()) && (r == 0 || r == -E_FAULT)
    ensures 0 < len && va + len + PGSIZE <= WORD ==>
              && (r == 0 <==> forall a: nat :: va <= a < va + len ==> May(mem.View(), pgdir, a, perm))
              && (r != 0 ==>
                    && va <= bad < va + len && !May(mem.View(), pgdir, bad, perm)
                    && forall a: nat :: va <= a < bad ==> May(mem.View(), pgdir, a, perm))
    ensures r == 0 <==> PagesAllowed(mem.View(), pgdir, va, len, perm)
    ensures r != 0 ==> va <= bad && !May(mem.View(), pgdir, bad, perm)
  {
    ghost var m := mem.View();
    if 0 < len && va + len + PGSIZE <= WORD { EndIsRounded(va, len); }
    var addr := RoundDown(va);
    var end := End(va, len);
    bad := 0;
    while addr < end
      invariant mem.Valid() && mem.View() == m && addr % PGSIZE == 0
      invariant forall a: nat :: va <= a < addr ==> May(m, pgdir, a, perm)
      invariant RoundDown(va) <= addr && forall a: nat :: RoundDown(va) <= a < addr ==> May(m, pgdir, a, perm)
      decreases end - addr
    {
      var ok := CheckPage(mem, pgdir, addr, perm);
      if !ok {
        bad := if addr < va then va else addr;
        Refused(m, pgdir, va, len, addr, perm, bad);
        return -E_FAULT, bad;
      }
      WholePages(m, pgdir, addr, perm);
      addr := addr + PGSIZE;
    }
    r := 0;
  }

  /** The test of one page */
  method CheckPage(mem: Memory, pgdir: nat, addr: nat, perm: Perm) returns (ok: bool)
    requires mem.Valid() && Dims(mem.View()) && pgdir < mem.npages && pgdir !in mem.free
    requires forall d: nat :: At(mem.View(), pgdir, d).perm.p ==> At(mem.View(), pgdir, d).ppn < mem.npages
    requires addr < WORD
    modifies mem.Footprint()
    ensures mem.Valid() && mem.View() == old(mem.View()) && ok == May(mem.View(), pgdir, addr, perm)
  {
    var v := addr / PGSIZE;
    ghost var m := mem.View();
    assert At(m, pgdir, v / NPTENTRIES).perm.p ==> At(m, pgdir, v / NPTENTRIES).ppn < mem.npages;
    var pt := mem.PgdirWalk(pgdir, v / NPTENTRIES, false);
    ok := addr < ULIM && pt != NULL && Grants(mem.ram[pt][v % NPTENTRIES].perm, perm);
  }
}
