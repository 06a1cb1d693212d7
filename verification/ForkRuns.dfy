/** Copy-on-write fork refines eager copying, over every run. */
module CowForkRuns {
  import opened CowFork
  import opened CowForkSteps

  lemma StepKeeps(s: State, g: map<Key, Cell>, n: Step)
    requires Good(s, g) && Enabled(s, n)
    ensures Good(Next(s, n), Eager(g, Visible(s, n)))
  {
    match n
    case Write(_, _, _, _) => WriteKeeps(s, g, n);
    case Handler(_, _) => HandlerKeeps(s, g, n);
    case NewPage(_, _, _, _) => NewPageKeeps(s, g, n);
    case DropPage(_, _) => DropPageKeeps(s, g, n);
    case Exit(e) => DieKeeps(s, g, e);
    case Exofork(_, _) => ExoforkKeeps(s, g, n);
    case Fork(_, _) => ForkKeeps(s, g, n);
  }

  /** What the bytes of a page are, for both machines: a new page is 4096 zeros, a store changes its own byte only. */
  lemma PageBytes(page: Page, off: nat, b: nat, i: nat)
    requires |page| == 4096 && off < 4096 && i < 4096
    ensures |ZeroPage()| == 4096 && ZeroPage()[i] == 0
    ensures |Store(page, off, b)| == 4096 && Store(page, off, b)[i] == if i == off then b else page[i]
  {
  }

  /** s' is reached from s by the run, whose steps did `acts` on the eager machine. */
  ghost predicate Reaches(s: State, run: seq<Step>, acts: seq<Act>, s': State)
    requires Inv(s)
    decreases |run|
  {
    if run == [] then s' == s && acts == []
    else
      && Enabled(s, run[0]) && Inv(Next(s, run[0]))
      && acts != [] && acts[0] == Visible(s, run[0])
      && Reaches(Next(s, run[0]), run[1..], acts[1..], s')
  }

  function EagerRun(g: map<Key, Cell>, acts: seq<Act>): map<Key, Cell>
    decreases |acts|
  {
    if acts == [] then g else EagerRun(Eager(g, acts[0]), acts[1..])
  }

  /** For every interleaving of any number of forks with reads, writes and faults, the parent's writes
      between the two mappings of a duppage included, every environment's pages are those of
      the machine that copied them in duppage. */
  lemma {:induction false} CowRefinesEager(s: State, g: map<Key, Cell>, run: seq<Step>, acts: seq<Act>, s': State)
    requires Good(s, g) && Reaches(s, run, acts, s')
    ensures Good(s', EagerRun(g, acts))
    decreases |run|
  {
    if run != [] {
      StepKeeps(s, g, run[0]);
      CowRefinesEager(Next(s, run[0]), Eager(g, acts[0]), run[1..], acts[1..], s');
    }
  }

  /** No state of a run is stuck inside a definition: an enabled step leads to a state in order. */
  lemma EveryStepLeadsOn(s: State, g: map<Key, Cell>, n: Step)
    requires Good(s, g) && Enabled(s, n)
    ensures Reaches(s, [n], [Visible(s, n)], Next(s, n))
  {
    StepKeeps(s, g, n);
  }

  /** What an environment that can run and is outside its handler can see: the same pages, the same bytes,
      and it may write exactly where the eager machine lets it (perhaps after a fault). */
  lemma SeesTheEagerPages(s: State, g: map<Key, Cell>, e: nat, v: nat)
    requires Good(s, g) && InRange(v) && (e in s.pc ==> Active(s.pc[e]))
    ensures var k := Key(e, v);
            && (k in s.pt <==> k in g)
            && (k in s.pt ==> Data(s, s.pt[k].ppn) == g[k].page && ((s.pt[k].w || s.pt[k].cow) <==> g[k].writable))
  {
    assert MatchesAt(s, g, Key(e, v));
  }

  function Rank(stage: Stage): nat {
    match stage case Alloc => 5 case Copy => 4 case Drop => 3 case Move => 2 case Finish => 1
  }

  predicate MappedApart(s: State, a: Key, a': Key, b: Key)
    requires a in s.pt
  {
    b in s.pt && b != a && b != a' ==> s.pt[b].ppn != s.pt[a].ppn
  }

  /** The page at a is mapped nowhere else, but perhaps at a'. */
  ghost predicate OnlyAt(s: State, a: Key, a': Key) {
    a in s.pt && forall b: Key :: MappedApart(s, a, a', b)
  }

  /** A faulting environment's handler only goes forward, whatever the others do: it puts at the faulting page one that
      nobody else maps, and ends with it writable and the program where it was. */
  lemma HandlerGoesForward(s: State, g: map<Key, Cell>, n: Step, e: nat)
    requires Good(s, g) && Enabled(s, n) && e in s.pc && s.pc[e].Fault?
    ensures var s' := Next(s, n); var pc := s.pc[e];
            && e in s'.pc
            && (n.e != e ==> s'.pc[e] == pc)
            && (n.e == e && pc.stage != Finish ==> s'.pc[e].Fault? && s'.pc[e].v == pc.v && s'.pc[e].back == pc.back
                                                   && Rank(s'.pc[e].stage) == Rank(pc.stage) - 1)
            && (n.e == e && pc.stage == Move ==> OnlyAt(s', Key(e, pc.v), Key(e, PFTEMP)))
            && (n.e == e && pc.stage == Finish ==> s'.pc[e] == pc.back && Key(e, pc.v) in s'.pt && s'.pt[Key(e, pc.v)].w)
  {
    assert EnvOk(s, n.e) && EnvOk(s, e);
    if n.e == e && s.pc[e].stage == Move {
      forall b: Key ensures MappedApart(Next(s, n), Key(e, s.pc[e].v), Key(e, PFTEMP), b) { assert Differ(s, Key(e, PFTEMP), b); }
    }
  }

  /** Calls that a parent has still to make in fork, the loop's two per page included */
  function Remaining(pc: Pc): nat {
    match pc
    case Forking(_, pn) => 2 * (if pn < UXSTACK then UXSTACK - pn else 0) + 6
    case Marking(_, pn) => 2 * (if pn < UXSTACK then UXSTACK - pn else 0) + 5
    case Stack(_, turn) => if turn < 5 then 5 - turn else 1
    case _ => 0
  }

  /** A forking parent goes forward with every step of fork, and no step of another environment throws it back: in the end it
      is where it called fork and its child runs, unless the copy of the exception stack faults and it dies. */
  lemma ForkGoesForward(s: State, g: map<Key, Cell>, n: Step, e: nat)
    requires Good(s, g) && Enabled(s, n) && e in s.pc && Remaining(s.pc[e]) > 0
    ensures var s' := Next(s, n);
            && (n.e != e ==> e in s'.pc && s'.pc[e] == s.pc[e])
            && (n.e == e && n.Fork? && e in s'.pc ==> Remaining(s'.pc[e]) < Remaining(s.pc[e]))
            && (n.e == e && n.Fork? && e in s'.pc && Remaining(s'.pc[e]) == 0 ==>
                  s'.pc[e] == Running && s.pc[e].Stack? && s.pc[e].child in s'.pc && s'.pc[s.pc[e].child] == Running)
            && (n.e == e && n.Fork? && e !in s'.pc ==> s.pc[e].Stack? && s.pc[e].turn == 2 && !CanCopyStack(s, e))
  {
    assert EnvOk(s, n.e) && EnvOk(s, e);
  }

  // ----- eager fork is a snapshot -----

  /** An act of some environment other than parent and child */
  predicate Elsewhere(a: Act, parent: nat, child: nat) {
    match a
    case Skip => true
    case Copied(p, c, _) => c != parent && c != child && p != parent && p != child
    case Abandoned(p, c, _) => c != parent && c != child && p != parent && p != child
    case Put(e, _, _, _) => e != parent && e != child
    case Zero(e, _, _) => e != parent && e != child
    case Remove(e, _) => e != parent && e != child
    case End(e) => e != parent && e != child
  }

  /** The parent copies pages lo to hi, in order, while others act and it writes to its `own` pages,
      such as the stack it runs on. */
  predicate Copies(acts: seq<Act>, parent: nat, child: nat, lo: nat, hi: nat, own: set<nat>) {
    if acts == [] then lo == hi
    else if acts[0] == Copied(parent, child, lo) then lo < hi && Copies(acts[1..], parent, child, lo + 1, hi, own)
    else
      && (Elsewhere(acts[0], parent, child) || (acts[0].Put? && acts[0].e == parent && acts[0].v in own))
      && Copies(acts[1..], parent, child, lo, hi, own)
  }

  /** The parent may write its own pages. */
  ghost predicate Owns(g: map<Key, Cell>, parent: nat, own: set<nat>) {
    forall v: nat :: v in own ==> Key(parent, v) in g && g[Key(parent, v)].writable
  }

  predicate SameCell(g: map<Key, Cell>, a: Key, g': map<Key, Cell>, b: Key) {
    (a in g <==> b in g') && (a in g ==> g[a] == g'[b])
  }

  /** One act moves no cell of parent or child, but for the one copied and the parent's own. */
  lemma OneAct(g: map<Key, Cell>, a: Act, parent: nat, child: nat, lo: nat, own: set<nat>)
    requires parent != child && Owns(g, parent, own)
    requires a == Copied(parent, child, lo) || Elsewhere(a, parent, child) || (a.Put? && a.e == parent && a.v in own)
    ensures var g1 := Eager(g, a);
            && Owns(g1, parent, own)
            && (forall v: nat :: v !in own ==> SameCell(g, Key(parent, v), g1, Key(parent, v)))
            && (forall v: nat :: v != lo || a != Copied(parent, child, lo) ==> SameCell(g, Key(child, v), g1, Key(child, v)))
            && (a == Copied(parent, child, lo) && Key(child, lo) !in g ==> SameCell(g, Key(parent, lo), g1, Key(child, lo)))
  {
  }

  /** Whatever the others do, and whatever the parent writes to its own pages meanwhile, the child of an
      eager fork ends up with exactly the parent's other pages at fork time, and the parent keeps them. */
  lemma {:induction false} EagerForkIsASnapshot(g: map<Key, Cell>, acts: seq<Act>, parent: nat, child: nat,
                                                lo: nat, hi: nat, own: set<nat>)
    requires parent != child && Copies(acts, parent, child, lo, hi, own) && Owns(g, parent, own)
    requires forall v: nat :: lo <= v < hi ==> Key(child, v) !in g
    ensures var g' := EagerRun(g, acts);
            && (forall v: nat :: lo <= v < hi && v !in own ==> SameCell(g, Key(parent, v), g', Key(child, v)))
            && (forall v: nat :: !(lo <= v < hi) ==> SameCell(g, Key(child, v), g', Key(child, v)))
            && (forall v: nat :: v !in own ==> SameCell(g, Key(parent, v), g', Key(parent, v)))
    decreases |acts|
  {
    if acts != [] {
      var g1 := Eager(g, acts[0]);
      var lo1 := if acts[0] == Copied(parent, child, lo) then lo + 1 else lo;
      OneAct(g, acts[0], parent, child, lo, own);
      assert forall v: nat :: lo1 <= v < hi ==> SameCell(g, Key(child, v), g1, Key(child, v));
      EagerForkIsASnapshot(g1, acts[1..], parent, child, lo1, hi, own);
      var g' := EagerRun(g1, acts[1..]);
      forall v: nat | lo <= v < hi && v !in own ensures SameCell(g, Key(parent, v), g', Key(child, v)) {
        if v == lo && lo1 != lo { assert SameCell(g1, Key(child, v), g', Key(child, v)); }
        else { assert SameCell(g1, Key(parent, v), g', Key(child, v)) && SameCell(g, Key(parent, v), g1, Key(parent, v)); }
      }
      forall v: nat | !(lo <= v < hi) ensures SameCell(g, Key(child, v), g', Key(child, v)) {
        assert SameCell(g1, Key(child, v), g', Key(child, v)) && SameCell(g, Key(child, v), g1, Key(child, v));
      }
      forall v: nat | v !in own ensures SameCell(g, Key(parent, v), g', Key(parent, v)) {
        assert SameCell(g1, Key(parent, v), g', Key(parent, v)) && SameCell(g, Key(parent, v), g1, Key(parent, v));
      }
    }
  }

  // ----- a write by the parent between the two mappings -----

  /** A writable page that duppage has given to the child and not yet marked: what the parent
      stores in between, as every call does on the stack it runs on, is in the child's page too. The
      copy is made at the second mapping; a machine that copied at the first would agree iff the store changes nothing. */
  lemma WriteBetweenTheMappings(s: State, g: map<Key, Cell>, e: nat, p: nat, off: nat, b: nat)
    requires Good(s, g) && Enabled(s, Fork(e, p)) && s.pc[e].Forking? && InRange(s.pc[e].pn)
    requires Key(e, s.pc[e].pn) in s.pt && s.pt[Key(e, s.pc[e].pn)].w
    ensures var pn, child := s.pc[e].pn, s.pc[e].child; var page := Data(s, s.pt[Key(e, pn)].ppn);
            var s2 := WriteStep(DupFirst(s, e, child, pn), e, pn, off, b);
            && Inv(s2) && s2.pc[e] == Marking(child, pn)
            && var s3 := DupSecond(s2, e, child, pn);
            && Good(s3, Eager(Eager(g, Put(e, pn, off, b)), Copied(e, child, pn)))
            && Data(s3, s3.pt[Key(child, pn)].ppn) == Store(page, off, b)
            && (Matches(s3, Eager(Eager(g, Copied(e, child, pn)), Put(e, pn, off, b))) <==> Store(page, off, b) == page)
  {
    var pn, child := s.pc[e].pn, s.pc[e].child;
    var k, c := Key(e, pn), Key(child, pn);
    var n, w := Fork(e, p), Write(e, pn, off, b);
    assert EnvOk(s, e) && EnvOk(s, child) && MatchesAt(s, g, k);
    var s1 := Next(s, n);
    StepKeeps(s, g, n);
    var s2, g2 := Next(s1, w), Eager(g, Put(e, pn, off, b));
    StepKeeps(s1, g, w);
    var s3, g3 := Next(s2, n), Eager(g2, Copied(e, child, pn));
    StepKeeps(s2, g2, n);
    var page := Data(s, s.pt[k].ppn);
    var early := Eager(Eager(g, Copied(e, child, pn)), Put(e, pn, off, b));
    assert early[c].page == page && g3[c].page == Store(page, off, b);
    if Store(page, off, b) == page {
      assert early == g3;
    } else {
      assert MatchesAt(s3, g3, c) && !MatchesAt(s3, early, c);
    }
  }

  // ----- the copy of the exception stack -----

  /** The copy goes from PFTEMP, where the child's zeroed stack is mapped, to the parent's own exception
      stack: fork clears the parent's, and the child's stays zero whatever the parent's held. */
  lemma ExceptionStackIsCleared(s: State, e: nat, p: nat)
    requires Inv(s) && Enabled(s, Fork(e, p)) && s.pc[e].Stack? && s.pc[e].turn == 0
    requires Key(e, UXSTACK) in s.pt && s.pt[Key(e, UXSTACK)].w
    ensures var child := s.pc[e].child;
            var s1 := StackStep(s, e, p, child, 0);
            && Key(child, UXSTACK) in s1.pt && s1.pt[Key(child, UXSTACK)].w
            && var s3 := StackStep(StackStep(s1, e, p, child, 1), e, p, child, 2);
               && s3.pc[e] == Stack(child, 3) && Key(e, UXSTACK) in s3.pt && Key(child, UXSTACK) in s3.pt
               && Data(s3, s3.pt[Key(e, UXSTACK)].ppn) == ZeroPage() && Data(s3, s3.pt[Key(child, UXSTACK)].ppn) == ZeroPage()
  {
    assert EnvOk(s, e) && EnvOk(s, s.pc[e].child);
  }
}
