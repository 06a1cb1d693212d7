/** Copy-on-write fork (lib/fork.c) as steps of many environments, one system call or
    memory access at a time, beside a machine that copies pages eagerly (user/dumbfork.c).

    The memory is flat: a page table maps an environment's virtual page to a physical
    page and its write and copy-on-write bits; KernelFork ties the calls to the kernel's. */
module CowFork {
  type Page = seq<nat>

  const PGSIZE: nat := 4096
  /** Page numbers */
  const UTEXT: nat := 0x800
  const PFTEMP: nat := 0x7FF
  const UXSTACK: nat := 0xEEBFF

  datatype Key = Key(e: nat, v: nat)
  datatype Mapping = Mapping(ppn: nat, w: bool, cow: bool)

  /** The next thing the page fault handler does */
  datatype Stage = Alloc | Copy | Drop | Move | Finish

  /** Where an environment's program is */
  datatype Pc =
    | Running
    | Unborn(parent: nat)
    | Forking(child: nat, pn: nat)
    | Marking(child: nat, pn: nat)
    | Stack(child: nat, turn: nat)
    | Fault(v: nat, stage: Stage, back: Pc)

  datatype State = State(pt: map<Key, Mapping>, data: map<nat, Page>, pc: map<nat, Pc>)

  function ZeroPage(): Page { seq(PGSIZE, i => 0) }

  function Data(s: State, p: nat): Page {
    if p in s.data then s.data[p] else ZeroPage()
  }

  /** The pages fork copies */
  predicate InRange(v: nat) { UTEXT <= v < UXSTACK }

  predicate Fresh(s: State, p: nat) {
    forall k :: k in s.pt ==> s.pt[k].ppn != p
  }

  // ----- system calls and memory accesses on the flat memory -----

  /** sys_page_alloc of the free page p: the page is zeroed */
  function PageAlloc(s: State, k: Key, w: bool, p: nat): State {
    s.(pt := s.pt[k := Mapping(p, w, false)], data := s.data[p := ZeroPage()])
  }

  function PageMap(s: State, src: Key, dst: Key, w: bool, cow: bool): State
    requires src in s.pt
  {
    s.(pt := s.pt[dst := Mapping(s.pt[src].ppn, w, cow)])
  }

  function PageUnmap(s: State, k: Key): State {
    s.(pt := s.pt - {k})
  }

  function CopyPage(s: State, src: Key, dst: Key): State
    requires src in s.pt && dst in s.pt
  {
    s.(data := s.data[s.pt[dst].ppn := Data(s, s.pt[src].ppn)])
  }

  function Store(page: Page, off: nat, b: nat): Page {
    if off < |page| then page[off := b] else page
  }

  function At(s: State, e: nat, pc: Pc): State {
    s.(pc := s.pc[e := pc])
  }

  function Die(s: State, e: nat): State {
    State(map k | k in s.pt && k.e != e :: s.pt[k], s.data, s.pc - {e})
  }

  // ----- the program steps -----

  datatype Step =
    | Write(e: nat, v: nat, off: nat, b: nat)
    | Handler(e: nat, p: nat)
    | NewPage(e: nat, v: nat, w: bool, p: nat)
    | DropPage(e: nat, v: nat)
    | Exit(e: nat)
    | Exofork(e: nat, child: nat)
    | Fork(e: nat, p: nat)

  /** One step of pgfault, the faulting page being v. What is required is what the system
      calls check; the invariant below shows that they never refuse. */
  function HandlerStep(s: State, e: nat, p: nat, v: nat, stage: Stage, back: Pc): State
    requires stage != Alloc ==> stage == Move || Key(e, v) in s.pt
    requires stage == Copy || stage == Drop || stage == Move ==> Key(e, PFTEMP) in s.pt && s.pt[Key(e, PFTEMP)].w
  {
    var tmp := Key(e, PFTEMP);
    var k := Key(e, v);
    match stage
    case Alloc => At(PageAlloc(s, tmp, true, p), e, Fault(v, Copy, back))
    case Copy => At(CopyPage(s, k, tmp), e, Fault(v, Drop, back))
    case Drop => At(PageUnmap(s, k), e, Fault(v, Move, back))
    case Move => At(PageMap(s, tmp, k, true, false), e, Fault(v, Finish, back))
    case Finish => At(PageUnmap(s, tmp), e, back)
  }

  /** The first page mapping of duppage: the child's page is copy-on-write if ours is writable or so marked. */
  function DupFirst(s: State, e: nat, child: nat, pn: nat): State {
    var k := Key(e, pn);
    if k !in s.pt then At(s, e, Forking(child, pn + 1))
    else
      var cow := s.pt[k].w || s.pt[k].cow;
      var s1 := PageMap(s, k, Key(child, pn), false, cow);
      At(s1, e, if cow then Marking(child, pn) else Forking(child, pn + 1))
  }

  /** The second mapping marks our own page. */
  function DupSecond(s: State, e: nat, child: nat, pn: nat): State
    requires Key(e, pn) in s.pt
  {
    At(PageMap(s, Key(e, pn), Key(e, pn), false, true), e, Forking(child, pn + 1))
  }

  /** The parent can read PFTEMP and write its exception stack. */
  predicate CanCopyStack(s: State, e: nat) {
    Key(e, PFTEMP) in s.pt && Key(e, UXSTACK) in s.pt && s.pt[Key(e, UXSTACK)].w
  }

  /** After the loop: the child's exception stack, then the child is made runnable. If a fault of the
      parent's took PFTEMP away before the copy, the copy faults and the handler panics. */
  function StackStep(s: State, e: nat, p: nat, child: nat, turn: nat): State
    requires turn == 1 ==> Key(child, UXSTACK) in s.pt && s.pt[Key(child, UXSTACK)].w
  {
    if turn == 0 then At(PageAlloc(s, Key(child, UXSTACK), true, p), e, Stack(child, 1))
    else if turn == 1 then At(PageMap(s, Key(child, UXSTACK), Key(e, PFTEMP), true, false), e, Stack(child, 2))
    else if turn == 2 then
      if CanCopyStack(s, e) then At(CopyPage(s, Key(e, PFTEMP), Key(e, UXSTACK)), e, Stack(child, 3)) else Die(s, e)
    else if turn == 3 then At(PageUnmap(s, Key(e, PFTEMP)), e, Stack(child, 4))
    else At(At(s, child, Running), e, Running)
  }

  function ForkStep(s: State, e: nat, p: nat, pc: Pc): State
    requires pc.Marking? ==> Key(e, pc.pn) in s.pt
    requires pc.Stack? && pc.turn == 1 ==> Key(pc.child, UXSTACK) in s.pt && s.pt[Key(pc.child, UXSTACK)].w
  {
    match pc
    case Forking(child, pn) => if InRange(pn) then DupFirst(s, e, child, pn) else At(s, e, Stack(child, 0))
    case Marking(child, pn) => DupSecond(s, e, child, pn)
    case Stack(child, turn) => StackStep(s, e, p, child, turn)
    case _ => s
  }

  predicate Active(pc: Pc) { !pc.Unborn? && !pc.Fault? }

  /** e is between the two mappings of duppage(child, v). */
  predicate Marks(pc: Pc, child: nat, v: nat) {
    pc == Marking(child, v) || (pc.Fault? && pc.back == Marking(child, v))
  }

  /** When a step can be taken: the program is at a point where it may happen, and allocation gives a free page. */
  predicate Enabled(s: State, n: Step) {
    && n.e in s.pc
    && var pc := s.pc[n.e];
       match n
       case Write(e, v, _, _) =>
         Active(pc)
       case Handler(e, p) => pc.Fault? && (pc.stage == Alloc ==> Fresh(s, p))
       case NewPage(e, v, w, p) => pc == Running && Fresh(s, p)
       case DropPage(e, v) => pc == Running
       case Exit(e) => pc == Running
       case Exofork(e, child) => pc == Running && child !in s.pc
       case Fork(e, p) =>
         && (pc.Forking? || pc.Marking? || pc.Stack?)
         && (pc.Stack? && pc.turn == 0 ==> Fresh(s, p))
  }

  /** A write: through a writable mapping it stores, on a copy-on-write page it enters
      the handler, anything else makes the handler panic. */
  function WriteStep(s: State, e: nat, v: nat, off: nat, b: nat): State
    requires e in s.pc
  {
    var k := Key(e, v);
    if k in s.pt && s.pt[k].w then
      s.(data := s.data[s.pt[k].ppn := Store(Data(s, s.pt[k].ppn), off, b)])
    else if k in s.pt && s.pt[k].cow then At(s, e, Fault(v, Alloc, s.pc[e]))
    else Die(s, e)
  }

  function Next(s: State, n: Step): State
    requires Inv(s) && Enabled(s, n)
  {
    assert EnvOk(s, n.e);
    match n
    case Write(e, v, off, b) => WriteStep(s, e, v, off, b)
    case Handler(e, p) => HandlerStep(s, e, p, s.pc[e].v, s.pc[e].stage, s.pc[e].back)
    case NewPage(e, v, w, p) => PageAlloc(s, Key(e, v), w, p)
    case DropPage(e, v) => PageUnmap(s, Key(e, v))
    case Exit(e) => Die(s, e)
    case Exofork(e, child) => At(At(s, child, Unborn(e)), e, Forking(child, UTEXT))
    case Fork(e, p) => ForkStep(s, e, p, s.pc[e])
  }

  // ----- the invariant -----

  /** The page of key a, in the range, may also be mapped by b. */
  predicate MayShare(s: State, a: Key, b: Key)
    requires a in s.pt && b in s.pt && a.e in s.pc && b.e in s.pc
  {
    if !InRange(b.v) then b == Key(a.e, PFTEMP) && s.pc[a.e].Fault? && s.pc[a.e].v == a.v && s.pc[a.e].stage == Finish
    else
      && b.v == a.v
      && (s.pt[a].w ==> !s.pt[b].w && s.pt[b].cow && Marks(s.pc[a.e], b.e, a.v))
      && (s.pt[b].w ==> !s.pt[a].w && s.pt[a].cow && Marks(s.pc[b.e], a.e, a.v))
  }

  predicate SharedOk(s: State, a: Key, b: Key) {
    a in s.pt && b in s.pt && a != b && s.pt[a].ppn == s.pt[b].ppn && InRange(a.v) ==>
      a.e in s.pc && b.e in s.pc && MayShare(s, a, b)
  }

  predicate KeyOk(s: State, k: Key) {
    k in s.pt ==> k.e in s.pc && (s.pt[k].cow ==> InRange(k.v))
  }

  predicate Differ(s: State, k: Key, b: Key)
    requires k in s.pt
  {
    b in s.pt && b != k ==> s.pt[b].ppn != s.pt[k].ppn
  }

  /** Only k maps its page. */
  ghost predicate Solo(s: State, k: Key) {
    k in s.pt && forall b: Key :: Differ(s, k, b)
  }

  ghost predicate FaultOk(s: State, e: nat, v: nat, stage: Stage) {
    var k := Key(e, v);
    var tmp := Key(e, PFTEMP);
    match stage
    case Alloc => k in s.pt && s.pt[k].cow && !s.pt[k].w
    case Copy => k in s.pt && s.pt[k].cow && !s.pt[k].w && Solo(s, tmp) && s.pt[tmp].w
    case Drop => k in s.pt && s.pt[k].cow && !s.pt[k].w && Solo(s, tmp) && s.pt[tmp].w && Data(s, s.pt[tmp].ppn) == Data(s, s.pt[k].ppn)
    case Move => k !in s.pt && Solo(s, tmp) && s.pt[tmp].w
    case Finish => k in s.pt && s.pt[k].w
  }

  ghost predicate ForkOk(s: State, e: nat, pc: Pc) {
    match pc
    case Forking(child, pn) => child in s.pc && s.pc[child] == Unborn(e) && pn >= UTEXT
    case Marking(child, pn) => child in s.pc && s.pc[child] == Unborn(e) && InRange(pn)
    case Stack(child, turn) => child in s.pc && s.pc[child] == Unborn(e) && (turn == 1 ==> Key(child, UXSTACK) in s.pt && s.pt[Key(child, UXSTACK)].w)
    case _ => true
  }

  /** The page still to be marked */
  predicate MarkOk(s: State, e: nat, pc: Pc) {
    pc.Marking? ==> var k := Key(e, pc.pn); k in s.pt && (s.pt[k].w || s.pt[k].cow)
  }

  ghost predicate PcOk(s: State, e: nat, pc: Pc) {
    if pc.Fault? then
      && InRange(pc.v) && Active(pc.back) && FaultOk(s, e, pc.v, pc.stage) && ForkOk(s, e, pc.back)
      && (MarkOk(s, e, pc.back) || (pc.back.Marking? && pc.back.pn == pc.v))
    else ForkOk(s, e, pc) && MarkOk(s, e, pc)
  }

  ghost predicate EnvOk(s: State, e: nat) {
    e in s.pc ==> PcOk(s, e, s.pc[e])
  }

  ghost predicate Inv(s: State) {
    && (forall k: Key :: KeyOk(s, k))
    && (forall a: Key, b: Key :: SharedOk(s, a, b))
    && (forall e: nat :: EnvOk(s, e))
  }

  // ----- the eager machine -----

  /** Every environment has its own copy of each of its pages. */
  datatype Cell = Cell(page: Page, writable: bool)

  datatype Act =
    | Skip
    | Put(e: nat, v: nat, off: nat, b: nat)
    | Zero(e: nat, v: nat, w: bool)
    | Remove(e: nat, v: nat)
    | End(e: nat)
    | Copied(parent: nat, child: nat, v: nat)
    | Abandoned(parent: nat, child: nat, v: nat)

  function Gone(g: map<Key, Cell>, e: nat): map<Key, Cell> {
    map k | k in g && k.e != e :: g[k]
  }

  function Eager(g: map<Key, Cell>, a: Act): map<Key, Cell> {
    match a
    case Skip => g
    case Put(e, v, off, b) =>
      var k := Key(e, v);
      if k in g && g[k].writable then g[k := Cell(Store(g[k].page, off, b), true)] else Gone(g, e)
    case Zero(e, v, w) => g[Key(e, v) := Cell(ZeroPage(), w)]
    case Remove(e, v) => g - {Key(e, v)}
    case End(e) => Gone(g, e)
    case Copied(parent, child, v) =>
      if Key(parent, v) in g then g[Key(child, v) := g[Key(parent, v)]] else g
    case Abandoned(parent, child, v) =>
      if Key(parent, v) in g then Gone(g[Key(child, v) := g[Key(parent, v)]], parent) else Gone(g, parent)
  }

  /** k is the page of an unborn child that still shows what its parent writes: duppage has mapped
      it and not yet marked the parent's own mapping. Nobody can look at it. */
  predicate Pending(s: State, k: Key) {
    && k in s.pt && k.e in s.pc && s.pc[k.e].Unborn?
    && var a := Key(s.pc[k.e].parent, k.v);
       a in s.pt && a.e in s.pc && s.pt[a].w && s.pt[a].ppn == s.pt[k].ppn && Marks(s.pc[a.e], k.e, k.v)
  }

  /** The end of e, in the middle of duppage or not */
  function Ended(s: State, e: nat): Act
    requires e in s.pc
  {
    var pc := s.pc[e];
    if pc.Marking? && Pending(s, Key(pc.child, pc.pn)) then Abandoned(e, pc.child, pc.pn) else End(e)
  }

  /** A fork step on the eager machine: duppage is one copy, made when the child's page stops following
      the parent's: at the second mapping if the page was writable, otherwise at the first. */
  function ForkShows(s: State, e: nat, pc: Pc): Act {
    match pc
    case Forking(child, pn) => if InRange(pn) && !(Key(e, pn) in s.pt && s.pt[Key(e, pn)].w) then Copied(e, child, pn) else Skip
    case Marking(child, pn) => if Pending(s, Key(child, pn)) then Copied(e, child, pn) else Skip
    case Stack(child, turn) => if turn == 2 && !CanCopyStack(s, e) then End(e) else Skip
    case _ => Skip
  }

  /** What a step does on the eager machine: a write that faults on a copy-on-write page and the
      handler's work show nothing. */
  function Visible(s: State, n: Step): Act
    requires Enabled(s, n)
  {
    match n
    case Write(e, v, off, b) =>
      var k := Key(e, v);
      if k in s.pt && !s.pt[k].w && s.pt[k].cow then Skip
      else if k in s.pt && s.pt[k].w then (if InRange(v) then Put(e, v, off, b) else Skip)
      else if InRange(v) && Ended(s, e).End? then Put(e, v, off, b)
      else Ended(s, e)
    case NewPage(e, v, w, p) => if InRange(v) then Zero(e, v, w) else Skip
    case DropPage(e, v) => if InRange(v) then Remove(e, v) else Skip
    case Exit(e) => End(e)
    case Fork(e, _) =>
      ForkShows(s, e, s.pc[e])
    case _ => Skip
  }

  /** The handler of k's environment holds k's page at PFTEMP. */
  predicate Held(s: State, k: Key) {
    k.e in s.pc && s.pc[k.e].Fault? && s.pc[k.e].v == k.v && s.pc[k.e].stage == Move
  }

  function Where(s: State, k: Key): Key {
    if Held(s, k) then Key(k.e, PFTEMP) else k
  }

  predicate MatchesAt(s: State, g: map<Key, Cell>, k: Key) {
    if !InRange(k.v) then k !in g
    else if Pending(s, k) then true
    else
      var h := Where(s, k);
      && (k in g <==> h in s.pt)
      && (k in g ==> g[k] == Cell(Data(s, s.pt[h].ppn), Held(s, k) || s.pt[h].w || s.pt[h].cow))
  }

  /** The eager machine's pages are exactly those the environments have, pending ones aside. */
  ghost predicate Matches(s: State, g: map<Key, Cell>) {
    forall k: Key :: MatchesAt(s, g, k)
  }

  ghost predicate Good(s: State, g: map<Key, Cell>) {
    Inv(s) && Matches(s, g)
  }
}
