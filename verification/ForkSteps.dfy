/** Every step of the copy-on-write machine keeps the invariant and the agreement with
    the eager machine. */
module CowForkSteps {
  import opened CowFork

  /** Environment x, its mappings and the pages behind them are as before. */
  ghost predicate SameEnv(s: State, s': State, x: nat) {
    && (x in s.pc <==> x in s'.pc) && (x in s.pc ==> s'.pc[x] == s.pc[x])
    && forall v: nat :: SameKey(s, s', Key(x, v))
  }

  predicate SameKey(s: State, s': State, k: Key) {
    && (k in s.pt <==> k in s'.pt)
    && (k in s.pt ==> s'.pt[k] == s.pt[k] && Data(s', s.pt[k].ppn) == Data(s, s.pt[k].ppn))
  }

  predicate SameStack(s: State, s': State, k: Key) {
    k in s.pt ==> k in s'.pt && s'.pt[k].w == s.pt[k].w
  }

  /** An environment that is untouched stays in order, if its children do and nobody joins its temporary page. */
  lemma SamePc(s: State, s': State, x: nat)
    requires EnvOk(s, x) && SameEnv(s, s', x)
    requires forall c: nat :: c in s.pc && s.pc[c] == Unborn(x) ==> c in s'.pc && s'.pc[c] == s.pc[c] && SameStack(s, s', Key(c, UXSTACK))
    requires x in s.pc && s.pc[x].Fault? && Solo(s, Key(x, PFTEMP)) ==> Solo(s', Key(x, PFTEMP))
    ensures EnvOk(s', x)
  {
    if x in s.pc {
      var pc := s.pc[x];
      assert SameKey(s, s', Key(x, PFTEMP));
      if pc.Fault? {
        assert SameKey(s, s', Key(x, pc.v));
        if pc.back.Marking? { assert SameKey(s, s', Key(x, pc.back.pn)); }
      }
      if pc.Marking? { assert SameKey(s, s', Key(x, pc.pn)); }
    }
  }

  /** A store through a writable mapping reaches no other environment's page. */
  lemma StoredKeeps(s: State, g: map<Key, Cell>, n: Step)
    requires Good(s, g) && Enabled(s, n) && n.Write? && Key(n.e, n.v) in s.pt && s.pt[Key(n.e, n.v)].w
    ensures Good(Next(s, n), Eager(g, Visible(s, n)))
  {
    var k := Key(n.e, n.v);
    var s' := Next(s, n);
    var g' := Eager(g, Visible(s, n));
    forall a: Key ensures KeyOk(s', a) { assert KeyOk(s, a); }
    forall a: Key, b: Key ensures SharedOk(s', a, b) { assert SharedOk(s, a, b); }
    forall x: nat ensures EnvOk(s', x) {
      assert EnvOk(s, x);
      StoredPc(s, n, x);
    }
    forall a: Key ensures MatchesAt(s', g', a) {
      StoredMatches(s, g, n, a);
    }
  }

  lemma StoredPc(s: State, n: Step, x: nat)
    requires Inv(s) && Enabled(s, n) && n.Write? && Key(n.e, n.v) in s.pt && s.pt[Key(n.e, n.v)].w
    ensures EnvOk(Next(s, n), x)
  {
    var k := Key(n.e, n.v);
    var s' := Next(s, n);
    assert EnvOk(s, x) && EnvOk(s, n.e);
    if x in s.pc && s.pc[x].Fault? {
      var tmp := Key(x, PFTEMP);
      var f := Key(x, s.pc[x].v);
      if Solo(s, tmp) { assert Differ(s, tmp, k); forall b: Key ensures Differ(s', tmp, b) { assert Differ(s, tmp, b); } }
      assert SharedOk(s, f, k);
    }
  }

  lemma StoredMatches(s: State, g: map<Key, Cell>, n: Step, a: Key)
    requires Good(s, g) && Enabled(s, n) && n.Write? && Key(n.e, n.v) in s.pt && s.pt[Key(n.e, n.v)].w
    ensures MatchesAt(Next(s, n), Eager(g, Visible(s, n)), a)
  {
    var k := Key(n.e, n.v);
    assert MatchesAt(s, g, a) && MatchesAt(s, g, k);
    assert EnvOk(s, a.e) && EnvOk(s, n.e);
    if InRange(a.v) {
      if Held(s, a) { assert Differ(s, Key(a.e, PFTEMP), k); }
      else { assert SharedOk(s, a, k); }
    }
  }

  /** Two untouched keys still share rightly if no program counter forgets why. */
  lemma SharedStays(s: State, s': State, a: Key, b: Key)
    requires SharedOk(s, a, b) && KeyOk(s', a) && KeyOk(s', b)
    requires a in s'.pt && b in s'.pt ==> a in s.pt && b in s.pt && s'.pt[a] == s.pt[a] && s'.pt[b] == s.pt[b]
    requires a.e in s.pc && a.e in s'.pc && b.v == a.v ==> (Marks(s.pc[a.e], b.e, a.v) ==> Marks(s'.pc[a.e], b.e, a.v))
    requires b.e in s.pc && b.e in s'.pc && b.v == a.v ==> (Marks(s.pc[b.e], a.e, a.v) ==> Marks(s'.pc[b.e], a.e, a.v))
    requires b == Key(a.e, PFTEMP) && a.e in s.pc && a.e in s'.pc ==> (Finishing(s.pc[a.e], a.v) ==> Finishing(s'.pc[a.e], a.v))
    ensures SharedOk(s', a, b)
  {
  }

  predicate Finishing(pc: Pc, v: nat) {
    pc.Fault? && pc.v == v && pc.stage == Finish
  }

  lemma SoloStays(s: State, s': State, k: Key)
    requires Solo(s, k) && k in s'.pt && s'.pt[k].ppn == s.pt[k].ppn
    requires forall b: Key :: b in s'.pt && b != k && s'.pt[b].ppn == s.pt[k].ppn ==> b in s.pt && s.pt[b].ppn == s.pt[k].ppn
    ensures Solo(s', k)
  {
    forall b: Key ensures Differ(s', k, b) { assert Differ(s, k, b); }
  }

  lemma FaultKeeps(s: State, g: map<Key, Cell>, n: Step)
    requires Good(s, g) && Enabled(s, n) && n.Write? && Key(n.e, n.v) in s.pt && !s.pt[Key(n.e, n.v)].w
    requires s.pt[Key(n.e, n.v)].cow
    ensures Good(Next(s, n), Eager(g, Visible(s, n)))
  {
    var s' := Next(s, n);
    assert KeyOk(s, Key(n.e, n.v));
    forall a: Key ensures KeyOk(s', a) { assert KeyOk(s, a); }
    forall a: Key, b: Key ensures SharedOk(s', a, b) { assert SharedOk(s, a, b); SharedStays(s, s', a, b); }
    forall x: nat ensures EnvOk(s', x) {
      assert EnvOk(s, x);
      if x in s.pc && Solo(s, Key(x, PFTEMP)) { SoloStays(s, s', Key(x, PFTEMP)); }
    }
    forall a: Key ensures MatchesAt(s', g, a) { assert MatchesAt(s, g, a); }
  }

  /** A page that is not pending stays so when e ends, and e's pending page is settled. */
  lemma DieMatches(s: State, g: map<Key, Cell>, e: nat, a: Key)
    requires Good(s, g) && e in s.pc && Active(s.pc[e])
    ensures MatchesAt(Die(s, e), Eager(g, Ended(s, e)), a)
  {
    var pc := s.pc[e];
    assert MatchesAt(s, g, a) && KeyOk(s, a) && KeyOk(s, Key(a.e, PFTEMP)) && EnvOk(s, e);
    if pc.Marking? {
      assert MatchesAt(s, g, Key(e, pc.pn)) && SharedOk(s, Key(e, pc.pn), Key(pc.child, pc.pn));
    }
  }

  lemma DieKeeps(s: State, g: map<Key, Cell>, e: nat)
    requires Good(s, g) && e in s.pc && Active(s.pc[e])
    ensures Good(Die(s, e), Eager(g, Ended(s, e)))
  {
    var s' := Die(s, e);
    forall a: Key ensures KeyOk(s', a) { assert KeyOk(s, a); }
    forall a: Key, b: Key ensures SharedOk(s', a, b) {
      assert SharedOk(s, a, b) && KeyOk(s, a) && KeyOk(s, b);
      SharedStays(s, s', a, b);
    }
    forall x: nat ensures EnvOk(s', x) {
      assert EnvOk(s, x);
      if x in s'.pc {
        forall v: nat ensures SameKey(s, s', Key(x, v)) {}
        if Solo(s, Key(x, PFTEMP)) { SoloStays(s, s', Key(x, PFTEMP)); }
        SamePc(s, s', x);
      }
    }
    forall a: Key ensures MatchesAt(s', Eager(g, Ended(s, e)), a) { DieMatches(s, g, e, a); }
  }

  lemma WriteKeeps(s: State, g: map<Key, Cell>, n: Step)
    requires Good(s, g) && Enabled(s, n) && n.Write?
    ensures Good(Next(s, n), Eager(g, Visible(s, n)))
  {
    var k := Key(n.e, n.v);
    assert MatchesAt(s, g, k) && KeyOk(s, k);
    if k in s.pt && s.pt[k].w { StoredKeeps(s, g, n); }
    else if k in s.pt && s.pt[k].cow { FaultKeeps(s, g, n); }
    else { DieKeeps(s, g, n.e); }
  }

  // ----- the page fault handler -----

  lemma AllocKeeps(s: State, g: map<Key, Cell>, n: Step)
    requires Good(s, g) && Enabled(s, n) && n.Handler? && s.pc[n.e].stage == Alloc
    ensures Good(Next(s, n), g)
  {
    var s' := Next(s, n);
    var tmp := Key(n.e, PFTEMP);
    assert EnvOk(s, n.e);
    forall a: Key ensures KeyOk(s', a) { assert KeyOk(s, a); }
    forall a: Key, b: Key ensures SharedOk(s', a, b) { assert SharedOk(s, a, b); if a != tmp && b != tmp { SharedStays(s, s', a, b); } }
    forall b: Key ensures Differ(s', tmp, b) {}
    forall x: nat | x != n.e ensures EnvOk(s', x) {
      assert EnvOk(s, x);
      forall v: nat ensures SameKey(s, s', Key(x, v)) {}
      if Solo(s, Key(x, PFTEMP)) { SoloStays(s, s', Key(x, PFTEMP)); }
      SamePc(s, s', x);
    }
    forall a: Key ensures MatchesAt(s', g, a) { assert MatchesAt(s, g, a); }
  }

  lemma CopyKeeps(s: State, g: map<Key, Cell>, n: Step)
    requires Good(s, g) && Enabled(s, n) && n.Handler? && s.pc[n.e].stage == Copy
    ensures Good(Next(s, n), g)
  {
    var s' := Next(s, n);
    var tmp := Key(n.e, PFTEMP);
    assert EnvOk(s, n.e);
    assert Differ(s, tmp, Key(n.e, s.pc[n.e].v));
    forall a: Key ensures KeyOk(s', a) { assert KeyOk(s, a); }
    forall a: Key, b: Key ensures SharedOk(s', a, b) { assert SharedOk(s, a, b); SharedStays(s, s', a, b); }
    forall b: Key ensures Differ(s', tmp, b) { assert Differ(s, tmp, b); }
    forall x: nat | x != n.e ensures EnvOk(s', x) {
      assert EnvOk(s, x);
      forall v: nat ensures SameKey(s, s', Key(x, v)) { assert Differ(s, tmp, Key(x, v)); }
      if Solo(s, Key(x, PFTEMP)) { SoloStays(s, s', Key(x, PFTEMP)); }
      SamePc(s, s', x);
    }
    forall a: Key ensures MatchesAt(s', g, a) { assert MatchesAt(s, g, a) && Differ(s, tmp, Where(s, a)); }
  }

  lemma DropKeeps(s: State, g: map<Key, Cell>, n: Step)
    requires Good(s, g) && Enabled(s, n) && n.Handler? && s.pc[n.e].stage == Drop
    ensures Good(Next(s, n), g)
  {
    var s' := Next(s, n);
    var tmp := Key(n.e, PFTEMP);
    assert EnvOk(s, n.e);
    forall a: Key ensures KeyOk(s', a) { assert KeyOk(s, a); }
    forall a: Key, b: Key ensures SharedOk(s', a, b) { assert SharedOk(s, a, b); SharedStays(s, s', a, b); }
    SoloStays(s, s', tmp);
    forall x: nat | x != n.e ensures EnvOk(s', x) {
      assert EnvOk(s, x);
      forall v: nat ensures SameKey(s, s', Key(x, v)) {}
      if Solo(s, Key(x, PFTEMP)) { SoloStays(s, s', Key(x, PFTEMP)); }
      SamePc(s, s', x);
    }
    forall a: Key ensures MatchesAt(s', g, a) { assert MatchesAt(s, g, a); }
  }

  lemma MoveKeeps(s: State, g: map<Key, Cell>, n: Step)
    requires Good(s, g) && Enabled(s, n) && n.Handler? && s.pc[n.e].stage == Move
    ensures Good(Next(s, n), g)
  {
    var s' := Next(s, n);
    var tmp := Key(n.e, PFTEMP);
    var k := Key(n.e, s.pc[n.e].v);
    assert EnvOk(s, n.e);
    forall a: Key ensures KeyOk(s', a) { assert KeyOk(s, a); }
    forall a: Key, b: Key ensures SharedOk(s', a, b) {
      assert SharedOk(s, a, b);
      assert Differ(s, tmp, a) && Differ(s, tmp, b);
      if a != k && b != k { SharedStays(s, s', a, b); }
    }
    forall x: nat | x != n.e ensures EnvOk(s', x) {
      assert EnvOk(s, x);
      forall v: nat ensures SameKey(s, s', Key(x, v)) {}
      assert Differ(s, tmp, Key(x, PFTEMP));
      if Solo(s, Key(x, PFTEMP)) { SoloStays(s, s', Key(x, PFTEMP)); }
      SamePc(s, s', x);
    }
    forall a: Key ensures MatchesAt(s', g, a) { assert MatchesAt(s, g, a); }
  }

  lemma FinishKeeps(s: State, g: map<Key, Cell>, n: Step)
    requires Good(s, g) && Enabled(s, n) && n.Handler? && s.pc[n.e].stage == Finish
    ensures Good(Next(s, n), g)
  {
    var s' := Next(s, n);
    var tmp := Key(n.e, PFTEMP);
    assert EnvOk(s, n.e);
    forall a: Key ensures KeyOk(s', a) { assert KeyOk(s, a); }
    forall a: Key, b: Key ensures SharedOk(s', a, b) {
      assert SharedOk(s, a, b) && SharedOk(s, b, a) && KeyOk(s, a) && KeyOk(s, b);
    }
    forall x: nat | x != n.e ensures EnvOk(s', x) {
      assert EnvOk(s, x);
      forall v: nat ensures SameKey(s, s', Key(x, v)) {}
      if Solo(s, Key(x, PFTEMP)) { SoloStays(s, s', Key(x, PFTEMP)); }
      SamePc(s, s', x);
    }
    forall a: Key ensures MatchesAt(s', g, a) { assert MatchesAt(s, g, a); }
  }

  lemma HandlerKeeps(s: State, g: map<Key, Cell>, n: Step)
    requires Good(s, g) && Enabled(s, n) && n.Handler?
    ensures Good(Next(s, n), Eager(g, Visible(s, n)))
  {
    match s.pc[n.e].stage
    case Alloc => AllocKeeps(s, g, n);
    case Copy => CopyKeeps(s, g, n);
    case Drop => DropKeeps(s, g, n);
    case Move => MoveKeeps(s, g, n);
    case Finish => FinishKeeps(s, g, n);
  }

  // ----- pages of one's own, and new environments -----

  lemma NewPageKeeps(s: State, g: map<Key, Cell>, n: Step)
    requires Good(s, g) && Enabled(s, n) && n.NewPage?
    ensures Good(Next(s, n), Eager(g, Visible(s, n)))
  {
    var s' := Next(s, n);
    var k := Key(n.e, n.v);
    forall a: Key ensures KeyOk(s', a) { assert KeyOk(s, a); }
    forall a: Key, b: Key ensures SharedOk(s', a, b) { assert SharedOk(s, a, b); if a != k && b != k { SharedStays(s, s', a, b); } }
    forall x: nat | x != n.e ensures EnvOk(s', x) {
      assert EnvOk(s, x);
      forall v: nat ensures SameKey(s, s', Key(x, v)) {}
      if Solo(s, Key(x, PFTEMP)) { SoloStays(s, s', Key(x, PFTEMP)); }
      SamePc(s, s', x);
    }
    forall a: Key ensures MatchesAt(s', Eager(g, Visible(s, n)), a) { assert MatchesAt(s, g, a); }
  }

  lemma DropPageKeeps(s: State, g: map<Key, Cell>, n: Step)
    requires Good(s, g) && Enabled(s, n) && n.DropPage?
    ensures Good(Next(s, n), Eager(g, Visible(s, n)))
  {
    var s' := Next(s, n);
    forall a: Key ensures KeyOk(s', a) { assert KeyOk(s, a); }
    forall a: Key, b: Key ensures SharedOk(s', a, b) { assert SharedOk(s, a, b); SharedStays(s, s', a, b); }
    forall x: nat | x != n.e ensures EnvOk(s', x) {
      assert EnvOk(s, x);
      forall v: nat ensures SameKey(s, s', Key(x, v)) {}
      if Solo(s, Key(x, PFTEMP)) { SoloStays(s, s', Key(x, PFTEMP)); }
      SamePc(s, s', x);
    }
    forall a: Key ensures MatchesAt(s', Eager(g, Visible(s, n)), a) { assert MatchesAt(s, g, a); }
  }

  lemma ExoforkKeeps(s: State, g: map<Key, Cell>, n: Step)
    requires Good(s, g) && Enabled(s, n) && n.Exofork?
    ensures Good(Next(s, n), g)
  {
    var s' := Next(s, n);
    forall a: Key ensures KeyOk(s', a) { assert KeyOk(s, a); }
    forall a: Key, b: Key ensures SharedOk(s', a, b) { assert SharedOk(s, a, b) && KeyOk(s, a) && KeyOk(s, b); SharedStays(s, s', a, b); }
    forall x: nat ensures EnvOk(s', x) {
      assert EnvOk(s, x);
      if x != n.e && x != n.child {
        forall v: nat ensures SameKey(s, s', Key(x, v)) {}
        if Solo(s, Key(x, PFTEMP)) { SoloStays(s, s', Key(x, PFTEMP)); }
        SamePc(s, s', x);
      }
    }
    forall a: Key ensures MatchesAt(s', g, a) { assert MatchesAt(s, g, a); }
  }

  // ----- fork -----

  lemma DupFirstShared(s: State, g: map<Key, Cell>, n: Step, a: Key, b: Key)
    requires Good(s, g) && Enabled(s, n) && n.Fork? && s.pc[n.e].Forking? && InRange(s.pc[n.e].pn)
    requires KeyOk(Next(s, n), a) && KeyOk(Next(s, n), b)
    ensures SharedOk(Next(s, n), a, b)
  {
    var k := Key(n.e, s.pc[n.e].pn);
    var c := Key(s.pc[n.e].child, s.pc[n.e].pn);
    if (a != c && b != c) || k !in s.pt {
      assert EnvOk(s, n.e) && EnvOk(s, a.e) && EnvOk(s, b.e);
      assert SharedOk(s, a, b);
      SharedStays(s, Next(s, n), a, b);
    } else {
      ChildShares(s, g, n, a, b);
    }
  }

  /** The child's page c shares with what the parent's page k shared with. */
  lemma ChildShares(s: State, g: map<Key, Cell>, n: Step, a: Key, b: Key)
    requires Good(s, g) && Enabled(s, n) && n.Fork? && s.pc[n.e].Forking? && InRange(s.pc[n.e].pn)
    requires var c := Key(s.pc[n.e].child, s.pc[n.e].pn); (a == c || b == c) && Key(n.e, s.pc[n.e].pn) in s.pt
    requires KeyOk(Next(s, n), a) && KeyOk(Next(s, n), b)
    ensures SharedOk(Next(s, n), a, b)
  {
    var k := Key(n.e, s.pc[n.e].pn);
    var other := if b == Key(s.pc[n.e].child, s.pc[n.e].pn) then a else b;
    assert EnvOk(s, n.e) && EnvOk(s, other.e);
    assert SharedOk(s, other, k) && SharedOk(s, k, other);
  }

  lemma DupFirstEnv(s: State, g: map<Key, Cell>, n: Step, x: nat)
    requires Good(s, g) && Enabled(s, n) && n.Fork? && s.pc[n.e].Forking? && InRange(s.pc[n.e].pn)
    ensures EnvOk(Next(s, n), x)
  {
    var s' := Next(s, n);
    var k := Key(n.e, s.pc[n.e].pn);
    assert EnvOk(s, n.e) && EnvOk(s, x);
    if x != n.e && x != s.pc[n.e].child {
      forall v: nat ensures SameKey(s, s', Key(x, v)) {}
      if Solo(s, Key(x, PFTEMP)) {
        assert Differ(s, Key(x, PFTEMP), k);
        SoloStays(s, s', Key(x, PFTEMP));
      }
      SamePc(s, s', x);
    }
  }

  lemma DupFirstKeeps(s: State, g: map<Key, Cell>, n: Step)
    requires Good(s, g) && Enabled(s, n) && n.Fork? && s.pc[n.e].Forking? && InRange(s.pc[n.e].pn)
    ensures Good(Next(s, n), Eager(g, Visible(s, n)))
  {
    var s' := Next(s, n);
    var k := Key(n.e, s.pc[n.e].pn);
    assert EnvOk(s, n.e);
    assert MatchesAt(s, g, k);
    forall a: Key ensures KeyOk(s', a) { assert KeyOk(s, a); }
    forall a: Key, b: Key ensures SharedOk(s', a, b) { DupFirstShared(s, g, n, a, b); }
    forall x: nat ensures EnvOk(s', x) { DupFirstEnv(s, g, n, x); }
    forall a: Key ensures MatchesAt(s', Eager(g, Visible(s, n)), a) { assert MatchesAt(s, g, a); }
  }

  lemma DupSecondMatches(s: State, g: map<Key, Cell>, n: Step, a: Key)
    requires Good(s, g) && Enabled(s, n) && n.Fork? && s.pc[n.e].Marking?
    ensures MatchesAt(Next(s, n), Eager(g, Visible(s, n)), a)
  {
    var k, c := Key(n.e, s.pc[n.e].pn), Key(s.pc[n.e].child, s.pc[n.e].pn);
    assert MatchesAt(s, g, a) && MatchesAt(s, g, k) && SharedOk(s, k, c) && EnvOk(s, n.e);
  }

  lemma DupSecondKeeps(s: State, g: map<Key, Cell>, n: Step)
    requires Good(s, g) && Enabled(s, n) && n.Fork? && s.pc[n.e].Marking?
    ensures Good(Next(s, n), Eager(g, Visible(s, n)))
  {
    var s' := Next(s, n);
    var k := Key(n.e, s.pc[n.e].pn);
    assert EnvOk(s, n.e);
    forall a: Key ensures KeyOk(s', a) { assert KeyOk(s, a); }
    forall a: Key, b: Key ensures SharedOk(s', a, b) {
      assert SharedOk(s, a, b);
      if a != k && b != k { SharedStays(s, s', a, b); }
    }
    forall x: nat | x != n.e ensures EnvOk(s', x) {
      assert EnvOk(s, x);
      forall v: nat ensures SameKey(s, s', Key(x, v)) {}
      if Solo(s, Key(x, PFTEMP)) { SoloStays(s, s', Key(x, PFTEMP)); }
      SamePc(s, s', x);
    }
    forall a: Key ensures MatchesAt(s', Eager(g, Visible(s, n)), a) { DupSecondMatches(s, g, n, a); }
  }

  /** The exception-stack part of fork goes on, rather than end in a panic. */
  predicate Stays(s: State, e: nat)
    requires e in s.pc && s.pc[e].Stack?
  {
    s.pc[e].turn != 2 || CanCopyStack(s, e)
  }

  lemma StackShared(s: State, g: map<Key, Cell>, n: Step, a: Key, b: Key)
    requires Good(s, g) && Enabled(s, n) && n.Fork? && s.pc[n.e].Stack? && Stays(s, n.e)
    requires KeyOk(Next(s, n), a) && KeyOk(Next(s, n), b)
    ensures SharedOk(Next(s, n), a, b)
  {
    assert EnvOk(s, n.e);
    assert SharedOk(s, a, b) && SharedOk(s, a, Key(s.pc[n.e].child, UXSTACK));
    var t := if s.pc[n.e].turn == 0 then Key(s.pc[n.e].child, UXSTACK) else Key(n.e, PFTEMP);
    if a != t && b != t { SharedStays(s, Next(s, n), a, b); }
  }

  lemma StackEnv(s: State, g: map<Key, Cell>, n: Step, x: nat)
    requires Good(s, g) && Enabled(s, n) && n.Fork? && s.pc[n.e].Stack? && Stays(s, n.e) && s.pc[n.e].turn != 2
    ensures EnvOk(Next(s, n), x)
  {
    var s' := Next(s, n);
    var child := s.pc[n.e].child;
    assert EnvOk(s, n.e) && EnvOk(s, child);
    if x != n.e && x != child {
      assert EnvOk(s, x);
      forall v: nat ensures SameKey(s, s', Key(x, v)) { StackMapsElsewhere(s, g, n, Key(x, v)); }
      StackSolo(s, g, n, Key(x, PFTEMP));
      SamePc(s, s', x);
    }
  }

  lemma StackSolo(s: State, g: map<Key, Cell>, n: Step, tmp: Key)
    requires Good(s, g) && Enabled(s, n) && n.Fork? && s.pc[n.e].Stack? && Stays(s, n.e) && s.pc[n.e].turn != 2
    requires tmp.e != n.e && tmp.e != s.pc[n.e].child
    ensures Solo(s, tmp) ==> Solo(Next(s, n), tmp)
  {
    assert EnvOk(s, n.e);
    if Solo(s, tmp) {
      assert Differ(s, tmp, Key(s.pc[n.e].child, UXSTACK));
      SoloStays(s, Next(s, n), tmp);
    }
  }

  /** Copying onto the exception stack disturbs no handler. */
  lemma StackCopyEnv(s: State, g: map<Key, Cell>, n: Step, x: nat)
    requires Good(s, g) && Enabled(s, n) && n.Fork? && s.pc[n.e].Stack? && Stays(s, n.e) && s.pc[n.e].turn == 2
    ensures EnvOk(Next(s, n), x)
  {
    var s' := Next(s, n);
    var stack := Key(n.e, UXSTACK);
    assert EnvOk(s, n.e) && EnvOk(s, x);
    if x != n.e && x in s.pc && s.pc[x].Fault? {
      var tmp := Key(x, PFTEMP);
      if Solo(s, tmp) {
        assert Differ(s, tmp, stack);
        SoloStays(s, s', tmp);
      }
      assert SharedOk(s, Key(x, s.pc[x].v), stack);
    }
  }

  lemma StackMatches(s: State, g: map<Key, Cell>, n: Step, a: Key)
    requires Good(s, g) && Enabled(s, n) && n.Fork? && s.pc[n.e].Stack? && Stays(s, n.e) && s.pc[n.e].turn != 2
    ensures MatchesAt(Next(s, n), g, a)
  {
    assert MatchesAt(s, g, a) && EnvOk(s, a.e) && EnvOk(s, n.e);
    if InRange(a.v) {
      StackPending(s, g, n, a);
      assert Held(Next(s, n), a) <==> Held(s, a);
      StackMapsElsewhere(s, g, n, Where(s, a));
    }
  }

  lemma StackMapsElsewhere(s: State, g: map<Key, Cell>, n: Step, h: Key)
    requires Good(s, g) && Enabled(s, n) && n.Fork? && s.pc[n.e].Stack? && Stays(s, n.e) && s.pc[n.e].turn != 2
    requires h != Key(s.pc[n.e].child, UXSTACK) && h != Key(n.e, PFTEMP)
    ensures SameKey(s, Next(s, n), h)
  {
    assert EnvOk(s, n.e);
  }

  lemma StackPending(s: State, g: map<Key, Cell>, n: Step, a: Key)
    requires Good(s, g) && Enabled(s, n) && n.Fork? && s.pc[n.e].Stack? && Stays(s, n.e) && s.pc[n.e].turn != 2 && InRange(a.v)
    ensures Pending(Next(s, n), a) <==> Pending(s, a)
  {
    assert EnvOk(s, a.e) && EnvOk(s, n.e);
  }

  lemma StackCopyMatches(s: State, g: map<Key, Cell>, n: Step, a: Key)
    requires Good(s, g) && Enabled(s, n) && n.Fork? && s.pc[n.e].Stack? && Stays(s, n.e) && s.pc[n.e].turn == 2
    ensures MatchesAt(Next(s, n), g, a)
  {
    assert MatchesAt(s, g, a) && EnvOk(s, a.e) && EnvOk(s, n.e);
    assert SharedOk(s, a, Key(n.e, UXSTACK));
    if Held(s, a) { assert Differ(s, Key(a.e, PFTEMP), Key(n.e, UXSTACK)); }
  }

  /** The exception stacks are outside the range and shared with nothing in it. */
  lemma StackKeeps(s: State, g: map<Key, Cell>, n: Step)
    requires Good(s, g) && Enabled(s, n) && n.Fork? && s.pc[n.e].Stack? && Stays(s, n.e)
    ensures Good(Next(s, n), g)
  {
    var s' := Next(s, n);
    assert EnvOk(s, n.e);
    forall a: Key ensures KeyOk(s', a) { assert KeyOk(s, a); }
    forall a: Key, b: Key ensures SharedOk(s', a, b) { StackShared(s, g, n, a, b); }
    forall x: nat ensures EnvOk(s', x) { if s.pc[n.e].turn == 2 { StackCopyEnv(s, g, n, x); } else { StackEnv(s, g, n, x); } }
    forall a: Key ensures MatchesAt(s', g, a) { if s.pc[n.e].turn == 2 { StackCopyMatches(s, g, n, a); } else { StackMatches(s, g, n, a); } }
  }

  lemma ForkKeeps(s: State, g: map<Key, Cell>, n: Step)
    requires Good(s, g) && Enabled(s, n) && n.Fork?
    ensures Good(Next(s, n), Eager(g, Visible(s, n)))
  {
    if s.pc[n.e].Marking? { DupSecondKeeps(s, g, n); }
    else if s.pc[n.e].Stack? { if Stays(s, n.e) { StackKeeps(s, g, n); } else { DieKeeps(s, g, n.e); } }
    else if InRange(s.pc[n.e].pn) { DupFirstKeeps(s, g, n); }
    else { LoopEndKeeps(s, g, n); }
  }

  lemma LoopEndKeeps(s: State, g: map<Key, Cell>, n: Step)
    requires Good(s, g) && Enabled(s, n) && n.Fork? && s.pc[n.e].Forking? && !InRange(s.pc[n.e].pn)
    ensures Good(Next(s, n), g)
  {
    var s' := Next(s, n);
    assert EnvOk(s, n.e);
    forall a: Key ensures KeyOk(s', a) { assert KeyOk(s, a); }
    forall a: Key, b: Key ensures SharedOk(s', a, b) { assert SharedOk(s, a, b); SharedStays(s, s', a, b); }
    forall x: nat | x != n.e ensures EnvOk(s', x) {
      assert EnvOk(s, x);
      forall v: nat ensures SameKey(s, s', Key(x, v)) {}
      if Solo(s, Key(x, PFTEMP)) { SoloStays(s, s', Key(x, PFTEMP)); }
      SamePc(s, s', x);
    }
    forall a: Key ensures MatchesAt(s', g, a) { assert MatchesAt(s, g, a); }
  }
}
