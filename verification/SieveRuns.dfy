/** The sieve prints primes only, all of them, in order, under every schedule. */
module SieveRuns {
  import opened PrimeSieve

  function Range(lo: nat, hi: nat): seq<nat> {
    if hi <= lo then [] else Range(lo, hi - 1) + [hi - 1]
  }

  /** The stage has forked its neighbour. */
  predicate Grown(pc: Pc) { pc == Loop || pc == LoopWait || pc == Send }

  /** How many of its values a stage has dealt with */
  function Done(me: Proc): nat {
    if (me.pc == Send || (me.pc == LoopWait && !me.recving)) && me.got != [] then |me.got| - 1 else |me.got|
  }

  /** A process's own variables */
  predicate OwnOk(me: Proc) {
    match me.pc
    case First => !me.recving
    case Feed => !me.recving && me.i >= 2
    case Top => !me.recving && me.got == []
    case TopWait => if me.recving then me.got == [] else me.got == [me.value]
    case Print => !me.recving && me.got == [me.p]
    case Grow => !me.recving && me.got == [me.p]
    case Loop => !me.recving && |me.got| >= 1 && me.p == me.got[0]
    case LoopWait => |me.got| >= 1 && me.p == me.got[0] && (!me.recving ==> |me.got| >= 2 && me.value == me.got[|me.got| - 1])
    case Send => !me.recving && |me.got| >= 2 && me.p == me.got[0] && me.i == me.got[|me.got| - 1] && !Divides(me.p, me.i)
  }

  /** Where process j stands in the chain: only the last one has no neighbour, and stage j prints the j-th number. */
  predicate PlaceOk(s: State, j: nat) {
    j < |s.procs| ==>
      var me := s.procs[j];
      && OwnOk(me)
      && (j == 0 <==> me.pc == First || me.pc == Feed)
      && (j + 1 < |s.procs| <==> Grown(me.pc) || me.pc == Feed)
      && (me.pc == First ==> s.printed == [])
      && (j > 0 ==> j - 1 <= |s.printed|)
      && (j > 0 && j + 1 == |s.procs| ==> |s.printed| == if me.pc == Grow then j else j - 1)
      && (j > 0 && (me.pc == Grow || Grown(me.pc)) ==> j <= |s.printed| && s.printed[j - 1] == me.p)
  }

  /** What process j passed on is what its neighbour got. */
  predicate LinkOk(s: State, j: nat) {
    j + 1 < |s.procs| ==>
      var me := s.procs[j];
      var next := s.procs[j + 1];
      if me.pc == Feed then next.got == Range(2, me.i)
      else Grown(me.pc) && me.got != [] && 1 <= Done(me) && next.got == Filter(me.got[1..Done(me)], me.p)
  }

  ghost predicate GotOk(s: State, j: nat) {
    0 < j < |s.procs| && j - 1 <= |s.printed| ==> Exactly(s.procs[j].got, s.printed[..j - 1])
  }

  ghost predicate Inv(s: State) {
    && s.procs != []
    && (forall j: nat :: PlaceOk(s, j))
    && (forall j: nat :: LinkOk(s, j))
    && (forall j: nat :: GotOk(s, j))
    && FirstPrimes(s.printed)
  }

  lemma StartOk()
    ensures Inv(START)
  {
  }

  lemma {:induction false} RangeExactly(hi: nat)
    ensures Exactly(Range(2, hi), [])
    ensures |Range(2, hi)| == if hi < 2 then 0 else hi - 2
    ensures forall i :: 0 <= i < |Range(2, hi)| ==> Range(2, hi)[i] == i + 2
  {
    if hi > 2 {
      RangeExactly(hi - 1);
      forall x: nat | 2 <= x < hi ensures x in Range(2, hi) { assert Range(2, hi)[x - 2] == x; }
    }
  }

  /** A stage's prime is at least 2. */
  lemma PrimeIsPositive(s: State, j: nat)
    requires Inv(s) && 0 < j < |s.procs| && s.procs[j].got != []
    ensures s.procs[j].got[0] >= 2
  {
    assert PlaceOk(s, j) && GotOk(s, j);
    assert Survives(s.procs[j].got[0], s.printed[..j - 1]);
  }

  lemma OwnStep(s: State, j: nat)
    requires Inv(s) && j < |s.procs|
    requires var pc := s.procs[j].pc; pc == Top || pc == TopWait || pc == Loop || pc == LoopWait
    ensures PlaceOk(Next(s, j), j) && LinkOk(Next(s, j), j)
  {
    var s' := Next(s, j);
    assert PlaceOk(s, j) && LinkOk(s, j);
    if s.procs[j].got != [] { PrimeIsPositive(s, j); }
    if s' != s && Grown(s.procs[j].pc) { HandledOne(s.procs[j], s'.procs[j]); }
  }

  /** A step that changes process j's own variables only */
  lemma OwnStepKeeps(s: State, j: nat)
    requires Inv(s) && j < |s.procs|
    requires var pc := s.procs[j].pc; pc == Top || pc == TopWait || pc == Loop || pc == LoopWait
    ensures Inv(Next(s, j))
  {
    var s' := Next(s, j);
    OwnStep(s, j);
    forall k: nat ensures PlaceOk(s', k) { assert PlaceOk(s, k); }
    forall k: nat ensures LinkOk(s', k) { assert LinkOk(s, k); }
    forall k: nat ensures GotOk(s', k) { assert GotOk(s, k); }
  }

  /** A number divisible by the stage's prime is dropped; so the passed-on numbers are still the filtered ones. */
  lemma HandledOne(me: Proc, me': Proc)
    requires OwnOk(me) && OwnOk(me') && me'.got == me.got && me'.p == me.p
    requires Grown(me.pc) && Grown(me'.pc) && me.p > 0
    requires Done(me') == Done(me) || (Done(me) == |me.got| - 1 && Done(me') == |me.got| && Divides(me.p, me.got[|me.got| - 1]))
    ensures Filter(me'.got[1..Done(me')], me.p) == Filter(me.got[1..Done(me)], me.p)
  {
    if Done(me') != Done(me) {
      var t := me.got[1..|me.got|];
      assert t[..|t| - 1] == me.got[1..Done(me)];
      assert t[|t| - 1] == me.got[|me.got| - 1];
    }
  }

  // ----- printing -----

  lemma PrintsThePrime(s: State, j: nat)
    requires Inv(s) && j < |s.procs| && s.procs[j].pc == Print
    ensures j > 0 && |s.printed| == j - 1 && FirstPrimes(Next(s, j).printed)
  {
    assert PlaceOk(s, j) && GotOk(s, j);
    assert s.printed[..j - 1] == s.printed;
    NextPrime(s.procs[j].got, s.printed);
  }

  lemma PrintGot(s: State, j: nat, k: nat)
    requires j < |s.procs| && s.procs[j].pc == Print && PlaceOk(s, k) && GotOk(s, k)
    ensures GotOk(Next(s, j), k)
  {
    if 0 < k < |s.procs| { assert Next(s, j).printed[..k - 1] == s.printed[..k - 1]; }
  }

  lemma PrintKeeps(s: State, j: nat)
    requires Inv(s) && j < |s.procs| && s.procs[j].pc == Print
    ensures Inv(Next(s, j))
  {
    var s' := Next(s, j);
    assert PlaceOk(s, j);
    PrintsThePrime(s, j);
    forall k: nat ensures PlaceOk(s', k) { assert PlaceOk(s, k); }
    forall k: nat ensures LinkOk(s', k) { assert LinkOk(s, k); }
    forall k: nat ensures GotOk(s', k) { assert GotOk(s, k) && PlaceOk(s, k); PrintGot(s, j, k); }
  }

  // ----- growing the chain -----

  lemma GrowKeeps(s: State, j: nat)
    requires Inv(s) && j < |s.procs| && (s.procs[j].pc == First || s.procs[j].pc == Grow)
    ensures Inv(Next(s, j))
  {
    var s' := Next(s, j);
    assert PlaceOk(s, j) && LinkOk(s, j);
    if s' != s {
      assert s.procs[j].pc == Grow ==> s.procs[j].got[1..1] == [];
      forall k: nat ensures PlaceOk(s', k) { assert PlaceOk(s, k); }
      forall k: nat ensures LinkOk(s', k) { assert LinkOk(s, k); }
      forall k: nat ensures GotOk(s', k) { assert GotOk(s, k); }
    }
  }

  // ----- sending -----

  /** The generator hands over the next integer. */
  lemma FeedKeeps(s: State, j: nat)
    requires Inv(s) && j < |s.procs| && s.procs[j].pc == Feed && Next(s, j) != s
    ensures Inv(Next(s, j))
  {
    var s' := Next(s, j);
    var i := s.procs[0].i;
    assert PlaceOk(s, j) && LinkOk(s, 0) && PlaceOk(s, 1);
    assert s'.procs[1].got == Range(2, i + 1);
    RangeExactly(i + 1);
    assert s.printed[..0] == [];
    Received(s, 0, i, s.procs[0].(i := i + 1));
  }

  function Given(r: Proc, v: nat): Proc {
    r.(recving := false, value := v, got := r.got + [v])
  }

  /** A receiver's own state after a delivery: it has one more value, not yet dealt with. */
  lemma ReceiverOk(r: Proc, v: nat)
    requires OwnOk(r) && r.recving
    ensures OwnOk(Given(r, v))
    ensures Grown(r.pc) ==> Done(Given(r, v)) == Done(r) && Given(r, v).got[1..Done(r)] == r.got[1..Done(r)]
  {
  }

  lemma ReceiverPlace(s: State, j: nat, v: nat, me: Proc)
    requires Inv(s) && Ready(s, j)
    ensures PlaceOk(Deliver(s, j, v, me), j + 1) && LinkOk(Deliver(s, j, v, me), j + 1)
  {
    assert PlaceOk(s, j + 1) && LinkOk(s, j + 1);
    ReceiverOk(s.procs[j + 1], v);
    assert Deliver(s, j, v, me).procs[j + 1] == Given(s.procs[j + 1], v);
  }

  lemma ReceivedGot(s: State, j: nat, v: nat, me: Proc, k: nat)
    requires Ready(s, j) && k != j + 1 && me.got == s.procs[j].got && GotOk(s, k)
    ensures GotOk(Deliver(s, j, v, me), k)
  {
    if k < |s.procs| { assert Deliver(s, j, v, me).procs[k].got == s.procs[k].got; }
  }

  lemma ReceivedOther(s: State, j: nat, v: nat, me: Proc, k: nat)
    requires Ready(s, j) && k != j + 1 && k != j && me.got == s.procs[j].got && PlaceOk(s, k) && LinkOk(s, k)
    ensures PlaceOk(Deliver(s, j, v, me), k) && LinkOk(Deliver(s, j, v, me), k)
  {
    var s' := Deliver(s, j, v, me);
    if k < |s.procs| { assert s'.procs[k] == s.procs[k]; }
    if k + 1 < |s.procs| { assert s'.procs[k + 1].got == s.procs[k + 1].got; }
  }

  lemma ReceivedAt(s: State, j: nat, v: nat, me: Proc, k: nat)
    requires Inv(s) && Ready(s, j) && me.got == s.procs[j].got
    requires PlaceOk(Deliver(s, j, v, me), j) && LinkOk(Deliver(s, j, v, me), j) && GotOk(Deliver(s, j, v, me), j + 1)
    ensures PlaceOk(Deliver(s, j, v, me), k) && LinkOk(Deliver(s, j, v, me), k) && GotOk(Deliver(s, j, v, me), k)
  {
    if k == j + 1 {
      ReceiverPlace(s, j, v, me);
    } else {
      assert GotOk(s, k);
      ReceivedGot(s, j, v, me, k);
      if k != j {
        assert PlaceOk(s, k) && LinkOk(s, k);
        ReceivedOther(s, j, v, me, k);
      }
    }
  }

  /** A delivery disturbs nobody but sender and receiver. */
  lemma Received(s: State, j: nat, v: nat, me: Proc)
    requires Inv(s) && Ready(s, j) && me.got == s.procs[j].got
    requires PlaceOk(Deliver(s, j, v, me), j) && LinkOk(Deliver(s, j, v, me), j) && GotOk(Deliver(s, j, v, me), j + 1)
    ensures Inv(Deliver(s, j, v, me))
  {
    var s' := Deliver(s, j, v, me);
    forall k: nat ensures PlaceOk(s', k) { ReceivedAt(s, j, v, me, k); }
    forall k: nat ensures LinkOk(s', k) { ReceivedAt(s, j, v, me, k); }
    forall k: nat ensures GotOk(s', k) { ReceivedAt(s, j, v, me, k); }
  }

  /** A stage hands over a number its prime does not divide. */
  lemma SendKeeps(s: State, j: nat)
    requires Inv(s) && j < |s.procs| && s.procs[j].pc == Send && Next(s, j) != s
    ensures Inv(Next(s, j))
  {
    var me := s.procs[j];
    var n := |me.got|;
    var s' := Next(s, j);
    assert PlaceOk(s, j) && LinkOk(s, j) && GotOk(s, j);
    PrimeIsPositive(s, j);
    var t := me.got[1..n];
    assert t[..|t| - 1] == me.got[1..n - 1] && t[|t| - 1] == me.i;
    assert s'.procs[j + 1].got == Filter(t, me.p);
    FilterExactly(me.got, s.printed[..j - 1], n);
    assert s.printed[..j] == s.printed[..j - 1] + [me.p];
    Received(s, j, me.i, me.(pc := Loop));
  }

  lemma StepKeeps(s: State, j: nat)
    requires Inv(s) && j < |s.procs|
    ensures Inv(Next(s, j))
  {
    if Next(s, j) != s {
      match s.procs[j].pc
      case First => GrowKeeps(s, j);
      case Grow => GrowKeeps(s, j);
      case Feed => FeedKeeps(s, j);
      case Send => SendKeeps(s, j);
      case Print => PrintKeeps(s, j);
      case _ => OwnStepKeeps(s, j);
    }
  }

  // ----- every schedule -----

  /** The state after the processes of the schedule take one step each, in that order */
  function Run(s: State, schedule: seq<nat>): State
    decreases |schedule|
  {
    if schedule == [] then s
    else Run(if schedule[0] < |s.procs| then Next(s, schedule[0]) else s, schedule[1..])
  }

  lemma {:induction false} RunKeeps(s: State, schedule: seq<nat>)
    requires Inv(s)
    ensures Inv(Run(s, schedule))
    decreases |schedule|
  {
    if schedule != [] {
      if schedule[0] < |s.procs| { StepKeeps(s, schedule[0]); }
      RunKeeps(if schedule[0] < |s.procs| then Next(s, schedule[0]) else s, schedule[1..]);
    }
  }

  /** Under any schedule the numbers printed are the first primes in increasing order, and
      stage k has received, in order, exactly the integers from 2 up that none of the first k - 1
      primes divides. */
  lemma SieveIsSafe(schedule: seq<nat>, k: nat)
    ensures var s := Run(START, schedule);
            && FirstPrimes(s.printed)
            && (0 < k < |s.procs| ==> k - 1 <= |s.printed| && Exactly(s.procs[k].got, s.printed[..k - 1]))
  {
    StartOk();
    RunKeeps(START, schedule);
    var s := Run(START, schedule);
    assert PlaceOk(s, k) && GotOk(s, k);
  }

  /** No environment is left for another stage, or the generator has reached the largest int. */
  predicate AtLimit(s: State) {
    |s.procs| >= NENV || (s.procs != [] && s.procs[0].i >= INT_MAX)
  }

  /** The rightmost process that is not waiting for its left neighbour, from j on to the left, can go on. */
  lemma {:induction false} Mover(s: State, j: nat) returns (k: nat)
    requires Inv(s) && j < |s.procs| && !AtLimit(s) && (j + 1 < |s.procs| ==> s.procs[j + 1].recving)
    ensures k <= j && Next(s, k) != s
    decreases j
  {
    assert PlaceOk(s, j);
    var pc := s.procs[j].pc;
    if (pc == TopWait || pc == LoopWait) && s.procs[j].recving {
      k := Mover(s, j - 1);
    } else {
      k := j;
      Moves(s, j);
    }
  }

  lemma Moves(s: State, j: nat)
    requires Inv(s) && j < |s.procs| && !AtLimit(s) && (j + 1 < |s.procs| ==> s.procs[j + 1].recving) && PlaceOk(s, j)
    requires (s.procs[j].pc == TopWait || s.procs[j].pc == LoopWait) ==> !s.procs[j].recving
    ensures Next(s, j) != s
  {
    var s' := Next(s, j);
    if s.procs[j].pc == First || s.procs[j].pc == Grow {
      assert |s'.procs| == |s.procs| + 1;
    } else {
      assert s'.procs[j] != s.procs[j];
    }
  }

  /** Under no schedule do the processes come to a stop: short of those limits there is one whose next step does something. */
  lemma NeverStuck(schedule: seq<nat>) returns (k: nat)
    ensures var s := Run(START, schedule); AtLimit(s) || (k < |s.procs| && Next(s, k) != s)
  {
    StartOk();
    RunKeeps(START, schedule);
    var s := Run(START, schedule);
    k := 0;
    if !AtLimit(s) { k := Mover(s, |s.procs| - 1); }
  }
}
