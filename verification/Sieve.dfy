/** The concurrent prime sieve (user/primes.c:13-52) over synchronous IPC (lib/ipc.c): a
    generator and a growing chain of filter processes, one step of any one of them at a time. */
module PrimeSieve {
  const NENV: nat := 1024
  const INT_MAX: nat := 0x7FFFFFFF

  /** Where a process is. The generator is process 0; stage j sends to process j + 1. */
  datatype Pc =
    | First       // umain: about to fork the first stage
    | Feed        // umain: ipc_send of i
    | Top         // primeproc: ipc_recv of the stage's prime
    | TopWait
    | Print
    | Grow        // fork of the right neighbour
    | Loop        // ipc_recv of the next number
    | LoopWait
    | Send        // ipc_send of i

  /** `got` is the history of the values delivered to the process. */
  datatype Proc = Proc(pc: Pc, p: nat, i: nat, recving: bool, value: nat, got: seq<nat>)

  datatype State = State(procs: seq<Proc>, printed: seq<nat>)

  const NEWBORN := Proc(Top, 0, 0, false, 0, [])

  function Put(s: State, j: nat, proc: Proc): State
    requires j < |s.procs|
  {
    s.(procs := s.procs[j := proc])
  }

  /** sys_ipc_try_send of v by process j to its right neighbour, which must be receiving */
  function Deliver(s: State, j: nat, v: nat, sender: Proc): State
    requires j + 1 < |s.procs|
  {
    var r := s.procs[j + 1];
    Put(Put(s, j, sender), j + 1, r.(recving := false, value := v, got := r.got + [v]))
  }

  predicate Ready(s: State, j: nat) {
    j + 1 < |s.procs| && s.procs[j + 1].recving
  }

  /** One step of process j. A send to a neighbour that is not receiving is retried later;
      a receiver waits until a value is there. */
  function Next(s: State, j: nat): State
    requires j < |s.procs|
  {
    var me := s.procs[j];
    match me.pc
    case First =>
      if |s.procs| >= NENV then s
      else State(s.procs[j := me.(pc := Feed, i := 2)] + [NEWBORN], s.printed)
    case Feed => if Ready(s, j) && me.i < INT_MAX then Deliver(s, j, me.i, me.(i := me.i + 1)) else s
    case Top => Put(s, j, me.(recving := true, pc := TopWait))
    case TopWait => if me.recving then s else Put(s, j, me.(p := me.value, pc := Print))
    case Print => Put(s, j, me.(pc := Grow)).(printed := s.printed + [me.p])
    case Grow =>
      if |s.procs| >= NENV then s
      else State(s.procs[j := me.(pc := Loop)] + [NEWBORN], s.printed)
    case Loop => Put(s, j, me.(recving := true, pc := LoopWait))
    case LoopWait =>
      if me.recving then s
      else Put(s, j, me.(i := me.value, pc := if me.p != 0 && me.value % me.p != 0 then Send else Loop))
    case Send => if Ready(s, j) then Deliver(s, j, me.i, me.(pc := Loop)) else s
  }

  const START := State([Proc(First, 0, 0, false, 0, [])], [])

  // ----- numbers -----

  predicate Divides(q: nat, x: nat) { q > 0 && x % q == 0 }

  /** x is at least 2 and divisible by none of qs. */
  ghost predicate Survives(x: nat, qs: seq<nat>) {
    x >= 2 && forall i :: 0 <= i < |qs| ==> !Divides(qs[i], x)
  }

  ghost predicate Increasing(s: seq<nat>) {
    forall i, j :: 0 <= i < j < |s| ==> s[i] < s[j]
  }

  /** s lists, in order, exactly the integers from 2 up to its last that qs do not divide. */
  ghost predicate Exactly(s: seq<nat>, qs: seq<nat>) {
    && Increasing(s)
    && (forall i :: 0 <= i < |s| ==> Survives(s[i], qs))
    && (forall x: nat :: s != [] && x <= s[|s| - 1] && Survives(x, qs) ==> x in s)
  }

  ghost predicate Prime(x: nat) {
    x >= 2 && forall d: nat :: 2 <= d < x ==> !Divides(d, x)
  }

  /** qs are the first |qs| primes, in order. */
  ghost predicate FirstPrimes(qs: seq<nat>) {
    && Increasing(qs)
    && (forall i :: 0 <= i < |qs| ==> Prime(qs[i]))
    && (forall x: nat :: qs != [] && x <= qs[|qs| - 1] && Prime(x) ==> x in qs)
  }

  function Filter(s: seq<nat>, p: nat): seq<nat> {
    if s == [] then []
    else
      var x := s[|s| - 1];
      Filter(s[..|s| - 1], p) + if p != 0 && x % p != 0 then [x] else []
  }

  lemma {:induction false} FilterIn(s: seq<nat>, p: nat, x: nat)
    requires p > 0
    ensures x in Filter(s, p) <==> x in s && !Divides(p, x)
  {
    if s != [] {
      FilterIn(s[..|s| - 1], p, x);
      assert s == s[..|s| - 1] + [s[|s| - 1]];
    }
  }

  lemma {:induction false} FilterIncreasing(s: seq<nat>, p: nat)
    requires p > 0 && Increasing(s)
    ensures Increasing(Filter(s, p))
  {
    if s != [] {
      var t := s[..|s| - 1];
      FilterIncreasing(t, p);
      var f := Filter(t, p);
      forall i | 0 <= i < |f| ensures f[i] < s[|s| - 1] {
        FilterIn(t, p, f[i]);
        var k :| 0 <= k < |t| && t[k] == f[i];
      }
    }
  }

  /** A stage passes on exactly what its own prime does not divide either. */
  lemma FilterExactly(s: seq<nat>, qs: seq<nat>, d: nat)
    requires Exactly(s, qs) && 1 <= d <= |s|
    ensures Exactly(Filter(s[1..d], s[0]), qs + [s[0]])
  {
    var p := s[0];
    var t := s[1..d];
    var f := Filter(t, p);
    var all := qs + [p];
    FilterIncreasing(t, p);
    forall i | 0 <= i < |f| ensures Survives(f[i], all) && f[i] <= s[d - 1] {
      FilterIn(t, p, f[i]);
      var k :| 0 <= k < |t| && t[k] == f[i];
      assert s[k + 1] == f[i];
    }
    forall x: nat | f != [] && x <= f[|f| - 1] && Survives(x, all) ensures x in f {
      assert Divides(p, p) && all[|qs|] == p;
      assert forall i :: 0 <= i < |qs| ==> all[i] == qs[i];
      assert x in s;
      var k :| 0 <= k < |s| && s[k] == x;
      assert k != 0 && k < d;
      assert t[k - 1] == x;
      FilterIn(t, p, x);
    }
  }

  lemma DividesTrans(q: nat, a: nat, x: nat)
    requires Divides(q, a) && Divides(a, x)
    ensures Divides(q, x)
  {
    var m, n := a / q, x / a;
    assert a == q * m && x == a * n;
    assert x == q * (m * n);
    MultipleDivides(q, m * n);
  }

  lemma MultipleDivides(q: nat, m: nat)
    requires q > 0
    ensures (q * m) % q == 0
  {
    var k, r := q * m / q, q * m % q;
    assert q * m == q * k + r;
    assert q * (m - k) == r;
    OutOfReach(q, m - k);
  }

  lemma OutOfReach(q: nat, t: int)
    requires q > 0
    ensures t >= 1 ==> q * t >= q
    ensures t <= -1 ==> q * t + q <= 0
  {
  }

  /** Below the first survivor everything has an earlier divisor. */
  lemma Smaller(s: seq<nat>, qs: seq<nat>, x: nat) returns (i: nat)
    requires Exactly(s, qs) && s != [] && 2 <= x < s[0]
    ensures i < |qs| && Divides(qs[i], x)
  {
    assert Survives(x, qs) ==> x in s;
    i :| 0 <= i < |qs| && Divides(qs[i], x);
  }

  /** A prime that divides a prime is that prime. */
  lemma SmallDivisor(q: nat, x: nat)
    requires Divides(q, x) && q >= 2 && Prime(x)
    ensures q == x
  {
  }

  lemma FirstIsPrime(s: seq<nat>, qs: seq<nat>)
    requires Exactly(s, qs) && s != []
    ensures Prime(s[0])
  {
    var p := s[0];
    assert Survives(p, qs);
    forall d: nat | 2 <= d < p ensures !Divides(d, p) {
      var i := Smaller(s, qs, d);
      if Divides(d, p) { DividesTrans(qs[i], d, p); }
    }
  }

  /** The first number that no earlier prime divides is the next prime. */
  lemma NextPrime(s: seq<nat>, qs: seq<nat>)
    requires FirstPrimes(qs) && Exactly(s, qs) && s != []
    ensures FirstPrimes(qs + [s[0]])
  {
    var p := s[0];
    var all := qs + [p];
    FirstIsPrime(s, qs);
    assert Survives(p, qs) && Divides(p, p);
    forall x: nat | x < p && Prime(x) ensures x in qs {
      var i := Smaller(s, qs, x);
      SmallDivisor(qs[i], x);
    }
    assert forall i :: 0 <= i < |all| ==> all[i] == if i < |qs| then qs[i] else p;
    assert qs != [] && p <= qs[|qs| - 1] ==> p in qs;
    forall i | 0 <= i < |qs| ensures qs[i] < p {
      assert qs[i] <= qs[|qs| - 1];
    }
  }
}
