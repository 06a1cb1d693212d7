/** The round-robin scan of sched_yield (kern/sched.c:36-64). */
module Scheduling {
  import opened Kernel

  /** How many slots the scan from `cur` (-1: no current environment) passes before reaching slot e */
  function Distance(cur: int, e: nat): nat
    requires -1 <= cur < NENV && e < NENV
  {
    if cur < e then e - cur - 1 else e + NENV - cur - 1
  }

  /** That many slots after the one behind `cur`, the array being a ring of 1024 */
  lemma DistanceIs(cur: int, e: nat)
    requires -1 <= cur < NENV && e < NENV
    ensures 0 <= Distance(cur, e) < 1024 && (cur + 1 + Distance(cur, e)) % 1024 == e
  {
  }

  /** r is the first runnable slot in cyclic order after cur, if there is any. */
  ghost predicate FirstRunnable(st: seq<Status>, cur: int, r: int)
    requires |st| == NENV && -1 <= cur < NENV
  {
    if r == -1 then forall e: nat :: e < NENV ==> st[e] != RUNNABLE
    else
      && 0 <= r < NENV && st[r] == RUNNABLE
      && forall e: nat :: e < NENV && st[e] == RUNNABLE ==> Distance(cur, r) <= Distance(cur, e)
  }

  /** The loop: at most NENV slots, wrapping at the end of the array */
  method Scan(st: seq<Status>, cur: int) returns (r: int)
    requires |st| == NENV && -1 <= cur < NENV
    ensures FirstRunnable(st, cur, r)
  {
    var index := cur;
    for i := 0 to NENV
      invariant -1 <= index < NENV && (i == 0 ==> index == cur)
      invariant i > 0 ==> index >= 0 && Distance(cur, index) == i - 1
      invariant forall e: nat :: e < NENV && Distance(cur, e) < i ==> st[e] != RUNNABLE
    {
      index := index + 1;
      if index == NENV { index := 0; }
      if st[index] == RUNNABLE { return index; }
      assert forall e: nat :: e < NENV && Distance(cur, e) == i ==> e == index;
    }
    r := -1;
  }

  /** The scan has one possible result. */
  lemma FirstIsUnique(st: seq<Status>, cur: int, r: int, r': int)
    requires |st| == NENV && -1 <= cur < NENV && FirstRunnable(st, cur, r) && FirstRunnable(st, cur, r')
    ensures r == r'
  {
    if r >= 0 && r' >= 0 { assert Distance(cur, r) == Distance(cur, r'); }
  }

  /** A runnable environment that is passed over gets strictly closer to the CPU's turn. */
  lemma PassedOverGetsCloser(st: seq<Status>, cur: nat, r: int, e: nat)
    requires |st| == NENV && cur < NENV && e < NENV && FirstRunnable(st, cur, r)
    requires st[e] == RUNNABLE && r != e
    ensures 0 <= r < NENV && Distance(r, e) < Distance(cur, e)
  {
    assert Distance(cur, r) != Distance(cur, e);
  }

  /** The slots a CPU chooses at consecutive yields, `sts` being the statuses each of them meets;
      its current environment is the one last chosen. */
  ghost predicate Chosen(sts: seq<seq<Status>>, cur: nat, picks: seq<int>)
    requires cur < NENV
  {
    && |picks| == |sts|
    && (sts != [] ==> |sts[0]| == NENV && FirstRunnable(sts[0], cur, picks[0])
                      && 0 <= picks[0] && Chosen(sts[1..], picks[0], picks[1..]))
  }

  /** An environment that is runnable at NENV consecutive yields of a CPU is chosen at one of them. */
  lemma ChosenWithinNenvYields(sts: seq<seq<Status>>, cur: nat, picks: seq<int>, e: nat)
    requires cur < NENV && e < NENV && |sts| == NENV && Chosen(sts, cur, picks)
    requires forall i :: 0 <= i < |sts| ==> |sts[i]| == NENV && sts[i][e] == RUNNABLE
    ensures e in picks
  {
    ChosenWithinDistance(sts, cur, picks, e);
  }

  lemma {:induction false} ChosenWithinDistance(sts: seq<seq<Status>>, cur: nat, picks: seq<int>, e: nat)
    requires cur < NENV && e < NENV && |sts| > Distance(cur, e) && Chosen(sts, cur, picks)
    requires forall i :: 0 <= i < |sts| ==> |sts[i]| == NENV && sts[i][e] == RUNNABLE
    ensures e in picks[..Distance(cur, e) + 1]
    decreases |sts|
  {
    if picks[0] != e {
      var p := picks[0];
      PassedOverGetsCloser(sts[0], cur, p, e);
      ChosenWithinDistance(sts[1..], p, picks[1..], e);
      assert forall i :: 0 <= i < |picks| - 1 ==> picks[1..][i] == picks[i + 1];
      assert e in picks[1..][..Distance(p, e) + 1];
      var i :| 0 <= i < Distance(p, e) + 1 && picks[1..][i] == e;
      assert picks[..Distance(cur, e) + 1][i + 1] == e;
    } else {
      assert picks[..Distance(cur, e) + 1][0] == e;
    }
  }
}
