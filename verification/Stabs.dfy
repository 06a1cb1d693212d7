/** stab_binsearch (kern/kdebug.c:59-103): binary search over debug entries of mixed types. */
module StabSearch {
  const WORD: nat := 0x1_0000_0000

  datatype Stab = Stab(kind: nat, value: nat)

  /** Entry i lies in the range and is of the wanted type. */
  predicate Wanted(stabs: seq<Stab>, lo: int, hi: int, kind: nat, i: int)
    requires 0 <= lo && hi < |stabs|
  {
    lo <= i <= hi && stabs[i].kind == kind
  }

  ghost predicate Increasing(stabs: seq<Stab>, lo: int, hi: int, kind: nat)
    requires 0 <= lo && hi < |stabs|
  {
    forall i, j :: Wanted(stabs, lo, hi, kind, i) && Wanted(stabs, lo, hi, kind, j) && i < j ==> stabs[i].value < stabs[j].value
  }

  /** If addr itself is the value of a wanted entry, addr + 1 is not, and does not overflow. */
  ghost predicate NoNeighbour(stabs: seq<Stab>, lo: int, hi: int, kind: nat, addr: nat)
    requires 0 <= lo && hi < |stabs|
  {
    forall i, j :: Wanted(stabs, lo, hi, kind, i) && Wanted(stabs, lo, hi, kind, j) && stabs[i].value == addr ==>
      addr + 1 < WORD && stabs[j].value != addr + 1
  }

  datatype Match = NoMatch | Match(m: int, r: int)

  /** The halving search for addr in [l, r]: the entry that equals it, and the right end when it is compared */
  function FirstMatch(stabs: seq<Stab>, l: int, r: int, kind: nat, addr: nat): Match
    requires 0 <= l && r < |stabs|
    decreases r - l + 1
  {
    if l > r then NoMatch
    else
      var t := (l + r) / 2;
      var m := Probe(stabs, l, t, kind);
      if m < l || stabs[m].value < addr then FirstMatch(stabs, t + 1, r, kind, addr)
      else if stabs[m].value > addr then FirstMatch(stabs, l, m - 1, kind, addr)
      else Match(m, r)
  }

  /** i is a wanted entry with value addr + 1 in what is left to search after the match. */
  predicate Neighbour(stabs: seq<Stab>, kind: nat, addr: nat, first: Match, i: int)
    requires first.Match? && 0 <= first.m && first.r < |stabs|
  {
    first.m < i <= first.r && stabs[i].kind == kind && stabs[i].value == addr + 1
  }

  /** The search is not led astray by the address it steps on to: that does not overflow, and is not
      in what is left to search. (Were it the largest address, in the very next entry, the second
      overflow would undo the harm of the first.) */
  predicate Clean(stabs: seq<Stab>, lo: int, hi: int, kind: nat, addr: nat)
    requires 0 <= lo && hi < |stabs|
  {
    var first := FirstMatch(stabs, lo, hi, kind, addr);
    MatchShape(stabs, lo, hi, kind, addr);
    first.Match? ==>
      addr + 1 < WORD && forall i :: first.m < i <= first.r && Neighbour(stabs, kind, addr, first, i) ==> addr + 2 == WORD && i == first.m + 1
  }

  lemma MatchShape(stabs: seq<Stab>, l: int, r: int, kind: nat, addr: nat)
    requires 0 <= l && r < |stabs|
    ensures var first := FirstMatch(stabs, l, r, kind, addr);
            first.Match? ==> Wanted(stabs, l, r, kind, first.m) && stabs[first.m].value == addr && first.m <= first.r <= r
    decreases r - l + 1
  {
  }

  lemma NoNeighbourIsClean(stabs: seq<Stab>, lo: int, hi: int, kind: nat, addr: nat)
    requires 0 <= lo && hi < |stabs| && NoNeighbour(stabs, lo, hi, kind, addr)
    ensures Clean(stabs, lo, hi, kind, addr)
  {
    MatchShape(stabs, lo, hi, kind, addr);
    var first := FirstMatch(stabs, lo, hi, kind, addr);
    forall i | first.Match? && first.m < i <= first.r ensures !Neighbour(stabs, kind, addr, first, i) {
      assert Wanted(stabs, lo, hi, kind, first.m) && (stabs[i].kind == kind ==> Wanted(stabs, lo, hi, kind, i));
    }
  }

  ghost predicate AtOrBelow(stabs: seq<Stab>, lo: int, hi: int, kind: nat, addr: nat, i: int)
    requires 0 <= lo && hi < |stabs|
  {
    Wanted(stabs, lo, hi, kind, i) && stabs[i].value <= addr
  }

  ghost predicate Above(stabs: seq<Stab>, lo: int, hi: int, kind: nat, addr: nat, i: int)
    requires 0 <= lo && hi < |stabs|
  {
    Wanted(stabs, lo, hi, kind, i) && stabs[i].value > addr
  }

  /** right is just before the first wanted entry above addr, or the end of the range. */
  ghost predicate RightEnd(stabs: seq<Stab>, lo: int, hi: int, kind: nat, addr: nat, right: int)
    requires 0 <= lo && hi < |stabs|
  {
    && (right == hi || Above(stabs, lo, hi, kind, addr, right + 1))
    && forall i :: i <= right ==> !Above(stabs, lo, hi, kind, addr, i)
  }

  /** The last wanted entry at or below m and not below l, or l - 1 */
  method Back(stabs: seq<Stab>, l: int, from: int, kind: nat) returns (m: int)
    requires 0 <= l <= from < |stabs|
    ensures l - 1 <= m <= from && (m >= l ==> stabs[m].kind == kind)
    ensures forall i :: m < i <= from ==> stabs[i].kind != kind
  {
    m := from;
    while m >= l && stabs[m].kind != kind
      invariant l - 1 <= m <= from
      invariant forall i :: m < i <= from ==> stabs[i].kind != kind
    {
      m := m - 1;
    }
  }

  /** Where Back ends: the entry an iteration over [l, r] compares, for the termination measure */
  function Probe(stabs: seq<Stab>, l: int, m: int, kind: nat): (p: int)
    requires 0 <= l <= m + 1 && m < |stabs|
    ensures l - 1 <= p <= m && (p >= l ==> stabs[p].kind == kind)
    ensures forall i :: p < i <= m ==> stabs[i].kind != kind
    decreases m - l + 1
  {
    if m < l || stabs[m].kind == kind then m else Probe(stabs, l, m - 1, kind)
  }

  /** An exact match does not shrink the interval, but cannot come twice in a row. */
  function Exact(stabs: seq<Stab>, l: int, r: int, kind: nat, addr: nat): nat
    requires 0 <= l && r < |stabs|
  {
    if l <= r then
      var m := Probe(stabs, l, (l + r) / 2, kind);
      if m >= l && stabs[m].value == addr then 1 else 0
    else 0
  }

  /** What is known of the entries outside [l, r] */
  ghost predicate Bounds(stabs: seq<Stab>, lo: int, hi: int, kind: nat, address: nat, addr: nat, l: int, r: int, left: int)
    requires 0 <= lo && hi < |stabs|
  {
    && (addr == address || (addr == address + 1 && AtOrBelow(stabs, lo, hi, kind, address, left)
                            && exists i :: Wanted(stabs, lo, hi, kind, i) && stabs[i].value == address))
    && (forall i :: i < l ==> !Above(stabs, lo, hi, kind, address, i))
    && (forall i :: r < i ==> !AtOrBelow(stabs, lo, hi, kind, address, i))
    && (r == hi || Above(stabs, lo, hi, kind, address, r + 1))
    && (left == lo || AtOrBelow(stabs, lo, hi, kind, address, left))
    && (AtOrBelow(stabs, lo, hi, kind, address, left) ==> left <= r)
    && (addr == address + 1 ==> forall i :: l <= i <= r && Wanted(stabs, lo, hi, kind, i) ==> stabs[i].value != addr)
  }

  /** The search goes on past the match and a neighbour j of it: it never cuts j off. */
  ghost predicate Astray(stabs: seq<Stab>, lo: int, hi: int, kind: nat, address: nat, addr: nat, l: int, r: int)
    requires 0 <= lo && hi < |stabs|
  {
    var first := FirstMatch(stabs, lo, hi, kind, address);
    MatchShape(stabs, lo, hi, kind, address);
    first.Match? && address < addr && exists j :: first.m < j <= r && Neighbour(stabs, kind, address, first, j) && (addr == address + 1 ==> l <= j)
  }

  /** The address has overflowed at entry l. */
  ghost predicate Overflowed(stabs: seq<Stab>, lo: int, hi: int, kind: nat, address: nat, addr: nat, l: int, r: int, left: int)
    requires 0 <= lo && hi < |stabs|
  {
    var first := FirstMatch(stabs, lo, hi, kind, address);
    MatchShape(stabs, lo, hi, kind, address);
    && first.Match? && addr == 0 && left == l && l <= r + 1 && Wanted(stabs, lo, hi, kind, l) && stabs[l].value == WORD - 1
    && (address == WORD - 1 || exists j :: first.m < j <= l && Neighbour(stabs, kind, address, first, j))
  }

  /** No match so far, or a clean one */
  ghost predicate Sound(stabs: seq<Stab>, lo: int, hi: int, kind: nat, address: nat, addr: nat, l: int, r: int, left: int)
    requires 0 <= lo <= l && r <= hi < |stabs|
  {
    && Bounds(stabs, lo, hi, kind, address, addr, l, r, left)
    && if addr == address then FirstMatch(stabs, l, r, kind, address) == FirstMatch(stabs, lo, hi, kind, address)
       else Clean(stabs, lo, hi, kind, address)
  }

  /** Where the first loop is */
  ghost predicate Known(stabs: seq<Stab>, lo: int, hi: int, kind: nat, address: nat, addr: nat, l: int, r: int, left: int)
    requires 0 <= lo <= l && r <= hi < |stabs|
  {
    || Sound(stabs, lo, hi, kind, address, addr, l, r, left)
    || Astray(stabs, lo, hi, kind, address, addr, l, r)
    || Overflowed(stabs, lo, hi, kind, address, addr, l, r, left)
  }

  ghost predicate Turned(stabs: seq<Stab>, kind: nat, l: int, r: int, left: int, addr: nat, l': int, r': int, left': int, addr': nat, m: int, trueM: int)
    requires 0 <= l <= r < |stabs|
  {
    && l <= trueM <= r && l - 1 <= m <= trueM && (m >= l ==> stabs[m].kind == kind)
    && (forall i :: m < i <= trueM ==> stabs[i].kind != kind)
    && trueM == (l + r) / 2 && m == Probe(stabs, l, trueM, kind)
    && (l', r', left', addr') ==
       if m < l then (trueM + 1, r, left, addr)
       else if stabs[m].value < addr then (trueM + 1, r, m, addr)
       else if stabs[m].value > addr then (l, m - 1, left, addr)
       else (m, r, m, (addr + 1) % WORD)
  }

  /** One turn of the first loop on [l, r]: m is the wanted entry compared, or below l. */
  method Turn(stabs: seq<Stab>, kind: nat, l: int, r: int, left: int, addr: nat)
    returns (l': int, r': int, left': int, addr': nat, m: int, ghost trueM: int)
    requires 0 <= l <= r < |stabs| && addr < WORD && forall i :: 0 <= i < |stabs| ==> stabs[i].value < WORD
    ensures Turned(stabs, kind, l, r, left, addr, l', r', left', addr', m, trueM)
    ensures r' - l' < r - l || (r' - l' == r - l && Exact(stabs, l', r', kind, addr') < Exact(stabs, l, r, kind, addr))
  {
    l', r', left', addr' := l, r, left, addr;
    var t := (l + r) / 2;
    trueM := t;
    m := Back(stabs, l, t, kind);
    ProbeIsBack(stabs, l, t, kind, m);
    if m < l {
      l' := t + 1;
    } else if stabs[m].value < addr {
      left' := m;
      l' := t + 1;
    } else if stabs[m].value > addr {
      r' := m - 1;
    } else {
      left' := m;
      l' := m;
      addr' := (addr + 1) % WORD;
    }
  }

  /** The first loop, which ends on every table */
  method Narrow(stabs: seq<Stab>, lo: int, hi: int, kind: nat, address: nat)
    returns (left: int, right: int, anyMatches: bool, ghost l: int, ghost addr: nat)
    requires 0 <= lo && -1 <= hi < |stabs| && address < WORD
    requires forall i :: 0 <= i < |stabs| ==> stabs[i].value < WORD
    ensures right <= hi && l > right
    ensures !anyMatches ==> left == lo && forall i :: !Wanted(stabs, lo, hi, kind, i)
    ensures anyMatches ==> lo <= left && exists i :: Wanted(stabs, lo, hi, kind, i)
    ensures lo <= l && addr < WORD && (anyMatches && Increasing(stabs, lo, hi, kind) ==> Known(stabs, lo, hi, kind, address, addr, l, right, left))
  {
    left, right := lo, hi;
    var a: nat := address;
    var from := lo;
    anyMatches := false;
    ghost var ok := Increasing(stabs, lo, hi, kind);
    while from <= right
      invariant lo <= from && right <= hi && a < WORD && lo <= left
      invariant !anyMatches ==> left == lo && right == hi && forall i :: lo <= i < from && i <= hi ==> stabs[i].kind != kind
      invariant anyMatches ==> exists i :: Wanted(stabs, lo, hi, kind, i)
      invariant ok ==> Known(stabs, lo, hi, kind, address, a, from, right, left)
      decreases right - from, Exact(stabs, from, right, kind, a)
    {
      var b := from;
      ghost var q, start, was := right, left, a;
      var m;
      ghost var trueM;
      from, right, left, a, m, trueM := Turn(stabs, kind, from, right, left, a);
      if m >= b {
        assert Wanted(stabs, lo, hi, kind, m);
        anyMatches := true;
      }
      TurnKeeps(stabs, lo, hi, kind, address, b, q, start, was, from, right, left, a, m, trueM);
    }
    l, addr := from, a;
  }

  /** What the search promises: without a wanted entry the interval is empty; otherwise right ends just
      before the first entry above addr, and left is the last entry at or below addr, if there is one. */
  ghost predicate Found(stabs: seq<Stab>, lo: int, hi: int, kind: nat, address: nat, left: int, right: int)
    requires 0 <= lo && hi < |stabs|
  {
    if forall i :: !Wanted(stabs, lo, hi, kind, i) then left == lo && right == lo - 1
    else
      && RightEnd(stabs, lo, hi, kind, address, right)
      && if exists i :: AtOrBelow(stabs, lo, hi, kind, address, i)
         then AtOrBelow(stabs, lo, hi, kind, address, left) && forall i :: AtOrBelow(stabs, lo, hi, kind, address, i) ==> i <= left
         else left == if right >= lo then lo else right
  }

  /** Terminates on every table; when the wanted entries increase, it finds the entry if and only if the
      search is clean. */
  method Search(stabs: seq<Stab>, lo: int, hi: int, kind: nat, address: nat) returns (left: int, right: int)
    requires 0 <= lo && -1 <= hi < |stabs| && address < WORD
    requires forall i :: 0 <= i < |stabs| ==> stabs[i].value < WORD
    ensures Increasing(stabs, lo, hi, kind) ==> (Found(stabs, lo, hi, kind, address, left, right) <==> Clean(stabs, lo, hi, kind, address))
  {
    ghost var ok := Increasing(stabs, lo, hi, kind);
    var start, end, anyMatches;
    ghost var l, addr;
    start, end, anyMatches, l, addr := Narrow(stabs, lo, hi, kind, address);
    left, right := start, end;
    if !anyMatches {
      right := left - 1;
      MatchShape(stabs, lo, hi, kind, address);
    } else {
      if right > left { left := Back(stabs, left + 1, right, kind); } else { left := right; }
      if ok { Verdict(stabs, lo, hi, kind, address, addr, l, right, start, left); }
    }
  }

  /** How comparing the wanted entry m, the last one of [l, trueM], narrows the interval */
  lemma Compared(stabs: seq<Stab>, lo: int, hi: int, kind: nat, address: nat, addr: nat, l: int, r: int, left: int, m: int, trueM: int)
    requires 0 <= lo <= l <= m <= trueM <= r <= hi < |stabs| && Increasing(stabs, lo, hi, kind)
    requires Bounds(stabs, lo, hi, kind, address, addr, l, r, left)
    requires Wanted(stabs, lo, hi, kind, m) && forall i :: m < i <= trueM ==> stabs[i].kind != kind
    ensures stabs[m].value < addr ==> Bounds(stabs, lo, hi, kind, address, addr, trueM + 1, r, m)
    ensures stabs[m].value > addr ==> Bounds(stabs, lo, hi, kind, address, addr, l, m - 1, left)
    ensures stabs[m].value == addr ==> addr == address
  {
    var v := stabs[m].value;
    if v <= addr {
      assert v <= address;
      forall i | i < trueM + 1 ensures !Above(stabs, lo, hi, kind, address, i) { Ordered(stabs, lo, hi, kind, i, m); }
    } else {
      assert v > address;
      forall i | m - 1 < i ensures !AtOrBelow(stabs, lo, hi, kind, address, i) { Ordered(stabs, lo, hi, kind, m, i); }
    }
  }

  /** The exact match */
  lemma Matched(stabs: seq<Stab>, lo: int, hi: int, kind: nat, address: nat, l: int, r: int, left: int, m: int)
    requires 0 <= lo <= l <= m <= r <= hi < |stabs| && Increasing(stabs, lo, hi, kind) && address < WORD
    requires Bounds(stabs, lo, hi, kind, address, address, l, r, left) && Wanted(stabs, lo, hi, kind, m) && stabs[m].value == address
    requires FirstMatch(stabs, lo, hi, kind, address) == Match(m, r)
    ensures Known(stabs, lo, hi, kind, address, (address + 1) % WORD, m, r, m)
  {
    var first := Match(m, r);
    if address + 1 == WORD {
      assert Overflowed(stabs, lo, hi, kind, address, 0, m, r, m);
    } else if i :| m < i <= r && Neighbour(stabs, kind, address, first, i) {
      assert Astray(stabs, lo, hi, kind, address, address + 1, m, r);
    } else {
      MatchedClean(stabs, lo, hi, kind, address, l, r, left, m);
    }
  }

  lemma MatchedClean(stabs: seq<Stab>, lo: int, hi: int, kind: nat, address: nat, l: int, r: int, left: int, m: int)
    requires 0 <= lo <= l <= m <= r <= hi < |stabs| && Increasing(stabs, lo, hi, kind) && address + 1 < WORD
    requires Bounds(stabs, lo, hi, kind, address, address, l, r, left) && Wanted(stabs, lo, hi, kind, m) && stabs[m].value == address
    requires FirstMatch(stabs, lo, hi, kind, address) == Match(m, r) && forall i :: m < i <= r ==> !Neighbour(stabs, kind, address, Match(m, r), i)
    ensures Sound(stabs, lo, hi, kind, address, address + 1, m, r, m)
  {
    forall i | i < m ensures !Above(stabs, lo, hi, kind, address, i) { Ordered(stabs, lo, hi, kind, i, m); }
    assert AtOrBelow(stabs, lo, hi, kind, address, m);
    forall i | m <= i <= r && Wanted(stabs, lo, hi, kind, i) ensures stabs[i].value != address + 1 {
      assert i > m ==> !Neighbour(stabs, kind, address, Match(m, r), i);
    }
  }

  lemma Ordered(stabs: seq<Stab>, lo: int, hi: int, kind: nat, i: int, j: int)
    requires 0 <= lo && hi < |stabs| && Increasing(stabs, lo, hi, kind)
    ensures Wanted(stabs, lo, hi, kind, i) && Wanted(stabs, lo, hi, kind, j) && i <= j ==> stabs[i].value <= stabs[j].value
  {
  }

  /** The two loops stop at the same entry. */
  lemma ProbeIsBack(stabs: seq<Stab>, l: int, from: int, kind: nat, m: int)
    requires 0 <= l <= from < |stabs| && l - 1 <= m <= from && (m >= l ==> stabs[m].kind == kind)
    requires forall i :: m < i <= from ==> stabs[i].kind != kind
    ensures m == Probe(stabs, l, from, kind)
  {
  }

  lemma TurnKeeps(stabs: seq<Stab>, lo: int, hi: int, kind: nat, address: nat,
                  l: int, r: int, left: int, addr: nat, l': int, r': int, left': int, addr': nat, m: int, trueM: int)
    requires 0 <= lo <= l <= r <= hi < |stabs| && address < WORD && addr < WORD && lo <= l' && r' <= hi
    requires forall i :: 0 <= i < |stabs| ==> stabs[i].value < WORD
    requires Turned(stabs, kind, l, r, left, addr, l', r', left', addr', m, trueM)
    ensures Increasing(stabs, lo, hi, kind) && Known(stabs, lo, hi, kind, address, addr, l, r, left) ==>
              Known(stabs, lo, hi, kind, address, addr', l', r', left')
  {
    if Increasing(stabs, lo, hi, kind) && Known(stabs, lo, hi, kind, address, addr, l, r, left) {
      if Astray(stabs, lo, hi, kind, address, addr, l, r) { StaysAstray(stabs, lo, hi, kind, address, l, r, left, addr, l', r', left', addr', m, trueM); }
      else if Overflowed(stabs, lo, hi, kind, address, addr, l, r, left) { StaysOver(stabs, lo, hi, kind, address, l, r, left, addr, l', r', left', addr', m, trueM); }
      else { StaysSound(stabs, lo, hi, kind, address, l, r, left, addr, l', r', left', addr', m, trueM); }
    }
  }

  lemma StaysSound(stabs: seq<Stab>, lo: int, hi: int, kind: nat, address: nat,
                   l: int, r: int, left: int, addr: nat, l': int, r': int, left': int, addr': nat, m: int, trueM: int)
    requires 0 <= lo <= l <= r <= hi < |stabs| && address < WORD && lo <= l' && r' <= hi
    requires Turned(stabs, kind, l, r, left, addr, l', r', left', addr', m, trueM) && Increasing(stabs, lo, hi, kind)
    requires Sound(stabs, lo, hi, kind, address, addr, l, r, left)
    ensures Known(stabs, lo, hi, kind, address, addr', l', r', left')
  {
    if m >= l && stabs[m].value == addr {
      SoundMatches(stabs, lo, hi, kind, address, l, r, left, addr, m, trueM);
    } else {
      SoundGoesOn(stabs, lo, hi, kind, address, l, r, left, addr, l', r', left', addr', m, trueM);
    }
  }

  lemma SoundMatches(stabs: seq<Stab>, lo: int, hi: int, kind: nat, address: nat, l: int, r: int, left: int, addr: nat, m: int, trueM: int)
    requires 0 <= lo <= l <= m <= trueM <= r <= hi < |stabs| && address < WORD && Increasing(stabs, lo, hi, kind)
    requires trueM == (l + r) / 2 && m == Probe(stabs, l, trueM, kind) && stabs[m].value == addr
    requires Sound(stabs, lo, hi, kind, address, addr, l, r, left)
    ensures Known(stabs, lo, hi, kind, address, (addr + 1) % WORD, m, r, m)
  {
    assert Wanted(stabs, lo, hi, kind, m);
    Compared(stabs, lo, hi, kind, address, addr, l, r, left, m, trueM);
    assert FirstMatch(stabs, l, r, kind, address) == Match(m, r);
    Matched(stabs, lo, hi, kind, address, l, r, left, m);
  }

  lemma SoundGoesOn(stabs: seq<Stab>, lo: int, hi: int, kind: nat, address: nat,
                    l: int, r: int, left: int, addr: nat, l': int, r': int, left': int, addr': nat, m: int, trueM: int)
    requires 0 <= lo <= l <= r <= hi < |stabs| && lo <= l' && r' <= hi
    requires Turned(stabs, kind, l, r, left, addr, l', r', left', addr', m, trueM) && Increasing(stabs, lo, hi, kind)
    requires Sound(stabs, lo, hi, kind, address, addr, l, r, left) && !(m >= l && stabs[m].value == addr)
    ensures Sound(stabs, lo, hi, kind, address, addr', l', r', left')
  {
    BoundsGoOn(stabs, lo, hi, kind, address, l, r, left, addr, l', r', left', addr', m, trueM);
    MatchGoesOn(stabs, kind, l, r, left, addr, l', r', left', addr', m, trueM);
  }

  lemma BoundsGoOn(stabs: seq<Stab>, lo: int, hi: int, kind: nat, address: nat,
                   l: int, r: int, left: int, addr: nat, l': int, r': int, left': int, addr': nat, m: int, trueM: int)
    requires 0 <= lo <= l <= r <= hi < |stabs|
    requires Turned(stabs, kind, l, r, left, addr, l', r', left', addr', m, trueM) && Increasing(stabs, lo, hi, kind)
    requires Bounds(stabs, lo, hi, kind, address, addr, l, r, left) && !(m >= l && stabs[m].value == addr)
    ensures Bounds(stabs, lo, hi, kind, address, addr', l', r', left')
  {
    if m < l {
      Skipped(stabs, lo, hi, kind, address, addr, l, r, left, trueM);
    } else {
      assert Wanted(stabs, lo, hi, kind, m);
      Compared(stabs, lo, hi, kind, address, addr, l, r, left, m, trueM);
    }
  }

  lemma MatchGoesOn(stabs: seq<Stab>, kind: nat, l: int, r: int, left: int, addr: nat, l': int, r': int, left': int, addr': nat, m: int, trueM: int)
    requires 0 <= l <= r < |stabs| && 0 <= l' && r' < |stabs| && addr' == addr
    requires Turned(stabs, kind, l, r, left, addr, l', r', left', addr', m, trueM) && !(m >= l && stabs[m].value == addr)
    ensures FirstMatch(stabs, l', r', kind, addr) == FirstMatch(stabs, l, r, kind, addr)
  {
  }

  lemma StaysOver(stabs: seq<Stab>, lo: int, hi: int, kind: nat, address: nat,
                  l: int, r: int, left: int, addr: nat, l': int, r': int, left': int, addr': nat, m: int, trueM: int)
    requires 0 <= lo <= l <= r <= hi < |stabs| && address < WORD && lo <= l' && r' <= hi
    requires forall i :: 0 <= i < |stabs| ==> stabs[i].value < WORD
    requires Turned(stabs, kind, l, r, left, addr, l', r', left', addr', m, trueM) && Increasing(stabs, lo, hi, kind)
    requires Overflowed(stabs, lo, hi, kind, address, addr, l, r, left)
    ensures Overflowed(stabs, lo, hi, kind, address, addr', l', r', left')
  {
    assert m >= l ==> Wanted(stabs, lo, hi, kind, m);
    assert m == l;
  }

  lemma StaysAstray(stabs: seq<Stab>, lo: int, hi: int, kind: nat, address: nat,
                    l: int, r: int, left: int, addr: nat, l': int, r': int, left': int, addr': nat, m: int, trueM: int)
    requires 0 <= lo <= l <= r <= hi < |stabs| && address < WORD && addr < WORD && lo <= l' && r' <= hi
    requires forall i :: 0 <= i < |stabs| ==> stabs[i].value < WORD
    requires Turned(stabs, kind, l, r, left, addr, l', r', left', addr', m, trueM) && Increasing(stabs, lo, hi, kind)
    requires Astray(stabs, lo, hi, kind, address, addr, l, r)
    ensures Astray(stabs, lo, hi, kind, address, addr', l', r') || Overflowed(stabs, lo, hi, kind, address, addr', l', r', left')
  {
    var first := FirstMatch(stabs, lo, hi, kind, address);
    MatchShape(stabs, lo, hi, kind, address);
    var j :| first.m < j <= r && Neighbour(stabs, kind, address, first, j) && (addr == address + 1 ==> l <= j);
    assert Wanted(stabs, lo, hi, kind, j);
    if m >= l {
      assert Wanted(stabs, lo, hi, kind, m);
      if stabs[m].value >= addr { Ordered(stabs, lo, hi, kind, m, j); } else { Ordered(stabs, lo, hi, kind, j, m); }
    }
  }

  lemma Skipped(stabs: seq<Stab>, lo: int, hi: int, kind: nat, address: nat, addr: nat, l: int, r: int, left: int, trueM: int)
    requires 0 <= lo <= l <= trueM <= r <= hi < |stabs| && Bounds(stabs, lo, hi, kind, address, addr, l, r, left)
    requires forall i :: l <= i <= trueM ==> stabs[i].kind != kind
    ensures Bounds(stabs, lo, hi, kind, address, addr, trueM + 1, r, left)
  {
  }

  /** After the second loop: found, astray or overflowed */
  lemma Verdict(stabs: seq<Stab>, lo: int, hi: int, kind: nat, address: nat, addr: nat, l: int, r: int, start: int, left: int)
    requires 0 <= lo <= start && lo <= l && r <= hi < |stabs| && l > r && Increasing(stabs, lo, hi, kind) && address < WORD && addr < WORD
    requires Known(stabs, lo, hi, kind, address, addr, l, r, start) && exists i :: Wanted(stabs, lo, hi, kind, i)
    requires if r > start then start <= left <= r && (left > start ==> stabs[left].kind == kind) && forall i :: left < i <= r ==> stabs[i].kind != kind
             else left == r
    ensures Found(stabs, lo, hi, kind, address, left, r) <==> Clean(stabs, lo, hi, kind, address)
  {
    MatchShape(stabs, lo, hi, kind, address);
    if Astray(stabs, lo, hi, kind, address, addr, l, r) { LedAstray(stabs, lo, hi, kind, address, addr, l, r, left); }
    else if Overflowed(stabs, lo, hi, kind, address, addr, l, r, start) { LedOver(stabs, lo, hi, kind, address, addr, l, r, start); }
    else { Finished(stabs, lo, hi, kind, address, addr, l, r, start, left); }
  }

  lemma LedAstray(stabs: seq<Stab>, lo: int, hi: int, kind: nat, address: nat, addr: nat, l: int, r: int, left: int)
    requires 0 <= lo && r <= hi < |stabs| && l > r && addr < WORD
    requires Astray(stabs, lo, hi, kind, address, addr, l, r)
    ensures !Found(stabs, lo, hi, kind, address, left, r)
    ensures !Clean(stabs, lo, hi, kind, address)
  {
    var first := FirstMatch(stabs, lo, hi, kind, address);
    MatchShape(stabs, lo, hi, kind, address);
    var j :| first.m < j <= r && Neighbour(stabs, kind, address, first, j) && (addr == address + 1 ==> l <= j);
    assert Above(stabs, lo, hi, kind, address, j);
  }

  /** After an overflow right ends before the entry with the largest value. That is wrong, unless this
      entry is the neighbour, next to the match. */
  lemma LedOver(stabs: seq<Stab>, lo: int, hi: int, kind: nat, address: nat, addr: nat, l: int, r: int, start: int)
    requires 0 <= lo <= l && r <= hi < |stabs| && l > r && Increasing(stabs, lo, hi, kind) && address < WORD
    requires Overflowed(stabs, lo, hi, kind, address, addr, l, r, start)
    ensures Found(stabs, lo, hi, kind, address, r, r) <==> Clean(stabs, lo, hi, kind, address)
  {
    var first := FirstMatch(stabs, lo, hi, kind, address);
    MatchShape(stabs, lo, hi, kind, address);
    if address != WORD - 1 {
      var j :| first.m < j <= l && Neighbour(stabs, kind, address, first, j);
      assert Wanted(stabs, lo, hi, kind, j) && Above(stabs, lo, hi, kind, address, j);
      assert AtOrBelow(stabs, lo, hi, kind, address, first.m);
      if j == l == first.m + 1 { NextToMatch(stabs, lo, hi, kind, address, l, r); }
    }
  }

  lemma NextToMatch(stabs: seq<Stab>, lo: int, hi: int, kind: nat, address: nat, l: int, r: int)
    requires 0 <= lo <= r && r + 1 == l <= hi < |stabs| && Increasing(stabs, lo, hi, kind) && address + 2 == WORD
    requires Wanted(stabs, lo, hi, kind, l) && stabs[l].value == WORD - 1 && Wanted(stabs, lo, hi, kind, r) && stabs[r].value == address
    requires var first := FirstMatch(stabs, lo, hi, kind, address); first.Match? && first.m == r
    ensures Found(stabs, lo, hi, kind, address, r, r) && Clean(stabs, lo, hi, kind, address)
  {
    MatchShape(stabs, lo, hi, kind, address);
    forall i | i <= r ensures !Above(stabs, lo, hi, kind, address, i) { Ordered(stabs, lo, hi, kind, i, r); }
    forall i | AtOrBelow(stabs, lo, hi, kind, address, i) ensures i <= r { Ordered(stabs, lo, hi, kind, l, i); }
    forall i | r < i <= hi && stabs[i].kind == kind && stabs[i].value == address + 1 ensures i == l {
      assert Wanted(stabs, lo, hi, kind, i);
    }
  }

  /** At the end of the loop every wanted entry up to r is at or below the address, and no other is;
      so the last wanted entry up to r, if not before the one remembered, is the answer. */
  lemma Finished(stabs: seq<Stab>, lo: int, hi: int, kind: nat, address: nat, addr: nat, l: int, r: int, start: int, left: int)
    requires 0 <= lo <= start && r <= hi < |stabs| && l > r && Bounds(stabs, lo, hi, kind, address, addr, l, r, start)
    requires exists i :: Wanted(stabs, lo, hi, kind, i)
    requires if r > start then start <= left <= r && (left > start ==> stabs[left].kind == kind) && forall i :: left < i <= r ==> stabs[i].kind != kind
             else left == r
    ensures Found(stabs, lo, hi, kind, address, left, r)
  {
    forall i ensures AtOrBelow(stabs, lo, hi, kind, address, i) <==> i <= r && Wanted(stabs, lo, hi, kind, i) {
      assert i <= r ==> !Above(stabs, lo, hi, kind, address, i);
    }
    assert RightEnd(stabs, lo, hi, kind, address, r);
  }

  // ----- examples -----

  /** With entries 5 and 6 the search for 5 steps on to 6; with 5, 6 and 7 it has cut 6 off before. */
  lemma NeighbourCompared()
    ensures var two := [Stab(0, 5), Stab(0, 6)]; Increasing(two, 0, 1, 0) && !Clean(two, 0, 1, 0, 5)
    ensures var three := [Stab(0, 5), Stab(0, 6), Stab(0, 7)]; Increasing(three, 0, 2, 0) && Clean(three, 0, 2, 0, 5) && !NoNeighbour(three, 0, 2, 0, 5)
  {
    var two, three := [Stab(0, 5), Stab(0, 6)], [Stab(0, 5), Stab(0, 6), Stab(0, 7)];
    assert FirstMatch(two, 0, 1, 0, 5) == Match(0, 1);
    assert Neighbour(two, 0, 5, Match(0, 1), 1);
    assert FirstMatch(three, 0, 2, 0, 5) == FirstMatch(three, 0, 0, 0, 5) == Match(0, 0);
    assert Wanted(three, 0, 2, 0, 0) && Wanted(three, 0, 2, 0, 1);
  }

  /** The largest address steps over to 0. */
  lemma LargestAddress()
    ensures var one := [Stab(0, WORD - 1)]; Increasing(one, 0, 0, 0) && !Clean(one, 0, 0, 0, WORD - 1)
  {
    assert FirstMatch([Stab(0, WORD - 1)], 0, 0, 0, WORD - 1) == Match(0, 0);
  }
}
