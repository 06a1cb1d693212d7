/** Printing numbers (lib/printfmt.c:37-52) and reading them back (lib/string.c:239-284). */
module Numbers {
  const HEX := "0123456789abcdef"

  // ----- printnum -----

  lemma Shrinks(n: nat, base: nat)
    requires base >= 2
    ensures n >= base ==> n / base < n
    ensures n < base ==> n / base == 0 && n % base == n
    ensures n == (n / base) * base + n % base
  {
    var q, d := n / base, n % base;
    assert n == q * base + d;
    if q >= 1 { assert q * base >= q * 2; }
  }

  /** The number in the base, most significant digit first */
  function Digits(n: nat, base: nat): (r: string)
    requires 2 <= base <= 16
    ensures r != []
    decreases n
  {
    Shrinks(n, base);
    (if n >= base then Digits(n / base, base) else []) + [HEX[n % base]]
  }

  function Repeat(c: char, n: int): (r: string)
    ensures |r| == if n > 0 then n else 0
    ensures forall i :: 0 <= i < |r| ==> r[i] == c
  {
    if n <= 0 then [] else Repeat(c, n - 1) + [c]
  }

  /** What printnum prints: the digits, padded on the left to the width */
  function Padded(n: nat, base: nat, width: int, padc: char): (r: string)
    requires 2 <= base <= 16
    ensures |r| == if width > |Digits(n, base)| then width else |Digits(n, base)|
  {
    Repeat(padc, width - |Digits(n, base)|) + Digits(n, base)
  }

  lemma MoreDigits(n: nat, base: nat, width: int, padc: char)
    requires 2 <= base <= 16
    ensures n >= base ==> Padded(n, base, width, padc) == Padded(n / base, base, width - 1, padc) + [HEX[n % base]]
    ensures n < base ==> Padded(n, base, width, padc) == Repeat(padc, width - 1) + [HEX[n % base]]
  {
    if n >= base { assert |Digits(n, base)| == |Digits(n / base, base)| + 1; }
  }

  /** The object behind the putch callback: what it has been given so far */
  class Sink {
    var out: string

    constructor ()
      ensures out == []
    {
      out := [];
    }

    method Put(ch: char)
      modifies this
      ensures out == old(out) + [ch]
    {
      out := out + [ch];
    }

    /** Padding: one character less than the width, which the digit fills */
    method PrintPad(width: int, padc: char)
      modifies this
      ensures out == old(out) + Repeat(padc, width - 1)
    {
      var w := width - 1;
      while w > 0
        invariant w <= width - 1 && (w >= 0 || w == width - 1)
        invariant out == old(out) + Repeat(padc, width - 1 - w)
      {
        Put(padc);
        w := w - 1;
      }
    }

    /** Recursive, the padding being printed by the innermost call */
    method PrintNum(num: nat, base: nat, width: int, padc: char)
      requires 2 <= base <= 16
      modifies this
      ensures out == old(out) + Padded(num, base, width, padc)
      decreases num
    {
      MoreDigits(num, base, width, padc);
      Shrinks(num, base);
      if num >= base {
        PrintNum(num / base, base, width - 1, padc);
      } else {
        PrintPad(width, padc);
      }
      Put(HEX[num % base]);
    }
  }

  // ----- strtol -----

  /** Reading at or past the end of a string gives its terminating NUL. */
  function CharAt(s: string, i: nat): char {
    if i < |s| then s[i] else '\0'
  }

  /** The value of a digit character, or -1 */
  function DigitOf(c: char): int {
    if '0' <= c <= '9' then c as int - '0' as int
    else if 'a' <= c <= 'z' then c as int - 'a' as int + 10
    else if 'A' <= c <= 'Z' then c as int - 'A' as int + 10
    else -1
  }

  predicate IsDigit(c: char, base: int) { 0 <= DigitOf(c) < base }

  /** The number that digits spell */
  function Value(ds: string, base: int): int
    decreases |ds|
  {
    if ds == [] then 0 else Value(ds[..|ds| - 1], base) * base + DigitOf(ds[|ds| - 1])
  }

  predicate Blank(c: char) { c == ' ' || c == '\t' }

  /** s[from..end] are the digits of the number: as many as there are. */
  ghost predicate DigitsTo(s: string, from: nat, end: nat, base: int) {
    && from <= end <= |s|
    && (forall i :: from <= i < end ==> IsDigit(s[i], base))
    && (end < |s| ==> !IsDigit(s[end], base))
  }

  /** The pieces strtol divides its input into */
  datatype Parts = Parts(sign: nat, neg: bool, digits: nat, base: int)

  /** Where blanks end */
  function SkipBlanks(s: string, i: nat): (r: nat)
    requires i <= |s|
    ensures i <= r <= |s| && !Blank(CharAt(s, r))
    decreases |s| - i
  {
    if Blank(CharAt(s, i)) then SkipBlanks(s, i + 1) else i
  }

  /** After blanks and a sign: a 0x, in base 16 or 0, or a single 0, in base 0, is a prefix */
  function Split(s: string, base: int): Parts {
    var i := SkipBlanks(s, 0);
    var neg := CharAt(s, i) == '-';
    var j := if neg || CharAt(s, i) == '+' then i + 1 else i;
    if (base == 0 || base == 16) && CharAt(s, j) == '0' && CharAt(s, j + 1) == 'x' then Parts(i, neg, j + 2, 16)
    else if base == 0 && CharAt(s, j) == '0' then Parts(i, neg, j + 1, 8)
    else Parts(i, neg, j, if base == 0 then 10 else base)
  }

  /** The 32-bit signed integer that a computation yields */
  function Wrap(x: int): (r: int)
    ensures -0x80000000 <= r < 0x80000000
  {
    (x + 0x80000000) % 0x1_0000_0000 - 0x80000000
  }

  lemma WrapPeriod(x: int, k: int)
    ensures Wrap(x + k * 0x1_0000_0000) == Wrap(x)
  {
    var y := x + 0x80000000;
    assert y + k * 0x1_0000_0000 == (y / 0x1_0000_0000 + k) * 0x1_0000_0000 + y % 0x1_0000_0000;
  }

  /** Wrapping at every step is wrapping at the end. */
  lemma WrapStep(v: int, base: int, dig: int)
    ensures Wrap(Wrap(v) * base + dig) == Wrap(v * base + dig)
    ensures Wrap(-Wrap(v)) == Wrap(-v)
  {
    var k := (v + 0x80000000) / 0x1_0000_0000;
    assert v == Wrap(v) + k * 0x1_0000_0000;
    assert v * base + dig == Wrap(v) * base + dig + (k * base) * 0x1_0000_0000;
    WrapPeriod(Wrap(v) * base + dig, k * base);
    WrapPeriod(-Wrap(v), -k);
  }

  /** strtol: the value read, in 32 bits, and where the reading ended */
  method Strtol(s: string, base: int) returns (val: int, end: nat)
    ensures var p := Split(s, base);
            && DigitsTo(s, p.digits, end, p.base)
            && val == Wrap((if p.neg then -1 else 1) * Value(s[p.digits..end], p.base))
  {
    var neg, b := false, base;
    end := 0;
    while CharAt(s, end) == ' ' || CharAt(s, end) == '\t'
      invariant end <= |s| && SkipBlanks(s, end) == SkipBlanks(s, 0)
      decreases |s| - end
    {
      end := end + 1;
    }
    if CharAt(s, end) == '+' {
      end := end + 1;
    } else if CharAt(s, end) == '-' {
      end, neg := end + 1, true;
    }
    if (b == 0 || b == 16) && CharAt(s, end) == '0' && CharAt(s, end + 1) == 'x' {
      end, b := end + 2, 16;
    } else if b == 0 && CharAt(s, end) == '0' {
      end, b := end + 1, 8;
    } else if b == 0 {
      b := 10;
    }
    ghost var from := end;
    assert Split(s, base).digits == from && Split(s, base).base == b && Split(s, base).neg == neg;
    val, end := ReadDigits(s, from, end, b);
    WrapStep(Value(s[from..end], b), 1, 0);
    if neg { val := Wrap(-val); }
  }

  /** The loop over the digits */
  method ReadDigits(s: string, ghost from: nat, start: nat, base: int) returns (val: int, end: nat)
    requires from == start <= |s|
    ensures DigitsTo(s, from, end, base) && val == Wrap(Value(s[from..end], base))
  {
    val, end := 0, start;
    while true
      invariant from <= end <= |s| && forall i :: from <= i < end ==> IsDigit(s[i], base)
      invariant val == Wrap(Value(s[from..end], base))
      decreases |s| - end
    {
      var dig;
      var c := CharAt(s, end);
      if '0' <= c <= '9' { dig := c as int - '0' as int; }
      else if 'a' <= c <= 'z' { dig := c as int - 'a' as int + 10; }
      else if 'A' <= c <= 'Z' { dig := c as int - 'A' as int + 10; }
      else { break; }
      if dig >= base { break; }
      assert s[from..end + 1][..end - from] == s[from..end];
      WrapStep(Value(s[from..end], base), base, dig);
      end, val := end + 1, Wrap(val * base + dig);
    }
  }

  // ----- the round trip -----

  lemma HexDigit(d: nat, base: nat)
    requires d < base <= 16
    ensures DigitOf(HEX[d]) == d && IsDigit(HEX[d], base) && HEX[d] != 'x' && HEX[d] != '-' && HEX[d] != '+'
    ensures !Blank(HEX[d])
  {
  }

  lemma {:induction false} DigitsAreDigits(n: nat, base: nat)
    requires 2 <= base <= 16
    ensures var ds := Digits(n, base); forall i :: 0 <= i < |ds| ==> IsDigit(ds[i], base) && ds[i] != 'x'
    decreases n
  {
    Shrinks(n, base);
    HexDigit(n % base, base);
    var ds := Digits(n, base);
    if n >= base {
      DigitsAreDigits(n / base, base);
      assert ds == Digits(n / base, base) + [HEX[n % base]];
    } else {
      assert ds == [HEX[n % base]];
    }
  }

  /** The digits of a number spell it. */
  lemma {:induction false} DigitsSpell(n: nat, base: nat)
    requires 2 <= base <= 16
    ensures Value(Digits(n, base), base) == n
    decreases n
  {
    var d, q := n % base, n / base;
    var ds := Digits(n, base);
    Shrinks(n, base);
    HexDigit(d, base);
    SpellFront(ds, n, base, q, d);
    if n >= base { DigitsSpell(q, base); }
    LastDigit(n, base, ds, q, d);
  }

  lemma SpellFront(ds: string, n: nat, base: nat, q: nat, d: nat)
    requires 2 <= base <= 16 && q == n / base && d == n % base && ds == Digits(n, base)
    ensures ds[|ds| - 1] == HEX[d] && ds[..|ds| - 1] == (if n >= base then Digits(q, base) else [])
  {
  }

  lemma LastDigit(n: nat, base: nat, ds: string, q: nat, d: nat)
    requires ds != [] && Value(ds[..|ds| - 1], base) == q && DigitOf(ds[|ds| - 1]) == d && n == q * base + d
    ensures Value(ds, base) == n
  {
  }

  /** Leading zeros do not change a number. */
  lemma {:induction false} LeadingZeros(k: int, ds: string, base: nat)
    requires base > 0 && forall i :: 0 <= i < |ds| ==> IsDigit(ds[i], base)
    ensures var all := Repeat('0', k) + ds;
            && (forall i :: 0 <= i < |all| ==> IsDigit(all[i], base))
            && Value(all, base) == Value(ds, base)
    decreases |ds| + (if k > 0 then k else 0)
  {
    var all := Repeat('0', k) + ds;
    if ds != [] {
      LeadingZeros(k, ds[..|ds| - 1], base);
      assert all[..|all| - 1] == Repeat('0', k) + ds[..|ds| - 1];
    } else if k > 0 {
      LeadingZeros(k - 1, [], base);
      assert all[..|all| - 1] == Repeat('0', k - 1) + [];
    }
  }

  lemma {:induction false} SkipsBlanks(k: nat, i: nat, rest: string)
    requires i <= k && rest != [] && !Blank(rest[0])
    ensures SkipBlanks(Repeat(' ', k) + rest, i) == k
    decreases k - i
  {
    var s := Repeat(' ', k) + rest;
    if i < k { SkipsBlanks(k, i + 1, rest); } else { assert s[i] == rest[0]; }
  }

  /** strtol applied to what printnum prints gives the number back, for every number below 2^31,
      every base and every width, padded with spaces or zeros. */
  method PrintThenParse(n: nat, base: nat, width: int, padc: char) returns (text: string, val: int, end: nat)
    requires n < 0x80000000 && 2 <= base <= 16 && (padc == ' ' || padc == '0')
    ensures |text| == (if width > |Digits(n, base)| then width else |Digits(n, base)|)
    ensures val == n && end == |text|
  {
    var sink := new Sink();
    sink.PrintNum(n, base, width, padc);
    text := sink.out;
    val, end := Strtol(text, base);
    ParsesBack(n, base, width, padc, text, end);
  }

  lemma ParsesBack(n: nat, base: nat, width: int, padc: char, text: string, end: nat)
    requires 2 <= base <= 16 && (padc == ' ' || padc == '0') && text == Padded(n, base, width, padc)
    requires var p := Split(text, base); DigitsTo(text, p.digits, end, p.base)
    ensures var p := Split(text, base); end == |text| && !p.neg && Value(text[p.digits..end], p.base) == n
  {
    var ds := Digits(n, base);
    var k := width - |ds|;
    DigitsAreDigits(n, base);
    DigitsSpell(n, base);
    assert text == Repeat(padc, k) + ds;
    if padc == ' ' && k > 0 { AfterBlanks(k, ds, base, end); }
    else {
      LeadingZeros(k, ds, base);
      AllDigits(text, base, end);
    }
  }

  lemma AllDigits(text: string, base: nat, end: nat)
    requires base > 0 && text != [] && forall i :: 0 <= i < |text| ==> IsDigit(text[i], base)
    requires forall i :: 0 <= i < |text| ==> text[i] != 'x'
    requires var p := Split(text, base); DigitsTo(text, p.digits, end, p.base)
    ensures var p := Split(text, base); end == |text| && !p.neg && p.base == base && Value(text[p.digits..end], base) == Value(text, base)
  {
    assert IsDigit(text[0], base);
    assert Split(text, base) == Parts(0, false, 0, base);
    assert text[0..|text|] == text;
  }

  lemma AfterBlanks(k: nat, ds: string, base: nat, end: nat)
    requires base > 0 && ds != [] && forall i :: 0 <= i < |ds| ==> IsDigit(ds[i], base)
    requires forall i :: 0 <= i < |ds| ==> ds[i] != 'x'
    requires var text := Repeat(' ', k) + ds; var p := Split(text, base); DigitsTo(text, p.digits, end, p.base)
    ensures var text := Repeat(' ', k) + ds; var p := Split(text, base);
            end == |text| && !p.neg && p.base == base && Value(text[p.digits..end], base) == Value(ds, base)
  {
    var text := Repeat(' ', k) + ds;
    assert IsDigit(ds[0], base);
    SkipsBlanks(k, 0, ds);
    assert text[k] == ds[0] && (k + 1 < |text| ==> text[k + 1] == ds[1]);
    assert Split(text, base) == Parts(k, false, k, base);
    assert forall i :: k <= i < |text| ==> text[i] == ds[i - k];
    assert text[k..|text|] == ds;
  }
}
