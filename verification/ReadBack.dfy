/** What printf prints and strtol reads (lib/printfmt.c:84-245, lib/string.c:239-284): the prefixes strtol takes, and which
    printed numbers it gives back. */
module ReadBack {
  import opened Numbers
  import opened Formatting
  import opened Conversions

  // ----- strtol's prefixes -----

  lemma {:induction false} SkipsAll(s: string, blanks: string, rest: string, i: nat)
    requires s == blanks + rest && i <= |blanks| && (forall k :: 0 <= k < |blanks| ==> blanks[k] == ' ' || blanks[k] == '\t') && rest != [] && !Blank(rest[0])
    ensures SkipBlanks(s, i) == |blanks|
    decreases |blanks| - i
  {
    if i < |blanks| {
      assert s[i] == blanks[i];
      SkipsAll(s, blanks, rest, i + 1);
    } else {
      assert s[i] == rest[0];
    }
  }

  /** Digits count from 0, small and capital letters from 10 on. */
  lemma DigitMeans(c: char, i: nat)
    requires i < 36
    ensures (if i < 10 then c as int == '0' as int + i else c as int == 'a' as int + i - 10 || c as int == 'A' as int + i - 10) <==> DigitOf(c) == i
  {
  }

  predicate Sign(sign: string) { sign == "" || sign == "+" || sign == "-" }

  function Signed32(minus: bool, n: nat): int { Wrap(if minus then 0 - n else n) }

  /** Digits of base b behind the prefix are read as such when strtol is asked for the base: its own; 16 or 0 behind 0x; 0 behind
      a 0, in octal; or 0 without either, in decimal. */
  predicate Prefixed(pre: string, ds: string, base: int, b: nat) {
    && ds != [] && (forall i :: 0 <= i < |ds| ==> IsDigit(ds[i], b))
    && (|| (pre == "" && base == b && 2 <= b && (b == 16 ==> |ds| > 1 ==> ds[1] != 'x'))
        || (pre == ['0', 'x'] && (base == 16 || base == 0) && b == 16)
        || (pre == ['0'] && base == 0 && b == 8)
        || (pre == "" && base == 0 && b == 10 && ds[0] != '0'))
  }

  /** s is blanks, a sign, a prefix and digits; head and tail are s without its blanks, and also without its sign. */
  predicate Written(s: string, blanks: string, sign: string, pre: string, ds: string, head: string, tail: string) {
    && s == blanks + head && head == sign + tail && tail == pre + ds && Sign(sign)
    && (forall k :: 0 <= k < |blanks| ==> blanks[k] == ' ' || blanks[k] == '\t')
  }

  lemma BlanksSkipped(s: string, blanks: string, sign: string, pre: string, ds: string, head: string, tail: string, base: int, b: nat)
    requires Written(s, blanks, sign, pre, ds, head, tail) && Prefixed(pre, ds, base, b)
    ensures SkipBlanks(s, 0) == |blanks|
    ensures var c := CharAt(s, |blanks|); (c == '-' <==> sign == "-") && (c == '+' <==> sign == "+")
  {
    assert IsDigit(ds[0], b);
    assert tail[0] == if pre == "" then ds[0] else '0';
    assert head[0] == if sign == "" then tail[0] else sign[0];
    assert s[|blanks|] == head[0];
    SkipsAll(s, blanks, head, 0);
  }

  lemma TailSeen(s: string, blanks: string, sign: string, head: string, tail: string)
    requires s == blanks + head && head == sign + tail
    ensures var j := |blanks| + |sign|; CharAt(s, j) == CharAt(tail, 0) && CharAt(s, j + 1) == CharAt(tail, 1)
  {
  }

  lemma PrefixOf(pre: string, ds: string, tail: string, base: int, b: nat)
    requires Prefixed(pre, ds, base, b) && tail == pre + ds
    ensures var hex := CharAt(tail, 0) == '0' && CharAt(tail, 1) == 'x';
            if (base == 0 || base == 16) && hex then |pre| == 2 && b == 16
            else if base == 0 && CharAt(tail, 0) == '0' then |pre| == 1 && b == 8
            else |pre| == 0 && b == if base == 0 then 10 else base
  {
    assert IsDigit(ds[0], b);
    if |ds| > 1 { assert IsDigit(ds[1], b); }
    if pre == "" { assert tail == ds; } else if pre == ['0'] { assert tail[1] == ds[0]; }
  }

  /** The pieces strtol finds in it are these. */
  lemma SplitFinds(s: string, blanks: string, sign: string, pre: string, ds: string, head: string, tail: string, base: int, b: nat)
    requires Written(s, blanks, sign, pre, ds, head, tail) && Prefixed(pre, ds, base, b)
    ensures Split(s, base) == Parts(|blanks|, sign == "-", |blanks| + |sign| + |pre|, b)
  {
    BlanksSkipped(s, blanks, sign, pre, ds, head, tail, base, b);
    TailSeen(s, blanks, sign, head, tail);
    PrefixOf(pre, ds, tail, base, b);
    SplitIs(s, base, |blanks|, sign);
  }

  lemma SplitIs(s: string, base: int, i: nat, sign: string)
    requires Sign(sign) && SkipBlanks(s, 0) == i && (CharAt(s, i) == '-' <==> sign == "-") && (CharAt(s, i) == '+' <==> sign == "+")
    ensures var j := i + |sign|; var hex := CharAt(s, j) == '0' && CharAt(s, j + 1) == 'x';
            Split(s, base) == if (base == 0 || base == 16) && hex then Parts(i, sign == "-", j + 2, 16)
                              else if base == 0 && CharAt(s, j) == '0' then Parts(i, sign == "-", j + 1, 8)
                              else Parts(i, sign == "-", j, if base == 0 then 10 else base)
  {
  }

  predicate LastAre(s: string, from: nat, ds: string) {
    from + |ds| == |s| && forall i :: from <= i < |s| ==> s[i] == ds[i - from]
  }

  lemma DigitsAreLast(s: string, blanks: string, sign: string, pre: string, ds: string, head: string, tail: string)
    requires Written(s, blanks, sign, pre, ds, head, tail)
    ensures LastAre(s, |blanks| + |sign| + |pre|, ds)
  {
  }

  lemma DigitsLast(s: string, ds: string, from: nat, b: nat, end: nat)
    requires LastAre(s, from, ds) && (forall i :: 0 <= i < |ds| ==> IsDigit(ds[i], b)) && DigitsTo(s, from, end, b)
    ensures end == |s| && Value(s[from..end], b) == Value(ds, b)
  {
    assert forall i :: from <= i < |s| ==> IsDigit(s[i], b);
    assert s[from..|s|] == ds;
  }

  /** It reads them all. */
  lemma ReadsAll(s: string, blanks: string, sign: string, pre: string, ds: string, head: string, tail: string, base: int, b: nat, end: nat)
    requires Written(s, blanks, sign, pre, ds, head, tail) && Prefixed(pre, ds, base, b)
    requires var p := Split(s, base); DigitsTo(s, p.digits, end, p.base)
    ensures var p := Split(s, base); end == |s| && p.neg == (sign == "-") && Value(s[p.digits..end], p.base) == Value(ds, b)
  {
    SplitFinds(s, blanks, sign, pre, ds, head, tail, base, b);
    DigitsAreLast(s, blanks, sign, pre, ds, head, tail);
    DigitsLast(s, ds, |blanks| + |sign| + |pre|, b, end);
  }

  /** strtol reads the number written behind any blanks, with or without a sign, with the prefix for its base or none. */
  method StrtolReads(blanks: string, sign: string, pre: string, n: nat, base: int, b: nat) returns (s: string, val: int, end: nat)
    requires (forall k :: 0 <= k < |blanks| ==> blanks[k] == ' ' || blanks[k] == '\t') && Sign(sign) && 2 <= b <= 16 && Prefixed(pre, Digits(n, b), base, b)
    ensures s == blanks + (sign + (pre + Digits(n, b)))
    ensures end == |s| && val == Signed32(sign == "-", n)
  {
    var ds := Digits(n, b);
    var tail := pre + ds;
    var head := sign + tail;
    s := blanks + head;
    val, end := Strtol(s, base);
    DigitsSpell(n, b);
    ReadsAll(s, blanks, sign, pre, ds, head, tail, base, b, end);
    WithSign(sign == "-", Value(ds, b));
  }

  lemma WithSign(minus: bool, n: nat)
    ensures Wrap((if minus then -1 else 1) * n) == Signed32(minus, n)
  {
  }

  // ----- what printf prints -----

  lemma WrapLow(v: int, lflag: nat)
    ensures Wrap(v % Modulus(lflag)) == Wrap(v)
    ensures Wrap(Signed(v, lflag)) == Wrap(v)
  {
    if lflag >= 2 {
      var m := 0x1_0000_0000_0000_0000;
      assert v == v % m + (v / m * 0x1_0000_0000) * 0x1_0000_0000;
      WrapPeriod(v % m, v / m * 0x1_0000_0000);
      WrapPeriod(v % m - m, 0x1_0000_0000);
    } else {
      var m := 0x1_0000_0000;
      assert v == v % m + v / m * m;
      WrapPeriod(v % m, v / m);
      WrapPeriod(v % m - m, 1);
    }
  }

  /** The base of a conversion */
  function BaseOf(ch: char): nat {
    if ch == 'x' || ch == 'p' then 16 else if ch == 'o' then 8 else 10
  }

  predicate NumberLetter(ch: char) { ch == 'x' || ch == 'u' || ch == 'o' || ch == 'd' || ch == 'p' }

  /** The two's complement of the argument is negative. */
  predicate Negative(v: int, lflag: nat) { 2 * (v % Modulus(lflag)) >= Modulus(lflag) }

  /** The sign or prefix printed in front of the padding */
  function Front(ch: char, f: Flags, v: int): string {
    if ch == 'p' then ['0', 'x'] else if ch == 'd' && Negative(v, f.lflag) then "-" else ""
  }

  /** The number printed behind it */
  function Size(ch: char, f: Flags, v: int): nat {
    if ch == 'p' then v % 0x1_0000_0000
    else if ch == 'd' && Negative(v, f.lflag) then Modulus(f.lflag) - v % Modulus(f.lflag)
    else v % Modulus(f.lflag)
  }

  lemma NumberText(f: Flags, ch: char, v: int)
    requires NumberLetter(ch)
    ensures Convert(ch, f, [Num(v)]) == Some((Front(ch, f, v) + Padded(Size(ch, f, v), BaseOf(ch), f.width, f.padc), []))
  {
    var e := Scanned(0, f, [Num(v)], ch);
    var text := Padded(Size(ch, f, v), BaseOf(ch), f.width, f.padc);
    assert "" + text == text && [Num(v)][1..] == [];
    if ch == 'p' { PointerText(e, v, text); }
    else if ch == 'd' {
      var n := Signed(v, f.lflag);
      assert Abs(n) == Size(ch, f, v) && (n < 0 <==> Negative(v, f.lflag));
      SignedText(e, v, n, text);
    } else { UnsignedText(e, v, ch, BaseOf(ch)); }
  }

  lemma PrintsNumber(f: Flags, star: bool, ch: char, v: int)
    requires Spellable(f, star) && NumberLetter(ch)
    ensures Format(['%'] + Spell(f, star, ch), 0, (if star then [Num(f.width)] else []) + [Num(v)])
         == Front(ch, f, v) + Padded(Size(ch, f, v), BaseOf(ch), f.width, f.padc)
  {
    var fmt := ['%'] + Spell(f, star, ch);
    var args := (if star then [Num(f.width)] else []) + [Num(v)];
    assert [] + [Num(v)] == [Num(v)];
    ScansSpec(fmt, Spell(f, star, ch), f, star, ch, [Num(v)], args);
    NumberText(f, ch, v);
    OneEscape(fmt, args, Scanned(1 + |Spell(f, star, ch)|, f, [Num(v)], ch), Front(ch, f, v) + Padded(Size(ch, f, v), BaseOf(ch), f.width, f.padc));
  }

  lemma ScansSpec(fmt: string, spec: string, f: Flags, star: bool, ch: char, rest: seq<Arg>, args: seq<Arg>)
    requires Spellable(f, star) && Letter(ch) && spec == Spell(f, star, ch) && fmt == ['%'] + spec
    requires args == if star then [Num(f.width)] + rest else rest
    ensures fmt != [] && fmt[0] == '%' && Scan(fmt, 1, PLAIN, args) == Scanned(1 + |spec|, f, rest, ch)
  {
    assert fmt[1..] == spec + [];
    ScanReadsFlags(fmt, 1, f, star, ch, [], rest);
  }

  /** A format that is one escape */
  lemma OneEscape(fmt: string, args: seq<Arg>, e: Scanned, text: string)
    requires fmt != [] && fmt[0] == '%' && Scan(fmt, 1, PLAIN, args) == e && e.next == |fmt|
    requires Convert(e.ch, e.flags, e.args) == Some((text, []))
    ensures Format(fmt, 0, args) == text
  {
    KnownEscape(fmt, 0, args, e);
    assert Format(fmt, e.next, []) == [] && text + [] == text;
  }

  lemma WrapSize(ch: char, f: Flags, v: int)
    requires NumberLetter(ch)
    ensures Signed32(Front(ch, f, v) == "-", Size(ch, f, v)) == Wrap(v)
  {
    WrapLow(v, f.lflag);
    WrapLow(v, 0);
  }

  /** Blanks stand between the sign or prefix and the digits. */
  predicate Gap(front: string, n: nat, base: nat, f: Flags)
    requires 2 <= base <= 16
  {
    front != "" && f.padc == ' ' && f.width > |Digits(n, base)|
  }

  /** Without a gap everything printed is read. */
  lemma ReadsWithoutGap(front: string, n: nat, ch: char, f: Flags, end: nat, s: string)
    requires NumberLetter(ch) && (f.padc == ' ' || f.padc == '0') && s == front + Padded(n, BaseOf(ch), f.width, f.padc)
    requires front == (if ch == 'p' then ['0', 'x'] else "") || (front == "-" && ch == 'd')
    requires !Gap(front, n, BaseOf(ch), f)
    requires var p := Split(s, BaseOf(ch)); DigitsTo(s, p.digits, end, p.base)
    ensures var p := Split(s, BaseOf(ch)); end == |s| && p.neg == (front == "-") && Value(s[p.digits..end], p.base) == n
  {
    var base := BaseOf(ch);
    var ds := Digits(n, base);
    var k := f.width - |ds|;
    DigitsArePlain(n, base);
    DigitsSpell(n, base);
    assert s == front + (Repeat(f.padc, k) + ds);
    if f.padc == ' ' { BlanksFirst(front, n, ch, k, end, s, ds); } else { ZerosFirst(front, n, ch, k, end, s, ds); }
  }

  lemma BlanksFirst(front: string, n: nat, ch: char, k: int, end: nat, s: string, ds: string)
    requires NumberLetter(ch) && s == front + (Repeat(' ', k) + ds) && (front != "" ==> k <= 0)
    requires front == (if ch == 'p' then ['0', 'x'] else "") || (front == "-" && ch == 'd')
    requires ds != [] && (forall i :: 0 <= i < |ds| ==> IsDigit(ds[i], BaseOf(ch)) && ds[i] != 'x') && Value(ds, BaseOf(ch)) == n
    requires var p := Split(s, BaseOf(ch)); DigitsTo(s, p.digits, end, p.base)
    ensures var p := Split(s, BaseOf(ch)); end == |s| && p.neg == (front == "-") && Value(s[p.digits..end], p.base) == n
  {
    var blanks := Repeat(' ', k);
    Regroup(front, blanks, ds);
    ReadsFrom(blanks, front, ds, ch, n, end, s);
  }

  lemma Regroup(a: string, b: string, c: string)
    requires a == [] || b == []
    ensures a + (b + c) == b + (a + c)
  {
    if a == [] { assert a + (b + c) == b + c && a + c == c; } else { assert b + c == c && b + (a + c) == a + c; }
  }

  lemma ZerosFirst(front: string, n: nat, ch: char, k: int, end: nat, s: string, ds: string)
    requires NumberLetter(ch) && s == front + (Repeat('0', k) + ds)
    requires front == (if ch == 'p' then ['0', 'x'] else "") || (front == "-" && ch == 'd')
    requires ds != [] && (forall i :: 0 <= i < |ds| ==> IsDigit(ds[i], BaseOf(ch)) && ds[i] != 'x') && Value(ds, BaseOf(ch)) == n
    requires var p := Split(s, BaseOf(ch)); DigitsTo(s, p.digits, end, p.base)
    ensures var p := Split(s, BaseOf(ch)); end == |s| && p.neg == (front == "-") && Value(s[p.digits..end], p.base) == n
  {
    var all := Repeat('0', k) + ds;
    LeadingZeros(k, ds, BaseOf(ch));
    ZerosHaveNoX(k, ds);
    assert [] + (front + all) == front + all;
    ReadsFrom([], front, all, ch, n, end, s);
  }

  lemma ZerosHaveNoX(k: int, ds: string)
    requires ds != [] && forall i :: 0 <= i < |ds| ==> ds[i] != 'x'
    ensures var all := Repeat('0', k) + ds; all != [] && forall i :: 0 <= i < |all| ==> all[i] != 'x'
  {
  }

  lemma ReadsFrom(blanks: string, front: string, ds: string, ch: char, n: nat, end: nat, s: string)
    requires NumberLetter(ch) && (forall k :: 0 <= k < |blanks| ==> blanks[k] == ' ' || blanks[k] == '\t')
    requires front == (if ch == 'p' then ['0', 'x'] else "") || (front == "-" && ch == 'd')
    requires ds != [] && (forall i :: 0 <= i < |ds| ==> IsDigit(ds[i], BaseOf(ch)) && ds[i] != 'x') && Value(ds, BaseOf(ch)) == n
    requires s == blanks + (front + ds) && var p := Split(s, BaseOf(ch)); DigitsTo(s, p.digits, end, p.base)
    ensures var p := Split(s, BaseOf(ch)); end == |s| && p.neg == (front == "-") && Value(s[p.digits..end], p.base) == n
  {
    var base := BaseOf(ch);
    var head := front + ds;
    assert "" + head == head && "" + ds == ds;
    if ch == 'p' { ReadsAll(s, blanks, "", front, ds, head, head, base, base, end); }
    else { ReadsAll(s, blanks, front, "", ds, head, ds, base, base, end); }
  }

  /** With one, reading ends behind the sign or prefix. */
  lemma ReadsNothing(front: string, n: nat, ch: char, f: Flags, end: nat, s: string)
    requires NumberLetter(ch) && ((front == ['0', 'x'] && ch == 'p') || (front == "-" && ch == 'd')) && Gap(front, n, BaseOf(ch), f)
    requires s == front + Padded(n, BaseOf(ch), f.width, f.padc) && var p := Split(s, BaseOf(ch)); DigitsTo(s, p.digits, end, p.base)
    ensures var p := Split(s, BaseOf(ch)); end == |front| < |s| && Value(s[p.digits..end], p.base) == 0
  {
    assert !Blank(s[0]) && s[|front|] == ' ';
    assert Split(s, BaseOf(ch)).digits == |front|;
  }

  /** printf of a number with any flags and width, and strtol in the conversion's base: the argument comes back, as 32-bit
      two's complement, with everything read; but if blanks stand between a sign or 0x and the digits, 0, the digits unread. */
  method PrintThenRead(f: Flags, star: bool, ch: char, v: int) returns (text: string, val: int, end: nat)
    requires Spellable(f, star) && NumberLetter(ch) && (f.padc == ' ' || f.padc == '0')
    ensures if Gap(Front(ch, f, v), Size(ch, f, v), BaseOf(ch), f) then val == 0 && end == |Front(ch, f, v)| < |text|
            else val == Wrap(v) && end == |text|
  {
    var sink := new Sink();
    VPrintFmt(sink, ['%'] + Spell(f, star, ch), (if star then [Num(f.width)] else []) + [Num(v)]);
    text := sink.out;
    val, end := Strtol(text, BaseOf(ch));
    PrintsNumber(f, star, ch, v);
    ReadsIt(f, ch, v, text, val, end);
  }

  lemma ReadsIt(f: Flags, ch: char, v: int, s: string, val: int, end: nat)
    requires NumberLetter(ch) && (f.padc == ' ' || f.padc == '0')
    requires s == Front(ch, f, v) + Padded(Size(ch, f, v), BaseOf(ch), f.width, f.padc)
    requires var p := Split(s, BaseOf(ch));
             DigitsTo(s, p.digits, end, p.base) && val == Wrap((if p.neg then -1 else 1) * Value(s[p.digits..end], p.base))
    ensures if Gap(Front(ch, f, v), Size(ch, f, v), BaseOf(ch), f) then val == 0 && end == |Front(ch, f, v)| < |s|
            else val == Wrap(v) && end == |s|
  {
    var front, n := Front(ch, f, v), Size(ch, f, v);
    WrapSize(ch, f, v);
    if Gap(front, n, BaseOf(ch), f) { ReadsNothing(front, n, ch, f, end, s); } else { ReadsWithoutGap(front, n, ch, f, end, s); }
  }
}
